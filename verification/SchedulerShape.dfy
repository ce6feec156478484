/** The form of one node's queue: never empty, a wake task only in front, and a head that can
    be completed. */
module SchedulerShape {
  import opened Tasks
  import opened SchedulerSpec
  import opened SchedulerLocality

  predicate WakeOnlyFirst(q: seq<Task>) {
    forall i | 1 <= i < |q| :: !q[i].kind.Wake?
  }

  predicate QueueOk(q: seq<Task>) {
    q != [] && WakeOnlyFirst(q) && Ready(q[0])
  }

  predicate NodeOk(s: State, n: Node) {
    n in s.queue ==> QueueOk(s.queue[n])
  }

  /** What the configuration callback may ask for: at least one retrying task. */
  predicate CallbackOk(cfg: seq<Kind>) {
    cfg != [] && forall k | k in cfg :: Retrying(k)
  }

  lemma AddTaskShape(s: State, n: Node, t: Task)
    requires !s.mode.passive && !t.kind.Wake?
    requires n in s.queue ==> WakeOnlyFirst(s.queue[n])
    ensures var r := AddTask(s, n, t);
      && WakeOnlyFirst(r.queue[n])
      && (n in s.queue ==> r == SetQueue(s, n, s.queue[n] + [t]))
      && (n !in s.queue ==> QueueOk(r.queue[n]))
  {
  }

  lemma ScheduleShape(s: State, n: Node, k: Kind)
    requires !s.mode.passive && !k.Wake?
    requires n in s.queue ==> WakeOnlyFirst(s.queue[n])
    ensures var r := Schedule(s, n, k);
      && WakeOnlyFirst(r.queue[n])
      && (n in s.queue ==> r == SetQueue(Create(s, n), n, s.queue[n] + [Fresh(s, k)]))
      && (n !in s.queue ==> QueueOk(r.queue[n]))
  {
    AddTaskShape(Create(s, n), n, Fresh(s, k));
  }

  lemma AddTaskNode(s: State, n: Node, t: Task)
    requires NodeOk(s, n) && !t.kind.Wake?
    ensures NodeOk(AddTask(s, n, t), n)
  {
    if !s.mode.passive {
      AddTaskShape(s, n, t);
    }
  }

  lemma SetSleepTimeShape(s: State, n: Node)
    requires !s.mode.passive
    requires n in s.queue ==> WakeOnlyFirst(s.queue[n])
    ensures var r := SetSleepTime(s, n);
      && WakeOnlyFirst(r.queue[n])
      && (n !in s.queue ==> QueueOk(r.queue[n]))
  {
    if s.mode.legacy {
      ScheduleShape(s, n, DeleteOp(TASK_OP_CONF));
      var s1 := Schedule(s, n, DeleteOp(TASK_OP_CONF));
      ScheduleShape(s1, n, New(TASK_OP_CONF, s.mode.sleepTime));
      ScheduleShape(s, n, New(TASK_OP_CONF, s.mode.sleepTime));
    } else {
      ScheduleShape(s, n, Change(TASK_OP_CONF, s.mode.sleepTime));
    }
  }

  lemma SleepNodeShape(s: State, n: Node)
    requires !s.mode.passive
    requires n in s.queue ==> s.queue[n] == []
    ensures var r := SleepNode(s, n);
      && WakeOnlyFirst(r.queue[n])
      && (n !in s.queue ==> QueueOk(r.queue[n]))
  {
    if IsLowPower(n) && SleepPeriod(s, n) != s.mode.sleepTime {
      SetSleepTimeShape(s, n);
    }
  }

  lemma OnErrorShape(s: State, n: Node)
    requires n in s.queue && QueueOk(s.queue[n])
    ensures NodeOk(OnError(s, n), n)
  {
  }

  lemma OnSuccessShape(s: State, n: Node, e: EventType)
    requires !s.mode.passive && n in s.queue && QueueOk(s.queue[n])
    ensures var r := OnSuccess(s, n, e);
      && QueueOk(r.queue[n]) && Head(r, n) == Head(s, n)
      && r.queue[n] == s.queue[n] +
           if Head(s, n).kind.Ota? && e.OtaAck? && e.status == 0
           then [Fresh(s, New(TASK_OP_UPDATE, 0))] else []
  {
    ScheduleShape(s, n, New(TASK_OP_UPDATE, 0));
  }

  lemma AdvanceShape(s: State, n: Node)
    requires !s.mode.passive && n in s.queue && QueueOk(s.queue[n])
    ensures NodeOk(Advance(s, n), n)
  {
    var s1 := SetQueue(s, n, s.queue[n][1..]);
    if !Terminal(Head(s, n).kind) && s1.queue[n] == [] && (n in s1.pool.configNodes || IsLowPower(n)) {
      SleepNodeShape(s1, n);
    }
  }

  lemma HandleHeadShape(s: State, n: Node, e: EventType)
    requires !s.mode.passive && n in s.queue && QueueOk(s.queue[n])
    ensures NodeOk(HandleHead(s, n, e), n)
  {
    if Succeeds(Head(s, n).kind, e) {
      OnSuccessShape(s, n, e);
      AdvanceShape(OnSuccess(s, n, e), n);
    } else {
      OnErrorShape(s, n);
    }
  }

  // ---- Configuration

  /** The tasks a configuration callback leaves in an empty queue of a node being configured,
      `id` being the next free identity: the wake task takes the one after the first task. */
  function CallbackTasks(id: nat, cfg: seq<Kind>): (ts: seq<Task>) {
    seq(|cfg|, i requires 0 <= i < |cfg| => Task(if i == 0 then id else id + 1 + i, cfg[i], 0))
  }

  lemma {:induction false} ScheduleAllShape(s: State, n: Node, cfg: seq<Kind>)
    requires !s.mode.passive && n in s.pool.configNodes && n !in s.queue && cfg != []
    ensures var r := ScheduleAll(s, n, cfg);
      && n in r.queue
      && r.queue[n] == [Task(s.trace.nextId + 1, Wake, 0)] + CallbackTasks(s.trace.nextId, cfg)
      && r.trace.nextId == s.trace.nextId + 1 + |cfg|
      && r.mode == s.mode && r.pool == s.pool
    decreases |cfg|
  {
    var init, k := cfg[..|cfg| - 1], cfg[|cfg| - 1];
    var id := s.trace.nextId;
    if init == [] {
      assert CallbackTasks(id, cfg) == [Task(id, k, 0)];
    } else {
      ScheduleAllShape(s, n, init);
      hide ScheduleAll;
      var t := Task(id + 1 + |init|, k, 0);
      assert CallbackTasks(id, cfg) == CallbackTasks(id, init) + [t];
    }
  }

  lemma {:induction false} AddAllShape(s: State, n: Node, ts: seq<Task>)
    requires !s.mode.passive && n in s.queue
    ensures AddAll(s, n, ts) == SetQueue(s, n, s.queue[n] + ts)
    decreases |ts|
  {
    if ts == [] {
      assert s.queue[n] + ts == s.queue[n];
      assert s.queue[n := s.queue[n]] == s.queue;
    } else {
      var init, t := ts[..|ts| - 1], ts[|ts| - 1];
      AddAllShape(s, n, init);
      var s1 := SetQueue(s, n, s.queue[n] + init);
      assert s.queue[n] + ts == s.queue[n] + init + [t];
      assert s1.queue[n := s.queue[n] + ts] == s.queue[n := s.queue[n] + ts];
    }
  }

  lemma ConfigureShape(s: State, n: Node, cfg: seq<Kind>)
    requires !s.mode.passive && n in s.pool.configNodes && CallbackOk(cfg)
    ensures var r := Configure(s, n, cfg);
      && n in r.queue && QueueOk(r.queue[n]) && r.mode == s.mode && r.pool == s.pool
      && r.queue[n] == [Task(s.trace.nextId + 1, Wake, 0)] + CallbackTasks(s.trace.nextId, cfg)
  {
    ScheduleAllShape(CancelTasks(s, n).(sleepPeriod := s.sleepPeriod[n := 0]), n, cfg);
    var q := Configure(s, n, cfg).queue[n];
    assert forall i | 1 <= i < |q| :: q[i].kind == cfg[i - 1] && cfg[i - 1] in cfg;
  }

  lemma {:induction false} PendingKinds(q: seq<Task>)
    ensures forall t | t in Pending(q) :: !t.kind.Wake? && !t.kind.Sleep? && t in q
    decreases |q|
  {
    if q != [] {
      PendingKinds(q[..|q| - 1]);
    }
  }

  lemma {:induction false} PendingConcat(a: seq<Task>, b: seq<Task>)
    ensures Pending(a + b) == Pending(a) + Pending(b)
    decreases |b|
  {
    if b == [] {
      assert a + b == a;
    } else {
      var init := b[..|b| - 1];
      PendingConcat(a, init);
      assert (a + b)[..|a + b| - 1] == a + init;
    }
  }

  lemma {:induction false} PendingAll(q: seq<Task>)
    requires forall t | t in q :: !t.kind.Wake? && !t.kind.Sleep?
    ensures Pending(q) == q
    decreases |q|
  {
    if q != [] {
      PendingAll(q[..|q| - 1]);
    }
  }

  lemma ReconfigureShape(s: State, n: Node, cfg: seq<Kind>)
    requires !s.mode.passive && n in s.pool.configNodes && CallbackOk(cfg)
    ensures var r := Reconfigure(s, n, cfg);
      && n in r.queue && QueueOk(r.queue[n])
      && r.queue[n] == [Task(s.trace.nextId + 1, Wake, 0)]
                       + (CallbackTasks(s.trace.nextId, cfg) + GetTasks(s, n))
  {
    ConfigureShape(s, n, cfg);
    var s1 := Configure(s, n, cfg);
    AddAllShape(s1, n, GetTasks(s, n));
    if n in s.queue {
      PendingKinds(s.queue[n]);
    }
  }

  lemma NotifyShape(s: State, n: Node, conf: NotifyConf, cfg: seq<Kind>)
    requires !s.mode.passive && NodeOk(s, n) && CallbackOk(cfg)
    ensures NodeOk(NotifyCb(s, n, conf, cfg), n)
  {
    match conf {
      case Legacy =>
        if n in s.pool.configNodes {
          ConfigureShape(s, n, cfg);
        } else if n !in s.queue {
          SleepNodeShape(s, n);
        }
      case NotConfigured =>
        var s1 := s.(pool := EnterConfiguration(s.pool, n));
        if n in s1.pool.configNodes && n !in s1.pool.configuring {
          ReconfigureShape(s1, n, cfg);
        }
      case Configured =>
        if n !in s.queue {
          SleepNodeShape(s, n);
        }
    }
  }

  /** After the callbacks the handler's lookups of the head succeed. */
  lemma NoticeShape(s: State, n: Node, e: EventType, cfg: seq<Kind>)
    requires !s.mode.passive && NodeOk(s, n)
    requires e.WakeNotify? ==> CallbackOk(cfg)
    ensures NodeOk(Notice(s, n, e, cfg), n) && HeadFound(Notice(s, n, e, cfg), n)
  {
    NoticeLocal(s, n, e, cfg);
    if e.WakeNotify? {
      NotifyShape(s, n, e.conf, cfg);
    }
  }

  /** The lookups that follow the callback, exactly: they need a queue for the node, and an
      application whose callback adds nothing can leave none. */
  lemma CallbackLookup(s: State, n: Node, cfg: seq<Kind>)
    requires !s.mode.passive && n in s.pool.configNodes
    ensures n in Configure(s, n, cfg).queue <==> cfg != []
    ensures n in Reconfigure(s, n, cfg).queue <==> cfg != [] || GetTasks(s, n) != []
  {
    var s1 := CancelTasks(s, n).(sleepPeriod := s.sleepPeriod[n := 0]);
    if cfg != [] {
      ScheduleAllShape(s1, n, cfg);
      AddAllShape(Configure(s, n, cfg), n, GetTasks(s, n));
    } else if GetTasks(s, n) != [] {
      AddAllNonEmpty(Configure(s, n, cfg), n, GetTasks(s, n));
    }
  }

  lemma AddAllNonEmpty(s: State, n: Node, ts: seq<Task>)
    requires !s.mode.passive && ts != []
    ensures n in AddAll(s, n, ts).queue
  {
    AddAllWork(s, n, ts[..|ts| - 1]);
  }
}
