/** How often a task can be sent: the retries of a task over whole runs, counted in the log. */
module SchedulerRetries {
  import opened Tasks
  import opened SchedulerSpec
  import opened SchedulerLocality
  import opened SchedulerShape
  import opened SchedulerRuns

  /** How often the task `id` has been sent. */
  function Sends(log: seq<Entry>, id: nat): nat
    decreases |log|
  {
    if log == [] then 0
    else
      var e := log[|log| - 1];
      Sends(log[..|log| - 1], id) + if e.Sent? && e.id == id then 1 else 0
  }

  /** How often `n` has been woken up since the task `id` was created. */
  function Wakes(log: seq<Entry>, id: nat, n: Node): nat
    decreases |log|
  {
    if log == [] then 0
    else
      var e := log[|log| - 1];
      if e.NewTask? && e.id == id then 0
      else Wakes(log[..|log| - 1], id, n) + if e == Awaked(n) then 1 else 0
  }

  lemma LogAppend(log: seq<Entry>, e: Entry, id: nat, n: Node)
    ensures Sends(log + [e], id) == Sends(log, id) + if e.Sent? && e.id == id then 1 else 0
    ensures Wakes(log + [e], id, n) ==
              if e.NewTask? && e.id == id then 0
              else Wakes(log, id, n) + if e == Awaked(n) then 1 else 0
  {
    assert (log + [e])[..|log|] == log;
  }

  // ---- The accounting invariant

  /** `t` is a task of `n` whose retry counter is the number of times it has been sent. */
  predicate Known(t: Task, n: Node, tr: Trace) {
    && t.id in tr.owner && tr.owner[t.id] == n
    && (Retrying(t.kind) ==> t.retries == Sends(tr.log, t.id))
  }

  /** `t` may be sent once more. */
  predicate Room(t: Task, n: Node, tr: Trace) {
    Retrying(t.kind) ==> t.retries <= MAX_RETRIES - 1 + Wakes(tr.log, t.id, n)
  }

  ghost predicate RoomBehind(q: seq<Task>, n: Node, tr: Trace) {
    forall i | 1 <= i < |q| :: Room(q[i], n, tr)
  }

  ghost predicate DistinctIds(q: seq<Task>) {
    forall i, j | 0 <= i < j < |q| :: q[i].id != q[j].id
  }

  /** The tasks behind a head that is not a wake task have room for one more sending. */
  ghost predicate QueueAccounted(q: seq<Task>, n: Node, tr: Trace) {
    && (forall t | t in q :: Known(t, n, tr))
    && DistinctIds(q)
    && (q != [] && !q[0].kind.Wake? ==> RoomBehind(q, n, tr))
  }

  predicate Bounded(tr: Trace, id: nat)
    requires id in tr.owner
  {
    Sends(tr.log, id) <= MAX_RETRIES + Wakes(tr.log, id, tr.owner[id])
  }

  ghost predicate TraceOk(tr: Trace) {
    && (forall id | id in tr.owner :: id < tr.nextId && Bounded(tr, id))
    && (forall id: nat | id >= tr.nextId :: Sends(tr.log, id) == 0)
  }

  ghost predicate Accounted(queue: map<Node, seq<Task>>, tr: Trace) {
    && TraceOk(tr)
    && forall n | n in queue :: QueueAccounted(queue[n], n, tr)
  }

  // ---- Primitive changes

  lemma NoteKnown(t: Task, n: Node, tr: Trace, e: Entry)
    requires Known(t, n, tr) && !e.Sent? && !e.NewTask?
    ensures var r := tr.(log := tr.log + [e]);
      && Known(t, n, r) && (Room(t, n, tr) ==> Room(t, n, r))
      && Wakes(r.log, t.id, n) == Wakes(tr.log, t.id, n) + if e == Awaked(n) then 1 else 0
  {
    LogAppend(tr.log, e, t.id, n);
  }

  lemma NoteAccounted(queue: map<Node, seq<Task>>, tr: Trace, e: Entry)
    requires Accounted(queue, tr) && !e.Sent? && !e.NewTask?
    ensures Accounted(queue, tr.(log := tr.log + [e]))
  {
    var r := tr.(log := tr.log + [e]);
    forall id | id in tr.owner ensures Bounded(r, id) {
      assert Bounded(tr, id);
      LogAppend(tr.log, e, id, tr.owner[id]);
    }
    forall id: nat | id >= tr.nextId ensures Sends(r.log, id) == 0 {
      LogAppend(tr.log, e, id, Node(0, 0));
    }
    forall n | n in queue ensures QueueAccounted(queue[n], n, r) {
      forall t | t in queue[n] ensures Known(t, n, r) && (Room(t, n, tr) ==> Room(t, n, r)) {
        NoteKnown(t, n, tr, e);
      }
    }
  }

  lemma CreateKnown(t: Task, n: Node, tr: Trace, m: Node)
    requires Known(t, n, tr) && t.id < tr.nextId
    ensures var r := Created(tr, m); Known(t, n, r) && (Room(t, n, tr) ==> Room(t, n, r))
  {
    LogAppend(tr.log, NewTask(tr.nextId, m), t.id, n);
    hide Sends, Wakes;
  }

  lemma CreateTrace(tr: Trace, m: Node)
    requires TraceOk(tr)
    ensures TraceOk(Created(tr, m))
  {
    var r := Created(tr, m);
    forall id | id in r.owner ensures id < r.nextId && Bounded(r, id) {
      LogAppend(tr.log, NewTask(tr.nextId, m), id, r.owner[id]);
      if id != tr.nextId {
        assert Bounded(tr, id);
      } else {
        assert Sends(tr.log, id) == 0;
      }
    }
    forall id: nat | id >= r.nextId ensures Sends(r.log, id) == 0 {
      LogAppend(tr.log, NewTask(tr.nextId, m), id, m);
      assert Sends(tr.log, id) == 0;
    }
  }

  lemma CreateAccounted(queue: map<Node, seq<Task>>, tr: Trace, m: Node, k: Kind)
    requires Accounted(queue, tr)
    ensures var r := Created(tr, m);
      && Accounted(queue, r)
      && Known(Task(tr.nextId, k, 0), m, r) && Room(Task(tr.nextId, k, 0), m, r)
  {
    var r := Created(tr, m);
    CreateTrace(tr, m);
    forall n | n in queue ensures QueueAccounted(queue[n], n, r) {
      forall t | t in queue[n] ensures Known(t, n, r) && (Room(t, n, tr) ==> Room(t, n, r)) {
        assert t.id in tr.owner;
        CreateKnown(t, n, tr, m);
      }
    }
    LogAppend(tr.log, NewTask(tr.nextId, m), tr.nextId, m);
    assert Sends(tr.log, tr.nextId) == 0;
  }

  lemma SentKnown(t: Task, n: Node, tr: Trace, id: nat, m: Node)
    requires Known(t, n, tr) && t.id != id
    ensures var r := tr.(log := tr.log + [Sent(id, m)]);
      Known(t, n, r) && (Room(t, n, tr) ==> Room(t, n, r))
  {
    LogAppend(tr.log, Sent(id, m), t.id, n);
  }

  lemma SentTrace(tr: Trace, t: Task, n: Node)
    requires TraceOk(tr) && Known(t, n, tr) && Room(t, n, tr) && Retrying(t.kind)
    ensures TraceOk(tr.(log := tr.log + [Sent(t.id, n)]))
    ensures Known(t.(retries := t.retries + 1), n, tr.(log := tr.log + [Sent(t.id, n)]))
  {
    var r := tr.(log := tr.log + [Sent(t.id, n)]);
    forall id | id in r.owner ensures id < r.nextId && Bounded(r, id) {
      assert Bounded(tr, id);
      LogAppend(tr.log, Sent(t.id, n), id, r.owner[id]);
    }
    forall id: nat | id >= r.nextId ensures Sends(r.log, id) == 0 {
      LogAppend(tr.log, Sent(t.id, n), id, n);
    }
    LogAppend(tr.log, Sent(t.id, n), t.id, n);
  }

  lemma SentOthers(queue: map<Node, seq<Task>>, tr: Trace, t: Task, n: Node, m: Node)
    requires Accounted(queue, tr) && Known(t, n, tr) && m != n && m in queue
    ensures QueueAccounted(queue[m], m, tr.(log := tr.log + [Sent(t.id, n)]))
  {
    forall u | u in queue[m]
      ensures var r := tr.(log := tr.log + [Sent(t.id, n)]);
        Known(u, m, r) && (Room(u, m, tr) ==> Room(u, m, r))
    {
      SentKnown(u, m, tr, t.id, n);
    }
  }

  lemma ExecuteAccounted(s: State, n: Node)
    requires Accounted(s.queue, s.trace) && HasHead(s, n) && Room(Head(s, n), n, s.trace)
    ensures var r := Execute(s, n); Accounted(r.queue, r.trace)
  {
    var t := Head(s, n);
    if !Retrying(t.kind) {
      NoteAccounted(s.queue, s.trace, Signal(t.kind, n));
    } else {
      var q, r := s.queue[n], Execute(s, n);
      var q' := r.queue[n];
      SentTrace(s.trace, t, n);
      forall m | m in r.queue && m != n ensures QueueAccounted(r.queue[m], m, r.trace) {
        SentOthers(s.queue, s.trace, t, n, m);
      }
      forall i | 1 <= i < |q'|
        ensures q'[i] == q[i] && Known(q'[i], n, r.trace) && Room(q'[i], n, r.trace)
      {
        assert q[i] in q && q[i].id != q[0].id;
        SentKnown(q[i], n, s.trace, t.id, n);
      }
      assert forall u | u in q' :: Known(u, n, r.trace);
    }
  }

  // ---- The queue functions

  lemma AddTaskAccounted(s: State, n: Node, t: Task)
    requires Accounted(s.queue, s.trace) && Known(t, n, s.trace) && Room(t, n, s.trace)
    requires n in s.queue ==> forall u | u in s.queue[n] :: u.id != t.id
    ensures var r := AddTask(s, n, t); Accounted(r.queue, r.trace)
  {
    if s.mode.passive {
    } else if n in s.queue {
      var q := s.queue[n];
      assert forall i | 0 <= i < |q| :: q[i] in q;
      assert QueueAccounted(q + [t], n, s.trace);
    } else if n in s.pool.configNodes || IsLowPower(n) {
      CreateAccounted(s.queue, s.trace, n, Wake);
      CreateKnown(t, n, s.trace, n);
      assert QueueAccounted([Fresh(s, Wake), t], n, Created(s.trace, n));
    } else {
      assert QueueAccounted([t], n, s.trace);
      ExecuteAccounted(SetQueue(s, n, [t]), n);
    }
  }

  lemma ScheduleAccounted(s: State, n: Node, k: Kind)
    requires Accounted(s.queue, s.trace)
    ensures var r := Schedule(s, n, k); Accounted(r.queue, r.trace)
  {
    CreateAccounted(s.queue, s.trace, n, k);
    if n in s.queue {
      forall u | u in s.queue[n] ensures u.id != s.trace.nextId {
        assert Known(u, n, s.trace);
      }
    }
    AddTaskAccounted(Create(s, n), n, Fresh(s, k));
  }

  lemma RescheduleAccounted(s: State, n: Node)
    requires Accounted(s.queue, s.trace) && HasHead(s, n)
    ensures var r := RescheduleTasks(s, n); Accounted(r.queue, r.trace)
  {
    CreateAccounted(s.queue, s.trace, n, Wake);
    var q := s.queue[n];
    forall i | 0 <= i < |q| ensures q[i].id != s.trace.nextId {
      assert Known(q[i], n, s.trace);
    }
    assert QueueAccounted([Fresh(s, Wake)] + q, n, Created(s.trace, n));
  }

  /** A queue that ran empty, filled again: its head has not been sent yet. */
  ghost predicate Unsent(s: State, n: Node) {
    n in s.queue && forall t | t in s.queue[n] :: t.retries == 0
  }

  lemma ScheduleUnsent(s: State, n: Node, k: Kind)
    requires !s.mode.passive && Unsent(s, n)
    ensures Unsent(Schedule(s, n, k), n)
  {
  }

  lemma SetSleepTimeAccounted(s: State, n: Node)
    requires Accounted(s.queue, s.trace) && !s.mode.passive
    ensures var r := SetSleepTime(s, n);
      Accounted(r.queue, r.trace) && (Unsent(s, n) ==> Unsent(r, n))
  {
    if s.mode.legacy {
      var k1, k2 := DeleteOp(TASK_OP_CONF), New(TASK_OP_CONF, s.mode.sleepTime);
      var s1 := if n in s.pool.configNodes then s else Schedule(s, n, k1);
      ScheduleAccounted(s, n, k1);
      ScheduleAccounted(s1, n, k2);
      if Unsent(s, n) {
        ScheduleUnsent(s, n, k1);
        ScheduleUnsent(s1, n, k2);
      }
    } else {
      ScheduleAccounted(s, n, Change(TASK_OP_CONF, s.mode.sleepTime));
      if Unsent(s, n) {
        ScheduleUnsent(s, n, Change(TASK_OP_CONF, s.mode.sleepTime));
      }
    }
  }

  lemma SleepNodeAccounted(s: State, n: Node)
    requires Accounted(s.queue, s.trace) && !s.mode.passive
    ensures var r := SleepNode(s, n);
      Accounted(r.queue, r.trace) && (Unsent(s, n) ==> Unsent(r, n))
  {
    if IsLowPower(n) && SleepPeriod(s, n) != s.mode.sleepTime {
      var s1 := SetSleepTime(s, n);
      SetSleepTimeAccounted(s, n);
      CreateAccounted(s1.queue, s1.trace, n, Sleep);
      FreshLast(s1, n, Sleep);
    } else {
      CreateAccounted(s.queue, s.trace, n, Sleep);
      CreateAccounted(s.queue, s.trace, n, Alive);
      assert QueueAccounted([Fresh(s, Sleep)], n, Created(s.trace, n));
      assert QueueAccounted([Fresh(s, Alive)], n, Created(s.trace, n));
    }
  }

  lemma FreshLast(s: State, n: Node, k: Kind)
    requires Accounted(s.queue, s.trace) && n in s.queue
    requires Accounted(s.queue, Created(s.trace, n))
    requires Known(Fresh(s, k), n, Created(s.trace, n)) && Room(Fresh(s, k), n, Created(s.trace, n))
    ensures QueueAccounted(s.queue[n] + [Fresh(s, k)], n, Created(s.trace, n))
  {
    var q := s.queue[n];
    forall i | 0 <= i < |q| ensures q[i].id != s.trace.nextId {
      assert Known(q[i], n, s.trace);
    }
  }

  lemma {:induction false} ScheduleAllAccounted(s: State, n: Node, ks: seq<Kind>)
    requires Accounted(s.queue, s.trace)
    ensures var r := ScheduleAll(s, n, ks); Accounted(r.queue, r.trace)
    decreases |ks|
  {
    if ks != [] {
      ScheduleAllAccounted(s, n, ks[..|ks| - 1]);
      ScheduleAccounted(ScheduleAll(s, n, ks[..|ks| - 1]), n, ks[|ks| - 1]);
    }
  }

  lemma {:induction false} ScheduleAllKnown(s: State, n: Node, ks: seq<Kind>, t: Task)
    requires n in s.pool.configNodes && Known(t, n, s.trace) && t.id < s.trace.nextId
    ensures var r := ScheduleAll(s, n, ks); Known(t, n, r.trace) && t.id < r.trace.nextId
    decreases |ks|
  {
    if ks != [] {
      var init := ks[..|ks| - 1];
      var s1 := ScheduleAll(s, n, init);
      ScheduleAllKnown(s, n, init, t);
      ScheduleAllWork(s, n, init);
      CreateKnown(t, n, s1.trace, n);
      CreateKnown(t, n, Created(s1.trace, n), n);
    }
  }

  lemma ConfigureAccounted(s: State, n: Node, cfg: seq<Kind>)
    requires Accounted(s.queue, s.trace)
    ensures var r := Configure(s, n, cfg); Accounted(r.queue, r.trace)
  {
    ScheduleAllAccounted(CancelTasks(s, n).(sleepPeriod := s.sleepPeriod[n := 0]), n, cfg);
  }

  lemma {:induction false} PendingDistinct(q: seq<Task>)
    requires DistinctIds(q)
    ensures DistinctIds(Pending(q))
    decreases |q|
  {
    if q != [] {
      var init := q[..|q| - 1];
      PendingDistinct(init);
      PendingKinds(init);
      var p := Pending(init);
      forall i | 0 <= i < |p| ensures p[i].id != q[|q| - 1].id {
        assert p[i] in init;
      }
    }
  }

  lemma ReconfigureAccounted(s: State, n: Node, cfg: seq<Kind>)
    requires Accounted(s.queue, s.trace) && !s.mode.passive && n in s.pool.configNodes && CallbackOk(cfg)
    ensures var r := Reconfigure(s, n, cfg); Accounted(r.queue, r.trace)
  {
    var s1 := Configure(s, n, cfg);
    var ts := GetTasks(s, n);
    ConfigureAccounted(s, n, cfg);
    ConfigureShape(s, n, cfg);
    AddAllShape(s1, n, ts);
    if n in s.queue {
      PendingKinds(s.queue[n]);
      PendingDistinct(s.queue[n]);
      forall t | t in ts ensures Known(t, n, s1.trace) && t.id < s.trace.nextId {
        assert Known(t, n, s.trace);
        ScheduleAllKnown(CancelTasks(s, n).(sleepPeriod := s.sleepPeriod[n := 0]), n, cfg, t);
      }
    }
    ReconfiguredQueue(s1.queue[n], ts, n, s1.trace, s.trace.nextId);
  }

  /** Older tasks behind a queue of newer ones that a wake task leads. */
  lemma ReconfiguredQueue(q: seq<Task>, ts: seq<Task>, n: Node, tr: Trace, id: nat)
    requires QueueAccounted(q, n, tr) && q != [] && q[0].kind.Wake? && DistinctIds(ts)
    requires forall i | 0 <= i < |q| :: q[i].id >= id
    requires forall t | t in ts :: Known(t, n, tr) && t.id < id
    ensures QueueAccounted(q + ts, n, tr)
  {
    assert forall i | 0 <= i < |ts| :: ts[i] in ts;
  }

  lemma NotifyAccounted(s: State, n: Node, conf: NotifyConf, cfg: seq<Kind>)
    requires Accounted(s.queue, s.trace) && !s.mode.passive && CallbackOk(cfg)
    ensures var r := NotifyCb(s, n, conf, cfg); Accounted(r.queue, r.trace)
  {
    match conf
    case Legacy =>
      ConfigureAccounted(s, n, cfg);
      SleepNodeAccounted(s, n);
    case NotConfigured =>
      var s1 := s.(pool := EnterConfiguration(s.pool, n));
      if n in s1.pool.configNodes {
        ReconfigureAccounted(s1, n, cfg);
      }
    case Configured =>
      SleepNodeAccounted(s, n);
  }

  lemma NoticeAccounted(s: State, n: Node, e: EventType, cfg: seq<Kind>)
    requires Accounted(s.queue, s.trace) && !s.mode.passive && (e.WakeNotify? ==> CallbackOk(cfg))
    ensures var r := Notice(s, n, e, cfg); Accounted(r.queue, r.trace)
  {
    if e.WakeReset? {
      NoteAccounted(s.queue, s.trace, WakeResetAck(n));
    } else if e.WakeNotify? {
      NotifyAccounted(s, n, e.conf, cfg);
    }
  }

  /** After the success of its head a queue's other tasks may each be sent once more: they had
      room already, or the head was the wake task and each gained a wake-up. */
  lemma OnSuccessAccounted(s: State, n: Node, e: EventType)
    requires Accounted(s.queue, s.trace) && !s.mode.passive && n in s.queue && QueueOk(s.queue[n])
    ensures var r := OnSuccess(s, n, e);
      Accounted(r.queue, r.trace) && RoomBehind(r.queue[n], n, r.trace)
  {
    match Head(s, n).kind
    case Wake =>
      NoteAccounted(s.queue, s.trace, Awaked(n));
      forall i | 1 <= i < |s.queue[n]| ensures Room(s.queue[n][i], n, Note(s, Awaked(n)).trace) {
        var t := s.queue[n][i];
        assert t in s.queue[n] && Known(t, n, s.trace) && Bounded(s.trace, t.id);
        NoteKnown(t, n, s.trace, Awaked(n));
      }
    case Reset =>
      NoteAccounted(s.queue, s.trace, Forgotten(n));
      assert QueueAccounted(s.queue[n], n, OnSuccess(s, n, e).trace);
    case Ota(_) =>
      ScheduleAccounted(s, n, New(TASK_OP_UPDATE, 0));
      OnSuccessShape(s, n, e);
      assert QueueAccounted(OnSuccess(s, n, e).queue[n], n, OnSuccess(s, n, e).trace);
    case _ =>
      assert QueueAccounted(s.queue[n], n, s.trace);
  }

  lemma AdvanceAccounted(s: State, n: Node)
    requires Accounted(s.queue, s.trace) && !s.mode.passive && HasHead(s, n)
    requires RoomBehind(s.queue[n], n, s.trace)
    ensures var r := Advance(s, n); Accounted(r.queue, r.trace)
  {
    var q := s.queue[n];
    var s1 := SetQueue(s, n, q[1..]);
    assert QueueAccounted(q[1..], n, s.trace) by {
      assert forall i | 0 <= i < |q| :: q[i] in q;
    }
    if Terminal(Head(s, n).kind) {
    } else if s1.queue[n] != [] {
      ExecuteAccounted(s1, n);
    } else if n in s1.pool.configNodes || IsLowPower(n) {
      SleepNodeAccounted(s1, n);
      ExecuteAccounted(SleepNode(s1, n), n);
    }
  }

  lemma OnErrorAccounted(s: State, n: Node)
    requires Accounted(s.queue, s.trace) && HasHead(s, n)
    ensures var r := OnError(s, n); Accounted(r.queue, r.trace)
  {
    var t := Head(s, n);
    if Retrying(t.kind) && t.retries >= MAX_RETRIES {
      RescheduleAccounted(s, n);
    } else {
      ExecuteAccounted(s, n);
    }
  }

  lemma TaskHandlerAccounted(s: State, n: Node, e: EventType, cfg: seq<Kind>)
    requires Inv(s) && Accounted(s.queue, s.trace) && (e.WakeNotify? ==> CallbackOk(cfg))
    requires !Ignored(s, n) ==> HeadFound(Notice(s, n, e, cfg), n)
    ensures var r := TaskHandler(s, n, e, cfg); Accounted(r.queue, r.trace)
  {
    if !Ignored(s, n) {
      NoticeAccounted(s, n, e, cfg);
      NoticeShape(s, n, e, cfg);
      var s1 := Notice(s, n, e, cfg);
      hide Notice;
      if n in s1.queue {
        HandleHeadAccounted(s1, n, e);
      }
    }
  }

  lemma HandleHeadAccounted(s: State, n: Node, e: EventType)
    requires Accounted(s.queue, s.trace) && !s.mode.passive && n in s.queue && QueueOk(s.queue[n])
    ensures var r := HandleHead(s, n, e); Accounted(r.queue, r.trace)
  {
    OnErrorAccounted(s, n);
    OnSuccessAccounted(s, n, e);
    AdvanceAccounted(OnSuccess(s, n, e), n);
  }

  lemma DeliverAccounted(s: State, n: Node)
    requires Inv(s) && n in s.pool.undelivered && Accounted(s.queue, s.trace)
    ensures var r := Step(s, Deliver(n)); Accounted(r.queue, r.trace)
  {
    LookupsSucceed(s, n, ConfigurationTimeout, []);
    TaskHandlerAccounted(s, n, ConfigurationTimeout, []);
    TimeoutAccounted(TaskHandler(s, n, ConfigurationTimeout, []), n);
    hide TaskHandler, ConfigTimeoutHandler;
  }

  lemma TimeoutAccounted(s: State, n: Node)
    requires Accounted(s.queue, s.trace)
    ensures var r := ConfigTimeoutHandler(s, n); Accounted(r.queue, r.trace)
  {
    var r := ConfigTimeoutHandler(s, n);
    assert r.trace == s.trace;
    assert forall m | m in r.queue :: m in s.queue && r.queue[m] == s.queue[m];
  }

  lemma StepAccounted(s: State, l: Label)
    requires Inv(s) && LabelOk(l) && Accounted(s.queue, s.trace)
    ensures var r := Step(s, l); Accounted(r.queue, r.trace)
  {
    hide TaskHandler;
    match l
    case Add(n, k) =>
      ScheduleAccounted(s, n, k);
    case Event(n, e, cfg) =>
      LookupsSucceed(s, n, e, cfg);
      TaskHandlerAccounted(s, n, e, cfg);
    case Deliver(n) =>
      if n in s.pool.undelivered {
        DeliverAccounted(s, n);
      }
    case _ =>
  }

  lemma {:induction false} RunAccounted(mode: Mode, sleepPeriod: map<Node, nat>, ls: seq<Label>)
    requires RunOk(ls)
    ensures var r := RunFrom(mode, sleepPeriod, ls); Accounted(r.queue, r.trace)
    decreases |ls|
  {
    if ls != [] {
      RunAccounted(mode, sleepPeriod, ls[..|ls| - 1]);
      StepAccounted(RunFrom(mode, sleepPeriod, ls[..|ls| - 1]), ls[|ls| - 1]);
    }
  }

  /** In every run a retrying task is sent at most MAX_RETRIES times, and once more for each time
      its node has been woken up since the task was created; this includes tasks moved behind a
      new wake task or queued again by a configuration. */
  lemma RetriesAreBounded(mode: Mode, sleepPeriod: map<Node, nat>, ls: seq<Label>, id: nat, n: Node)
    requires RunOk(ls)
    requires var tr := RunFrom(mode, sleepPeriod, ls).trace; id in tr.owner && tr.owner[id] == n
    ensures var log := RunFrom(mode, sleepPeriod, ls).trace.log;
      Sends(log, id) <= MAX_RETRIES + Wakes(log, id, n)
  {
    RunAccounted(mode, sleepPeriod, ls);
    assert Bounded(RunFrom(mode, sleepPeriod, ls).trace, id);
  }
}
