/** What each scheduler function leaves alone: work for one node never touches the queue,
    configuration slot or sleep time of another. */
module SchedulerLocality {
  import opened Tasks
  import opened SchedulerSpec

  /** The part of the state that belongs to the nodes other than `n`. */
  datatype Rest = Rest(queue: map<Node, seq<Task>>, configNodes: map<Node, nat>,
                       configuring: set<Node>, sleepPeriod: map<Node, nat>)

  ghost function Others(s: State, n: Node): Rest {
    Rest(s.queue - {n}, s.pool.configNodes - {n}, s.pool.configuring - {n}, s.sleepPeriod - {n})
  }

  /** `r` results from `s` by work on the queue of `n` alone. */
  ghost predicate QueueWork(s: State, r: State, n: Node) {
    && r.mode == s.mode && r.pool == s.pool
    && r.queue - {n} == s.queue - {n}
    && r.sleepPeriod - {n} == s.sleepPeriod - {n}
  }

  lemma Elsewhere(s: State, r: State, n: Node, m: Node)
    requires Others(r, n) == Others(s, n) && m != n
    ensures m in r.queue <==> m in s.queue
    ensures m in s.queue ==> r.queue[m] == s.queue[m]
    ensures m in r.pool.configNodes <==> m in s.pool.configNodes
    ensures m in s.pool.configNodes ==> r.pool.configNodes[m] == s.pool.configNodes[m]
    ensures m in r.pool.configuring <==> m in s.pool.configuring
    ensures SleepPeriod(r, m) == SleepPeriod(s, m)
  {
    var x, y := Others(r, n), Others(s, n);
    assert m in r.queue <==> m in x.queue;
    assert m in s.queue <==> m in y.queue;
    assert m in y.queue ==> y.queue[m] == s.queue[m] && x.queue[m] == r.queue[m];
    assert m in r.pool.configNodes <==> m in x.configNodes;
    assert m in s.pool.configNodes <==> m in y.configNodes;
    assert m in y.configNodes ==> y.configNodes[m] == s.pool.configNodes[m];
    assert m in x.configNodes ==> x.configNodes[m] == r.pool.configNodes[m];
    assert m in r.pool.configuring <==> m in x.configuring;
    assert m in s.pool.configuring <==> m in y.configuring;
    assert m in r.sleepPeriod <==> m in x.sleepPeriod;
    assert m in s.sleepPeriod <==> m in y.sleepPeriod;
    assert m in y.sleepPeriod ==> y.sleepPeriod[m] == s.sleepPeriod[m];
    assert m in x.sleepPeriod ==> x.sleepPeriod[m] == r.sleepPeriod[m];
  }

  lemma SetQueueWork(s: State, n: Node, q: seq<Task>)
    ensures QueueWork(s, SetQueue(s, n, q), n)
  {
    assert SetQueue(s, n, q).queue - {n} == s.queue - {n};
  }

  lemma CancelWork(s: State, n: Node)
    ensures QueueWork(s, CancelTasks(s, n), n)
  {
    assert s.queue - {n} - {n} == s.queue - {n};
  }

  lemma SleepPeriodWork(s: State, n: Node, period: nat)
    ensures QueueWork(s, s.(sleepPeriod := s.sleepPeriod[n := period]), n)
  {
    assert s.sleepPeriod[n := period] - {n} == s.sleepPeriod - {n};
  }

  lemma ExecuteWork(s: State, n: Node)
    requires HasHead(s, n)
    ensures QueueWork(s, Execute(s, n), n)
  {
    var t := Head(s, n);
    SetQueueWork(s, n, [t.(retries := t.retries + 1)] + s.queue[n][1..]);
  }

  lemma AddTaskWork(s: State, n: Node, t: Task)
    ensures QueueWork(s, AddTask(s, n, t), n)
  {
    if n in s.queue {
      SetQueueWork(s, n, s.queue[n] + [t]);
    } else {
      SetQueueWork(Create(s, n), n, [Fresh(s, Wake), t]);
      SetQueueWork(s, n, [t]);
      ExecuteWork(SetQueue(s, n, [t]), n);
    }
  }

  lemma ScheduleWork(s: State, n: Node, k: Kind)
    ensures QueueWork(s, Schedule(s, n, k), n)
  {
    AddTaskWork(Create(s, n), n, Fresh(s, k));
  }

  lemma {:induction false} ScheduleAllWork(s: State, n: Node, ks: seq<Kind>)
    ensures QueueWork(s, ScheduleAll(s, n, ks), n)
    decreases |ks|
  {
    if ks != [] {
      ScheduleAllWork(s, n, ks[..|ks| - 1]);
      ScheduleWork(ScheduleAll(s, n, ks[..|ks| - 1]), n, ks[|ks| - 1]);
    }
  }

  lemma {:induction false} AddAllWork(s: State, n: Node, ts: seq<Task>)
    ensures QueueWork(s, AddAll(s, n, ts), n)
    decreases |ts|
  {
    if ts != [] {
      AddAllWork(s, n, ts[..|ts| - 1]);
      AddTaskWork(AddAll(s, n, ts[..|ts| - 1]), n, ts[|ts| - 1]);
    }
  }

  lemma RescheduleWork(s: State, n: Node)
    requires HasHead(s, n)
    ensures QueueWork(s, RescheduleTasks(s, n), n)
  {
    CancelWork(s, n);
    SetQueueWork(Create(s, n), n, [Fresh(s, Wake)] + s.queue[n]);
  }

  lemma SetSleepTimeWork(s: State, n: Node)
    ensures QueueWork(s, SetSleepTime(s, n), n)
  {
    ScheduleWork(s, n, DeleteOp(TASK_OP_CONF));
    var s1 := Schedule(s, n, DeleteOp(TASK_OP_CONF));
    ScheduleWork(s1, n, New(TASK_OP_CONF, s.mode.sleepTime));
    ScheduleWork(s, n, New(TASK_OP_CONF, s.mode.sleepTime));
    ScheduleWork(s, n, Change(TASK_OP_CONF, s.mode.sleepTime));
  }

  lemma SleepNodeWork(s: State, n: Node)
    requires !s.mode.passive
    ensures QueueWork(s, SleepNode(s, n), n)
  {
    var s1 := SetSleepTime(s, n);
    SetSleepTimeWork(s, n);
    SetQueueWork(Create(s1, n), n, s1.queue[n] + [Fresh(s1, Sleep)]);
    SetQueueWork(Create(s, n), n, [Fresh(s, Sleep)]);
    SetQueueWork(Create(s, n), n, [Fresh(s, Alive)]);
  }

  lemma ConfigureWork(s: State, n: Node, cfg: seq<Kind>)
    ensures QueueWork(s, Configure(s, n, cfg), n)
  {
    var s1 := CancelTasks(s, n);
    CancelWork(s, n);
    SleepPeriodWork(s1, n, 0);
    ScheduleAllWork(s1.(sleepPeriod := s1.sleepPeriod[n := 0]), n, cfg);
  }

  lemma OnSuccessWork(s: State, n: Node, e: EventType)
    requires HasHead(s, n) && Ready(Head(s, n))
    ensures QueueWork(s, OnSuccess(s, n, e), n)
  {
    match Head(s, n).kind
    case New(_, period) => SleepPeriodWork(s, n, period);
    case Change(_, period) => SleepPeriodWork(s, n, period);
    case Ota(_) => ScheduleWork(s, n, New(TASK_OP_UPDATE, 0));
    case _ =>
  }

  lemma OnErrorWork(s: State, n: Node)
    requires HasHead(s, n)
    ensures QueueWork(s, OnError(s, n), n)
  {
    RescheduleWork(s, n);
    ExecuteWork(s, n);
  }

  /** The slots of the nodes other than `n`. */
  ghost predicate SlotWork(p: Pool, r: Pool, n: Node) {
    && r.configNodes - {n} == p.configNodes - {n}
    && r.configuring - {n} == p.configuring - {n}
    && r.whitelist == p.whitelist
  }

  lemma TimerLocal(p: Pool, n: Node)
    ensures SlotWork(p, EnterConfiguration(p, n), n)
    ensures n in p.configNodes ==> SlotWork(p, RestartTimer(p, n), n)
    ensures SlotWork(p, LeaveConfiguration(p, n), n)
    ensures SlotWork(p, CleanPool(p, n), n)
  {
    assert p.configNodes[n := p.nextTimer] - {n} == p.configNodes - {n};
    assert p.configNodes - {n} - {n} == p.configNodes - {n};
    assert p.configuring - {n} - {n} == p.configuring - {n};
  }

  lemma WakeResetLocal(s: State, n: Node)
    ensures Others(WakeResetCb(s, n), n) == Others(s, n)
  {
    TimerLocal(s.pool, n);
  }

  lemma ReconfigureLocal(s: State, n: Node, cfg: seq<Kind>)
    ensures Others(Reconfigure(s, n, cfg), n) == Others(s, n)
    ensures Reconfigure(s, n, cfg).mode == s.mode
    ensures Reconfigure(s, n, cfg).pool == s.pool.(configuring := s.pool.configuring + {n})
  {
    ConfigureWork(s, n, cfg);
    AddAllWork(Configure(s, n, cfg), n, GetTasks(s, n));
    assert s.pool.configuring + {n} - {n} == s.pool.configuring - {n};
  }

  lemma NotifyLocal(s: State, n: Node, conf: NotifyConf, cfg: seq<Kind>)
    requires !s.mode.passive
    ensures Others(NotifyCb(s, n, conf, cfg), n) == Others(s, n)
    ensures NotifyCb(s, n, conf, cfg).mode == s.mode
    ensures NotifyCb(s, n, conf, cfg).pool.whitelist == s.pool.whitelist
  {
    match conf {
      case Legacy =>
        ConfigureWork(s, n, cfg);
        SleepNodeWork(s, n);
      case Configured =>
        SleepNodeWork(s, n);
      case NotConfigured =>
        TimerLocal(s.pool, n);
        ReconfigureLocal(s.(pool := EnterConfiguration(s.pool, n)), n, cfg);
    }
  }

  lemma NoticeLocal(s: State, n: Node, e: EventType, cfg: seq<Kind>)
    requires !s.mode.passive
    ensures Others(Notice(s, n, e, cfg), n) == Others(s, n)
    ensures Notice(s, n, e, cfg).mode == s.mode
    ensures Notice(s, n, e, cfg).pool.whitelist == s.pool.whitelist
  {
    if e.WakeNotify? {
      NotifyLocal(s, n, e.conf, cfg);
    } else if e.WakeReset? {
      WakeResetLocal(s, n);
    }
    TimerLocal(Callbacks(s, n, e, cfg).pool, n);
  }

  lemma AdvanceLocal(s: State, n: Node)
    requires !s.mode.passive && HasHead(s, n)
    ensures Others(Advance(s, n), n) == Others(s, n)
    ensures Advance(s, n).mode == s.mode && Advance(s, n).pool.whitelist == s.pool.whitelist
    ensures !Terminal(Head(s, n).kind) ==> QueueWork(s, Advance(s, n), n)
  {
    var s1 := SetQueue(s, n, s.queue[n][1..]);
    SetQueueWork(s, n, s.queue[n][1..]);
    if Terminal(Head(s, n).kind) {
      TimerLocal(s1.pool, n);
      CancelWork(s1.(pool := LeaveConfiguration(s1.pool, n)), n);
    } else if s1.queue[n] != [] {
      ExecuteWork(s1, n);
    } else if n in s1.pool.configNodes || IsLowPower(n) {
      SleepNodeWork(s1, n);
      ExecuteWork(SleepNode(s1, n), n);
    } else {
      CancelWork(s1, n);
    }
  }

  lemma HandleHeadLocal(s: State, n: Node, e: EventType)
    requires !s.mode.passive && HasHead(s, n) && Ready(Head(s, n))
    ensures Others(HandleHead(s, n, e), n) == Others(s, n)
    ensures HandleHead(s, n, e).mode == s.mode
    ensures HandleHead(s, n, e).pool.whitelist == s.pool.whitelist
  {
    if Succeeds(Head(s, n).kind, e) {
      OnSuccessWork(s, n, e);
      AdvanceLocal(OnSuccess(s, n, e), n);
    } else {
      OnErrorWork(s, n);
    }
  }

  lemma CleanLocal(s: State, n: Node)
    ensures Others(CleanTasks(s, n), n) == Others(s, n)
  {
    CancelWork(s, n);
    TimerLocal(s.pool, n);
  }

  lemma WhitelistRemoveLocal(s: State, n: Node)
    ensures var r := WhitelistRemove(s, n);
      && Others(r, n) == Others(s, n) && r.mode == s.mode
      && (r.pool.whitelist == s.pool.whitelist || r.pool.whitelist == Without(s.pool.whitelist, n))
  {
    CleanLocal(s, n);
  }

  lemma ConfigTimeoutLocal(s: State, n: Node)
    ensures Others(ConfigTimeoutHandler(s, n), n) == Others(s, n)
  {
    WhitelistRemoveLocal(s, n);
    var s1 := WhitelistRemove(s, n);
    hide WhitelistRemove;
    CancelWork(s1, n);
    assert s1.pool.configNodes - {n} - {n} == s1.pool.configNodes - {n};
    assert s1.pool.configuring - {n} - {n} == s1.pool.configuring - {n};
  }
}
