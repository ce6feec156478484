/** What happens to pending work: it survives the start of a configuration, a node being
    configured keeps some, and a queue whose head keeps succeeding drains. */
module SchedulerProgress {
  import opened Tasks
  import opened SchedulerSpec
  import opened SchedulerLocality
  import opened SchedulerShape
  import opened SchedulerRuns

  // ---- Steps for other nodes

  predicate About(l: Label, n: Node) {
    match l
    case WantSleepTime(_) => false
    case SetListener(_) => true
    case Expire(_) => false
    case _ => l.node == n
  }

  /** Everything the scheduler keeps for `n`. */
  ghost predicate SameNode(s: State, r: State, n: Node) {
    && (n in r.queue <==> n in s.queue)
    && (n in s.queue ==> r.queue[n] == s.queue[n])
    && (n in r.pool.configNodes <==> n in s.pool.configNodes)
    && (n in r.pool.configuring <==> n in s.pool.configuring)
    && (n in r.pool.whitelist <==> n in s.pool.whitelist)
    && SleepPeriod(r, n) == SleepPeriod(s, n)
    && r.mode.passive == s.mode.passive
  }

  lemma ForbidOther(s: State, n: Node, m: Node)
    requires Inv(s) && m != n
    ensures SameNode(s, WhitelistRemove(s, n), m)
  {
    WhitelistRemoveLocal(s, n);
    Elsewhere(s, WhitelistRemove(s, n), n, m);
    hide WhitelistRemove;
    WithoutIs(s.pool.whitelist, n);
  }

  lemma TimeoutOther(s: State, n: Node, m: Node)
    requires QueuesOk(s) && Distinct(s.pool.whitelist) && m != n
    ensures var r := ConfigTimeoutHandler(s, n);
      (m in r.pool.whitelist <==> m in s.pool.whitelist) && r.mode == s.mode
  {
    WithoutIs(s.pool.whitelist, n);
  }

  lemma DeliverOther(s: State, n: Node, m: Node)
    requires Inv(s) && m != n && n in s.pool.undelivered
    ensures SameNode(s, Step(s, Deliver(n)), m)
  {
    DeliverRemoves(s, n);
    Elsewhere(s, Step(s, Deliver(n)), n, m);
    LookupsSucceed(s, n, ConfigurationTimeout, []);
    TaskHandlerQueues(s, n, ConfigurationTimeout, []);
    TimeoutOther(TaskHandler(s, n, ConfigurationTimeout, []), n, m);
  }

  lemma AddOther(s: State, n: Node, k: Kind, m: Node)
    requires Inv(s) && LabelOk(Add(n, k)) && m != n
    ensures SameNode(s, Step(s, Add(n, k)), m)
  {
    ScheduleWork(s, n, k);
    hide Schedule, QueuesOk, PoolOk, TimersOk;
    Elsewhere(s, Schedule(s, n, k), n, m);
  }

  lemma EventOther(s: State, n: Node, e: EventType, cfg: seq<Kind>, m: Node)
    requires Inv(s) && LabelOk(Event(n, e, cfg)) && m != n
    ensures SameNode(s, Step(s, Event(n, e, cfg)), m)
  {
    EventIsHandled(s, n, e, cfg);
    hide Step, TaskHandler, Notice, HeadFound, QueuesOk, PoolOk, TimersOk;
    TaskHandlerQueues(s, n, e, cfg);
    Elsewhere(s, TaskHandler(s, n, e, cfg), n, m);
  }

  /** A step about one node leaves every other node as it was. */
  lemma StepOther(s: State, l: Label, m: Node)
    requires Inv(s) && LabelOk(l) && !About(l, m)
    ensures SameNode(s, Step(s, l), m)
  {
    match l
    case Add(n, k) => AddOther(s, n, k, m);
    case Forbid(n) => ForbidOther(s, n, m);
    case Event(n, e, cfg) => EventOther(s, n, e, cfg, m);
    case Deliver(n) =>
      if n in s.pool.undelivered {
        DeliverOther(s, n, m);
      } else {
        NothingOther(s, m);
      }
    case _ => PermitOther(s, l, m);
    hide WhitelistRemove, TaskHandler, ConfigTimeoutHandler, Schedule, SameNode, QueuesOk, PoolOk, TimersOk;
  }

  lemma NothingOther(s: State, m: Node)
    ensures SameNode(s, s, m)
  {
  }

  lemma PermitOther(s: State, l: Label, m: Node)
    requires Inv(s) && LabelOk(l) && !About(l, m)
    requires l.Permit? || l.Cancel? || l.WantSleepTime? || l.Expire?
    ensures SameNode(s, Step(s, l), m)
  {
    hide QueuesOk, PoolOk, TimersOk;
  }

  /** Only its own two labels change the mode. */
  lemma StepMode(s: State, l: Label)
    requires Inv(s) && LabelOk(l) && !l.WantSleepTime? && !l.SetListener?
    ensures Step(s, l).mode == s.mode
  {
    hide Schedule, TaskHandler, QueuesOk, PoolOk, TimersOk;
    match l
    case Event(n, e, cfg) =>
      LookupsSucceed(s, n, e, cfg);
      TaskHandlerQueues(s, n, e, cfg);
    case Deliver(n) =>
      if n in s.pool.undelivered {
        LookupsSucceed(s, n, ConfigurationTimeout, []);
        TaskHandlerQueues(s, n, ConfigurationTimeout, []);
      }
    case _ =>
  }

  // ---- Work of a node being configured

  /** The event that makes a mains-powered node lose its queue without leaving configuration:
      a timeout of a head that has used up its retries. */
  predicate RunsOut(s: State, l: Label, n: Node) {
    && l.Event? && l.node == n && l.event.TaskTimeout? && !Ignored(s, n) && !IsLowPower(n)
    && HasHead(s, n) && Retrying(Head(s, n).kind) && Head(s, n).retries >= MAX_RETRIES
  }

  lemma NoticeKeepsWork(s: State, n: Node, e: EventType, cfg: seq<Kind>)
    requires Inv(s) && !Ignored(s, n) && CallbackOk(cfg)
    requires n in s.queue && n in s.pool.configuring
    ensures var r := Notice(s, n, e, cfg);
      && n in r.queue && n in r.pool.configuring && n in r.pool.configNodes
      && (!e.WakeNotify? ==> r.queue == s.queue)
  {
    if e == WakeNotify(Legacy) {
      ConfigureShape(s, n, cfg);
    }
  }

  lemma HandleHeadWork(s: State, n: Node, e: EventType)
    requires !s.mode.passive && HasHead(s, n) && QueueOk(s.queue[n]) && n in s.pool.configuring
    requires n in s.pool.configNodes
    ensures var r := HandleHead(s, n, e);
      n in r.pool.configuring && n !in r.queue <==>
      && e.TaskTimeout? && !IsLowPower(n) && Retrying(Head(s, n).kind)
      && Head(s, n).retries >= MAX_RETRIES
  {
    if Succeeds(Head(s, n).kind, e) {
      var s1 := OnSuccess(s, n, e);
      OnSuccessWork(s, n, e);
      OnSuccessShape(s, n, e);
      if !Terminal(Head(s1, n).kind) {
        AdvanceLocal(s1, n);
      }
    } else {
      OnErrorWork(s, n);
    }
  }

  /** A node being configured loses its queued work, and stays in configuration, exactly when a
      mains-powered node's head runs out of retries; or when the application cancels. */
  lemma ConfiguringLosesWork(s: State, l: Label, n: Node)
    requires Inv(s) && LabelOk(l) && n in s.pool.configuring && n in s.queue
    requires l != Cancel(n)
    ensures var r := Step(s, l);
      n in r.pool.configuring && n !in r.queue <==> RunsOut(s, l, n)
  {
    if !About(l, n) {
      StepOther(s, l, n);
    } else {
      hide RunsOut, WhitelistRemove, TaskHandler, ConfigTimeoutHandler, Schedule, QueuesOk, TimersOk;
      match l
      case Add(_, k) => ScheduleLosesNothing(s, n, k);
      case Forbid(_) => WhitelistRemovePool(s, n);
      case Event(_, e, cfg) => EventLosesWork(s, n, e, cfg);
      case Deliver(_) =>
        if n in s.pool.undelivered {
          DeliverRemoves(s, n);
        }
      case _ =>
    }
    if !(l.Event? && l.node == n) {
      assert !RunsOut(s, l, n) by { NoEvent(s, l, n); }
    }
  }

  lemma NoEvent(s: State, l: Label, n: Node)
    requires !(l.Event? && l.node == n)
    ensures !RunsOut(s, l, n)
  {
  }

  lemma ScheduleLosesNothing(s: State, n: Node, k: Kind)
    requires n in s.queue
    ensures n in Schedule(s, n, k).queue
  {
  }

  lemma EventLosesWork(s: State, n: Node, e: EventType, cfg: seq<Kind>)
    requires Inv(s) && LabelOk(Event(n, e, cfg)) && n in s.pool.configuring && n in s.queue
    ensures var r := Step(s, Event(n, e, cfg));
      n in r.pool.configuring && n !in r.queue <==> RunsOut(s, Event(n, e, cfg), n)
  {
    EventIsHandled(s, n, e, cfg);
    hide Step, HandleHead, Notice, PoolOk, TimersOk;
    if !Ignored(s, n) {
      NoticeShape(s, n, e, cfg);
      NoticeLocal(s, n, e, cfg);
      NoticeKeepsWork(s, n, e, cfg);
      HandleHeadWork(Notice(s, n, e, cfg), n, e);
    }
  }

  /** Joining the nodes being configured gives a node work. */
  lemma ConfiguringGetsWork(s: State, l: Label, n: Node)
    requires Inv(s) && LabelOk(l) && n !in s.pool.configuring && n in Step(s, l).pool.configuring
    ensures n in Step(s, l).queue
  {
    if !About(l, n) {
      StepOther(s, l, n);
    } else {
      match l
      case Add(_, k) =>
        ScheduleWork(s, n, k);
      case Forbid(_) =>
        WhitelistRemovePool(s, n);
      case Deliver(_) =>
        if n in s.pool.undelivered {
          DeliverRemoves(s, n);
        }
      case Event(_, e, cfg) =>
        if !Ignored(s, n) {
          NoticeShape(s, n, e, cfg);
          EventGetsWork(s, n, e, cfg);
        }
      case _ =>
    }
  }

  lemma EventGetsWork(s: State, n: Node, e: EventType, cfg: seq<Kind>)
    requires Inv(s) && !Ignored(s, n) && CallbackOk(cfg) && n !in s.pool.configuring
    requires NodeOk(Notice(s, n, e, cfg), n) && HeadFound(Notice(s, n, e, cfg), n)
    ensures var r := TaskHandler(s, n, e, cfg); n in r.pool.configuring ==> n in r.queue
  {
    NoticeJoins(s, n, e, cfg);
    HandleJoins(Notice(s, n, e, cfg), n, e);
    hide Notice, HandleHead, Inv;
  }

  lemma HandleJoins(s: State, n: Node, e: EventType)
    requires HeadFound(s, n) && NodeOk(s, n)
    requires n in s.pool.configuring ==> e.WakeNotify? && n in s.queue && n in s.pool.configNodes
    ensures n in s.queue ==>
              var r := HandleHead(s, n, e); n in r.pool.configuring ==> n in r.queue
  {
    if n in s.queue {
      HandleHeadPool(s, n, e);
      if n in s.pool.configuring {
        HandleHeadWork(s, n, e);
      }
    }
  }

  lemma NoticeJoins(s: State, n: Node, e: EventType, cfg: seq<Kind>)
    requires Inv(s) && !Ignored(s, n) && CallbackOk(cfg) && n !in s.pool.configuring
    ensures var r := Notice(s, n, e, cfg);
      n in r.pool.configuring ==> e.WakeNotify? && n in r.queue && n in r.pool.configNodes
  {
    if e.WakeNotify? && n in NotifyCb(s, n, e.conf, cfg).pool.configuring {
      NotifyJoins(s, n, e.conf, cfg);
    }
  }

  lemma NotifyJoins(s: State, n: Node, conf: NotifyConf, cfg: seq<Kind>)
    requires Inv(s) && !Ignored(s, n) && CallbackOk(cfg) && n !in s.pool.configuring
    requires n in NotifyCb(s, n, conf, cfg).pool.configuring
    ensures n in NotifyCb(s, n, conf, cfg).queue && n in NotifyCb(s, n, conf, cfg).pool.configNodes
  {
    ConfigureWork(s, n, cfg);
    SleepNodeWork(s, n);
    var s1 := s.(pool := EnterConfiguration(s.pool, n));
    if n in s1.pool.configNodes {
      ReconfigureShape(s1, n, cfg);
      ReconfigureLocal(s1, n, cfg);
    }
  }

  /** In every run in which the application cancels nothing, a low-power node being configured
      has queued work. */
  lemma {:induction false} LowPowerNodesKeepWork(mode: Mode, sleepPeriod: map<Node, nat>, ls: seq<Label>, n: Node)
    requires RunOk(ls) && IsLowPower(n) && Cancel(n) !in ls
    requires n in RunFrom(mode, sleepPeriod, ls).pool.configuring
    ensures n in RunFrom(mode, sleepPeriod, ls).queue
    decreases |ls|
  {
    if ls != [] {
      var init, l := ls[..|ls| - 1], ls[|ls| - 1];
      var s := RunFrom(mode, sleepPeriod, init);
      if n in s.pool.configuring {
        LowPowerNodesKeepWork(mode, sleepPeriod, init, n);
        ConfiguringLosesWork(s, l, n);
      } else {
        ConfiguringGetsWork(s, l, n);
      }
    }
  }

  // ---- Starting a configuration keeps pending work

  /** `after` continues `before` with entries none of which is a command sent to a node. */
  ghost predicate Silent(before: seq<Entry>, after: seq<Entry>) {
    && before <= after
    && forall i | |before| <= i < |after| :: !after[i].Sent?
  }

  lemma {:induction false} ScheduleAllSilent(s: State, n: Node, ks: seq<Kind>)
    requires n in s.pool.configNodes
    ensures Silent(s.trace.log, ScheduleAll(s, n, ks).trace.log)
    decreases |ks|
  {
    if ks != [] {
      ScheduleAllSilent(s, n, ks[..|ks| - 1]);
      ScheduleAllWork(s, n, ks[..|ks| - 1]);
    }
  }

  lemma {:induction false} AddAllSilent(s: State, n: Node, ts: seq<Task>)
    requires n in s.pool.configNodes
    ensures Silent(s.trace.log, AddAll(s, n, ts).trace.log)
    decreases |ts|
  {
    if ts != [] {
      AddAllSilent(s, n, ts[..|ts| - 1]);
      AddAllWork(s, n, ts[..|ts| - 1]);
    }
  }

  lemma ReconfigureSilent(s: State, n: Node, cfg: seq<Kind>)
    requires n in s.pool.configNodes
    ensures Silent(s.trace.log, Reconfigure(s, n, cfg).trace.log)
  {
    var s1 := CancelTasks(s, n).(sleepPeriod := s.sleepPeriod[n := 0]);
    ScheduleAllSilent(s1, n, cfg);
    ConfigureWork(s, n, cfg);
    AddAllSilent(Configure(s, n, cfg), n, GetTasks(s, n));
  }

  lemma ReconfigureKeepsTasks(s: State, n: Node, cfg: seq<Kind>)
    requires !s.mode.passive && n in s.pool.configNodes && CallbackOk(cfg)
    ensures GetTasks(Reconfigure(s, n, cfg), n) == CallbackTasks(s.trace.nextId, cfg) + GetTasks(s, n)
  {
    hide Reconfigure;
    ReconfigureShape(s, n, cfg);
    var a, b := CallbackTasks(s.trace.nextId, cfg), GetTasks(s, n);
    if n in s.queue {
      PendingKinds(s.queue[n]);
    }
    assert forall i | 0 <= i < |a| :: a[i].kind == cfg[i] && cfg[i] in cfg;
    PendingAll(a + b);
    PendingConcat([Task(s.trace.nextId + 1, Wake, 0)], a + b);
    assert Pending([Task(s.trace.nextId + 1, Wake, 0)]) == [];
  }

  /** A not-configured notification that starts a configuration keeps the pending tasks, in
      order, behind new tasks of the kinds the callback asked for; one wake task leads the
      queue, it is the only message of the step, and no task is sent. */
  lemma ConfigurationKeepsPendingWork(s: State, n: Node, cfg: seq<Kind>)
    requires Inv(s) && !Ignored(s, n) && CallbackOk(cfg) && n !in s.pool.configuring
    requires n in s.pool.configNodes || |s.pool.configNodes| < MAX_CONFIG_NODES
    ensures var r := Step(s, Event(n, WakeNotify(NotConfigured), cfg));
      var tasks := GetTasks(r, n);
      && n in r.pool.configuring && n in r.pool.configNodes
      && HasHead(r, n) && Head(r, n).kind.Wake? && r.queue[n][1..] == tasks
      && |tasks| == |cfg| + |GetTasks(s, n)|
      && tasks[|cfg|..] == GetTasks(s, n)
      && (forall i | 0 <= i < |cfg| ::
            tasks[i].kind == cfg[i] && tasks[i].retries == 0 && tasks[i].id >= s.trace.nextId)
      && Silent(s.trace.log, r.trace.log)
  {
    var s1 := s.(pool := EnterConfiguration(s.pool, n));
    assert s1.queue == s.queue && s1.trace == s.trace;
    hide Step, Reconfigure, Pending, CallbackTasks, EnterConfiguration, Inv, Silent;
    NotConfiguredStep(s, n, cfg);
    ReconfigureShape(s1, n, cfg);
    ReconfigureLocal(s1, n, cfg);
    ReconfigureKeepsTasks(s1, n, cfg);
    SilentStep(s, s1, n, cfg);
    CallbackFront(s.trace.nextId, cfg, GetTasks(s, n));
  }

  lemma SilentStep(s: State, s1: State, n: Node, cfg: seq<Kind>)
    requires s1 == s.(pool := s1.pool) && !s.mode.passive && n in s1.pool.configNodes && CallbackOk(cfg)
    ensures var r := Reconfigure(s1, n, cfg); Silent(s.trace.log, r.trace.log + [Signal(Wake, n)])
  {
    hide Reconfigure;
    ReconfigureSilent(s1, n, cfg);
  }

  /** The callback's tasks, and behind them the pending ones. */
  lemma CallbackFront(id: nat, cfg: seq<Kind>, pending: seq<Task>)
    ensures var tasks := CallbackTasks(id, cfg) + pending;
      && |tasks| == |cfg| + |pending| && tasks[|cfg|..] == pending
      && forall i | 0 <= i < |cfg| :: tasks[i].kind == cfg[i] && tasks[i].retries == 0 && tasks[i].id >= id
  {
  }

  lemma NotConfiguredStep(s: State, n: Node, cfg: seq<Kind>)
    requires Inv(s) && !Ignored(s, n) && CallbackOk(cfg) && n !in s.pool.configuring
    requires n in s.pool.configNodes || |s.pool.configNodes| < MAX_CONFIG_NODES
    ensures var s1 := Reconfigure(s.(pool := EnterConfiguration(s.pool, n)), n, cfg);
      && n in s1.pool.configNodes
      && Step(s, Event(n, WakeNotify(NotConfigured), cfg)) ==
           Note(s1.(pool := RestartTimer(s1.pool, n)), Signal(Wake, n))
  {
    var e := WakeNotify(NotConfigured);
    NoticeShape(s, n, e, cfg);
    EventIsHandled(s, n, e, cfg);
    hide Step, QueuesOk, TimersOk;
    var s1 := s.(pool := EnterConfiguration(s.pool, n));
    ReconfigureShape(s1, n, cfg);
    ReconfigureLocal(s1, n, cfg);
    hide CallbackTasks, GetTasks, Reconfigure;
    var s2 := Notice(s, n, e, cfg);
    assert HandleHead(s2, n, e) == Note(s2, Signal(Wake, n));
  }

  // ---- Draining

  predicate HasTerminal(q: seq<Task>) {
    exists t | t in q :: Terminal(t.kind)
  }

  /** Each task is worth one event, and two when its success queues another. */
  function Weight(q: seq<Task>): nat {
    if q == [] then 0 else (if q[0].kind.Ota? then 2 else 1) + Weight(q[1..])
  }

  /** The events a queue still needs: three more when nothing in it ends the conversation. */
  function Rank(s: State, n: Node): nat {
    if n !in s.queue then 0 else Weight(s.queue[n]) + if HasTerminal(s.queue[n]) then 0 else 3
  }

  lemma {:induction false} WeightAppend(q: seq<Task>, t: Task)
    ensures Weight(q + [t]) == Weight(q) + if t.kind.Ota? then 2 else 1
  {
    if q == [] {
      assert q + [t] == [t];
    } else {
      assert (q + [t])[1..] == q[1..] + [t];
      WeightAppend(q[1..], t);
    }
  }

  lemma {:induction false} WeightPlain(q: seq<Task>)
    requires forall t | t in q :: !t.kind.Ota?
    ensures Weight(q) == |q|
  {
    if q != [] {
      WeightPlain(q[1..]);
    }
  }

  /** Putting a node to sleep when its queue has run empty takes at most three more tasks, the
      last of which ends the conversation. */
  lemma SleepNodeRank(s: State, n: Node)
    requires !s.mode.passive && n in s.queue && s.queue[n] == []
    ensures Rank(SleepNode(s, n), n) <= 3
  {
    var q := SleepNode(s, n).queue[n];
    if IsLowPower(n) && SleepPeriod(s, n) != s.mode.sleepTime {
      SetSleepTimeTasks(s, n);
    }
    assert Terminal(q[|q| - 1].kind);
    WeightPlain(q);
  }

  lemma SetSleepTimeTasks(s: State, n: Node)
    requires !s.mode.passive && n in s.queue && s.queue[n] == []
    ensures var q := SetSleepTime(s, n).queue[n];
      1 <= |q| <= 2 && forall t | t in q :: !t.kind.Ota? && !t.kind.Wake?
  {
    if s.mode.legacy && n !in s.pool.configNodes {
      ScheduleShape(s, n, DeleteOp(TASK_OP_CONF));
      ScheduleShape(Schedule(s, n, DeleteOp(TASK_OP_CONF)), n, New(TASK_OP_CONF, s.mode.sleepTime));
    } else if s.mode.legacy {
      ScheduleShape(s, n, New(TASK_OP_CONF, s.mode.sleepTime));
    } else {
      ScheduleShape(s, n, Change(TASK_OP_CONF, s.mode.sleepTime));
    }
  }

  lemma ExecuteRank(s: State, n: Node)
    requires HasHead(s, n)
    ensures Rank(Execute(s, n), n) == Rank(s, n)
  {
    var q, r := s.queue[n], Execute(s, n).queue[n];
    assert r[1..] == q[1..];
    if HasTerminal(q) {
      var i :| 0 <= i < |q| && Terminal(q[i].kind);
      assert r[i].kind == q[i].kind && r[i] in r;
    }
    if HasTerminal(r) {
      var i :| 0 <= i < |r| && Terminal(r[i].kind);
      assert r[i].kind == q[i].kind && q[i] in q;
    }
  }

  lemma AdvanceRank(s: State, n: Node)
    requires !s.mode.passive && HasHead(s, n)
    ensures var r := Advance(s, n);
      && (Rank(r, n) < Rank(s, n) || n !in r.queue)
      && (Head(s, n).kind.Ota? ==> Rank(r, n) + 2 <= Rank(s, n) || n !in r.queue)
  {
    var q := s.queue[n];
    var s1 := SetQueue(s, n, q[1..]);
    if !Terminal(q[0].kind) {
      assert q == [q[0]] + q[1..];
      assert HasTerminal(q) <==> HasTerminal(q[1..]);
      if s1.queue[n] != [] {
        ExecuteRank(s1, n);
      } else if n in s1.pool.configNodes || IsLowPower(n) {
        SleepNodeRank(s1, n);
        ExecuteRank(SleepNode(s1, n), n);
      }
    }
  }

  lemma OnSuccessRank(s: State, n: Node, e: EventType)
    requires !s.mode.passive && n in s.queue && QueueOk(s.queue[n])
    ensures Rank(OnSuccess(s, n, e), n) <= Rank(s, n) + if Head(s, n).kind.Ota? then 1 else 0
  {
    OnSuccessShape(s, n, e);
    var q := s.queue[n];
    WeightAppend(q, Fresh(s, New(TASK_OP_UPDATE, 0)));
    var r := OnSuccess(s, n, e).queue[n];
    assert HasTerminal(q) ==> HasTerminal(r) by {
      assert forall t | t in q :: t in r;
    }
    assert q + [] == q;
  }

  /** The event is a success of the node's head. */
  ghost predicate Advances(s: State, n: Node, l: Label) {
    && l.Event? && l.node == n && !Ignored(s, n) && HasHead(s, n)
    && Succeeds(Head(s, n).kind, l.event)
  }

  lemma SuccessDrains(s: State, n: Node, l: Label)
    requires Inv(s) && LabelOk(l) && Advances(s, n, l)
    ensures var r := Step(s, l);
      && Rank(r, n) < Rank(s, n)
      && (n !in r.queue ==> n !in r.pool.configNodes && n !in r.pool.configuring)
      && !Ignored(r, n)
  {
    SuccessStep(s, n, l);
    StepKeepsInv(s, l);
    hide Step, QueuesOk, PoolOk, TimersOk;
    var e := l.event;
    var s1 := Notice(s, n, e, l.cfg);
    var s2 := OnSuccess(s1, n, e);
    OnSuccessRank(s1, n, e);
    OnSuccessShape(s1, n, e);
    OnSuccessWork(s1, n, e);
    AdvanceRank(s2, n);
    AdvanceLeaves(s2, n);
  }

  lemma CallbacksQuiet(s: State, n: Node, e: EventType, cfg: seq<Kind>)
    requires !s.mode.passive && !e.WakeNotify?
    ensures var r := Callbacks(s, n, e, cfg);
      && r.queue == s.queue && r.sleepPeriod == s.sleepPeriod && r.mode == s.mode
      && r.pool.whitelist == s.pool.whitelist && r.pool.configuring == s.pool.configuring
      && s.pool.configNodes.Keys <= r.pool.configNodes.Keys
  {
    hide NotifyCb;
  }

  /** An event that is no notification leaves the queue to its head. */
  lemma NoticeQuiet(s: State, n: Node, e: EventType, cfg: seq<Kind>)
    requires !Ignored(s, n) && !e.WakeNotify? && s.pool.configuring <= s.pool.configNodes.Keys
    ensures var s1 := Notice(s, n, e, cfg);
      && s1.queue == s.queue && s1.sleepPeriod == s.sleepPeriod && s1.mode == s.mode
      && s1.pool.whitelist == s.pool.whitelist
      && (n in s1.pool.configuring ==> n in s1.pool.configNodes)
  {
    CallbacksQuiet(s, n, e, cfg);
    hide Callbacks;
  }

  lemma SuccessStep(s: State, n: Node, l: Label)
    requires Inv(s) && LabelOk(l) && Advances(s, n, l)
    ensures var s1 := Notice(s, n, l.event, l.cfg);
      && s1.queue == s.queue && s1.sleepPeriod == s.sleepPeriod && s1.mode == s.mode && !Ignored(s1, n)
      && (n in s1.pool.configuring ==> n in s1.pool.configNodes)
      && Step(s, l) == Advance(OnSuccess(s1, n, l.event), n)
  {
    hide Notice, OnSuccess, Advance, QueuesOk, TimersOk, CallbackOk;
    assert !l.event.WakeNotify?;
    NoticeQuiet(s, n, l.event, l.cfg);
    EventIsHandled(s, n, l.event, l.cfg);
    hide PoolOk, Step;
    SucceedingHead(Notice(s, n, l.event, l.cfg), n, l.event);
  }

  lemma SucceedingHead(s: State, n: Node, e: EventType)
    requires !s.mode.passive && HasHead(s, n) && Ready(Head(s, n)) && Succeeds(Head(s, n).kind, e)
    ensures HandleHead(s, n, e) == Advance(OnSuccess(s, n, e), n)
  {
    hide OnSuccess, Advance;
  }

  lemma AdvanceLeaves(s: State, n: Node)
    requires !s.mode.passive && HasHead(s, n)
    requires n in s.pool.configuring ==> n in s.pool.configNodes
    ensures var r := Advance(s, n);
      && (n !in r.queue ==> n !in r.pool.configNodes && n !in r.pool.configuring)
      && r.mode == s.mode && r.pool.whitelist == s.pool.whitelist
  {
    AdvanceLocal(s, n);
  }

  /** Every step about `n` is a success event of its head; the other nodes do as they like. */
  ghost predicate Draining(s: State, n: Node, ls: seq<Label>)
    requires Inv(s) && RunOk(ls)
  {
    forall i | 0 <= i < |ls| :: About(ls[i], n) ==> Advances(Run(s, ls[..i]), n, ls[i])
  }

  function Count(ls: seq<Label>, n: Node): nat
    decreases |ls|
  {
    if ls == [] then 0 else Count(ls[..|ls| - 1], n) + if About(ls[|ls| - 1], n) then 1 else 0
  }

  lemma {:induction false} DrainRank(s: State, n: Node, ls: seq<Label>)
    requires Inv(s) && RunOk(ls) && Draining(s, n, ls) && !Ignored(s, n) && n in s.queue
    ensures var r := Run(s, ls);
      && Count(ls, n) + Rank(r, n) <= Rank(s, n)
      && (n !in r.queue ==> n !in r.pool.configNodes && n !in r.pool.configuring)
      && !Ignored(r, n)
    decreases |ls|
  {
    if ls != [] {
      var init, l := ls[..|ls| - 1], ls[|ls| - 1];
      assert forall i | 0 <= i < |init| :: init[i] == ls[i] && init[..i] == ls[..i];
      DrainRank(s, n, init);
      if About(l, n) {
        SuccessDrains(Run(s, init), n, l);
      } else {
        StepOther(Run(s, init), l, n);
      }
    }
  }

  /** A queue of tasks none of which queues another empties within three events more than it has
      tasks, however the events of other nodes are interleaved; the node then leaves the queue
      and both configuration tables. */
  lemma QueuesDrain(s: State, n: Node, ls: seq<Label>)
    requires Inv(s) && RunOk(ls) && Draining(s, n, ls) && !Ignored(s, n) && n in s.queue
    requires forall t | t in s.queue[n] :: !t.kind.Ota?
    ensures Count(ls, n) <= |s.queue[n]| + 3
    ensures var r := Run(s, ls);
      Count(ls, n) == |s.queue[n]| + 3 || n !in r.queue ==>
        n !in r.queue && n !in r.pool.configNodes && n !in r.pool.configuring
  {
    DrainRank(s, n, ls);
    WeightPlain(s.queue[n]);
    var r := Run(s, ls);
    if n in r.queue {
      assert Weight(r.queue[n]) >= 1;
    }
  }

  function SuccessOf(k: Kind): EventType {
    match k
    case Wake => WakeAckWait
    case Sleep => WakeAckSleep
    case Alive => WakeAckAlive
    case Reset => NodeReset
    case New(_, _) => TaskAck
    case Change(_, _) => TaskChangeAck
    case DeleteOp(_) => TaskDeleteOpAck
    case Ota(ack) => OtaAck(ack, 0)
    case Other(ack) => OtherAck(ack)
  }

  lemma RunSnoc(s: State, ls: seq<Label>, l: Label)
    requires Inv(s) && RunOk(ls) && LabelOk(l)
    ensures RunOk(ls + [l]) && Run(s, ls + [l]) == Step(Run(s, ls), l)
  {
    hide Step, Inv, LabelOk;
    assert (ls + [l])[..|ls|] == ls;
  }

  lemma RunOne(s: State, l: Label)
    requires Inv(s) && LabelOk(l)
    ensures RunOk([l] + []) && Run(s, [l] + []) == Step(s, l)
  {
    hide Step, Inv, LabelOk;
    RunSnoc(s, [], l);
    assert [l] + [] == [] + [l];
  }

  lemma RunNone(s: State)
    requires Inv(s)
    ensures RunOk([]) && Run(s, []) == s
  {
    hide Inv, Step;
  }

  /** Two runs to one state go on to one state. */
  lemma RunAhead(s: State, xs: seq<Label>, s1: State, ys: seq<Label>, last: Label)
    requires Inv(s) && Inv(s1) && RunOk(xs) && RunOk(ys) && LabelOk(last) && Run(s, xs) == Run(s1, ys)
    ensures RunOk(xs + [last]) && RunOk(ys + [last]) && Run(s, xs + [last]) == Run(s1, ys + [last])
  {
    hide Run, Step, Inv, LabelOk, RunOk;
    RunSnoc(s, xs, last);
    RunSnoc(s1, ys, last);
  }

  lemma {:induction false} RunFront(s: State, l: Label, s1: State, ls: seq<Label>)
    requires Inv(s) && LabelOk(l) && RunOk(ls) && s1 == Step(s, l) && Inv(s1)
    ensures RunOk([l] + ls) && Run(s, [l] + ls) == Run(s1, ls)
    decreases |ls|
  {
    hide Run, Step, Inv, LabelOk;
    if ls == [] {
      RunOne(s, l);
      RunNone(s1);
    } else {
      var init, last := ls[..|ls| - 1], ls[|ls| - 1];
      RunFront(s, l, s1, init);
      RunAhead(s, [l] + init, s1, init, last);
      assert init + [last] == ls && [l] + init + [last] == [l] + ls;
    }
  }

  lemma DrainingFront(s: State, n: Node, l: Label, s1: State, ls: seq<Label>)
    requires Inv(s) && LabelOk(l) && RunOk(ls) && s1 == Step(s, l) && Inv(s1)
    requires Advances(s, n, l) && Draining(s1, n, ls)
    ensures RunOk([l] + ls) && Draining(s, n, [l] + ls)
  {
    hide Step, QueuesOk, PoolOk, TimersOk;
    var all := [l] + ls;
    forall i | 0 <= i < |all| && About(all[i], n) ensures Advances(Run(s, all[..i]), n, all[i]) {
      if i == 0 {
        assert all[..0] == [];
      } else {
        assert all[..i] == [l] + ls[..i - 1];
        RunFront(s, l, s1, ls[..i - 1]);
        assert ls[i - 1] == all[i];
      }
    }
  }

  /** Draining is always possible: some run of success events of the node, no longer than the
      rank, empties its queue. */
  lemma {:induction false} DrainingRunExists(s: State, n: Node) returns (ls: seq<Label>)
    requires Inv(s) && !Ignored(s, n)
    ensures RunOk(ls) && Draining(s, n, ls) && |ls| <= Rank(s, n)
    ensures n !in Run(s, ls).queue
    decreases Rank(s, n)
  {
    hide Step, PoolOk, TimersOk;
    ls := [];
    if n in s.queue {
      var l := Event(n, SuccessOf(Head(s, n).kind), [Other(0)]);
      SuccessDrains(s, n, l);
      StepKeepsInv(s, l);
      var s1 := Step(s, l);
      var rest := DrainingRunExists(s1, n);
      ls := [l] + rest;
      RunFront(s, l, s1, rest);
      DrainingFront(s, n, l, s1, rest);
    }
  }
}
