/** What the scheduler does to the sleep time of a node: it is known at any time which one a node will
    use when its work is done, and for a low-power node that is put to sleep it is the one the
    gateway wants. */
module SchedulerSleep {
  import opened Tasks
  import opened SchedulerSpec
  import opened SchedulerLocality
  import opened SchedulerShape
  import opened SchedulerRuns
  import opened SchedulerProgress

  /** The sleep time a node is known to use after the success of a task. */
  function Learn(period: nat, k: Kind): nat {
    match k
    case New(op, p) => if op == TASK_OP_CONF then p else period
    case Change(op, p) => if op == TASK_OP_CONF then p else period
    case _ => period
  }

  /** And after the success of the tasks of a queue, up to the first that ends the conversation. A
      low-power node whose queue runs empty is put to sleep with the wanted time. */
  function Final(lowPower: bool, period: nat, q: seq<Task>, wanted: nat): nat
    decreases |q|
  {
    if q == [] then if lowPower then wanted else period
    else if Terminal(q[0].kind) then period
    else Final(lowPower, Learn(period, q[0].kind), q[1..], wanted)
  }

  /** The sleep time of the node once its queue has drained. */
  function Outcome(s: State, n: Node): nat {
    if n in s.queue then Final(IsLowPower(n), SleepPeriod(s, n), s.queue[n], s.mode.sleepTime)
    else SleepPeriod(s, n)
  }

  lemma FinalStep(lowPower: bool, period: nat, t: Task, q: seq<Task>, wanted: nat)
    ensures Final(lowPower, period, [t] + q, wanted) ==
              if Terminal(t.kind) then period else Final(lowPower, Learn(period, t.kind), q, wanted)
  {
    assert ([t] + q)[1..] == q;
  }

  /** A task behind the others that tells the node no sleep time. */
  lemma {:induction false} FinalAppend(lowPower: bool, period: nat, q: seq<Task>, t: Task, wanted: nat)
    requires !Terminal(t.kind) && forall p :: Learn(p, t.kind) == p
    ensures Final(lowPower, period, q + [t], wanted) == Final(lowPower, period, q, wanted)
    decreases |q|
  {
    if q == [] {
      assert q + [t] == [t] + [];
      FinalStep(lowPower, period, t, [], wanted);
    } else {
      assert (q + [t])[1..] == q[1..] + [t];
      FinalAppend(lowPower, Learn(period, q[0].kind), q[1..], t, wanted);
    }
  }

  // ---- Putting a node to sleep

  /** Nothing is queued for the node: it has no queue, or its queue has just run empty. */
  predicate Quiet(s: State, n: Node) {
    n in s.queue ==> s.queue[n] == []
  }

  /** Once the tasks that put a low-power node to sleep have succeeded, it uses the wanted time; a
      mains-powered node keeps the one it has. */
  lemma SleepNodeOutcome(s: State, n: Node)
    requires !s.mode.passive && Quiet(s, n)
    ensures var r := SleepNode(s, n);
      && r.mode == s.mode && SleepPeriod(r, n) == SleepPeriod(s, n)
      && Outcome(r, n) == if IsLowPower(n) then s.mode.sleepTime else SleepPeriod(s, n)
  {
    if IsLowPower(n) && SleepPeriod(s, n) != s.mode.sleepTime {
      PlanTasks(s, n);
      hide SleepNode, SetSleepTime;
      PlanEnds(s, n, SleepNode(s, n).queue[n]);
    }
  }

  /** The tasks for a node that is known to use another sleep time: in legacy mode a delete, unless
      the node holds a slot, and a new task; otherwise a change. A wake task goes first when the
      node has no queue, and a sleep task last. */
  predicate IsPlan(s: State, n: Node, q: seq<Task>) {
    var wanted := s.mode.sleepTime;
    var w := if n in s.queue then 0 else 1;
    && (w == 1 ==> q != [] && q[0].kind.Wake?)
    && if s.mode.legacy && n !in s.pool.configNodes then
         && |q| == w + 3 && q[w].kind == DeleteOp(TASK_OP_CONF)
         && q[w + 1].kind == New(TASK_OP_CONF, wanted) && q[w + 2].kind.Sleep?
       else
         && |q| == w + 2 && q[w + 1].kind.Sleep?
         && q[w].kind == (if s.mode.legacy then New(TASK_OP_CONF, wanted) else Change(TASK_OP_CONF, wanted))
  }

  lemma PlanTasks(s: State, n: Node)
    requires !s.mode.passive && IsLowPower(n) && Quiet(s, n)
    requires SleepPeriod(s, n) != s.mode.sleepTime
    ensures var r := SleepNode(s, n);
      IsPlan(s, n, r.queue[n]) && SleepPeriod(r, n) == SleepPeriod(s, n) && r.mode == s.mode
  {
    var wanted := s.mode.sleepTime;
    var k := if s.mode.legacy then New(TASK_OP_CONF, wanted) else Change(TASK_OP_CONF, wanted);
    if s.mode.legacy && n !in s.pool.configNodes {
      FirstOf(s, n, DeleteOp(TASK_OP_CONF));
      ScheduleShape(Schedule(s, n, DeleteOp(TASK_OP_CONF)), n, k);
    } else {
      FirstOf(s, n, k);
    }
    hide Schedule, AddTask;
  }

  /** The first task of a low-power node waits behind a wake task. */
  lemma FirstOf(s: State, n: Node, k: Kind)
    requires !s.mode.passive && IsLowPower(n) && Quiet(s, n) && !k.Wake?
    ensures var r := Schedule(s, n, k); var q := r.queue[n];
      && r.mode == s.mode && r.pool == s.pool && r.sleepPeriod == s.sleepPeriod && n in r.queue
      && |q| == (if n in s.queue then 1 else 2) && q[|q| - 1].kind == k
      && (n !in s.queue ==> q[0].kind.Wake?)
      && WakeOnlyFirst(q)
  {
  }

  lemma PlanEnds(s: State, n: Node, q: seq<Task>)
    requires IsPlan(s, n, q)
    ensures Final(true, SleepPeriod(s, n), q, s.mode.sleepTime) == s.mode.sleepTime
  {
    var period, wanted := SleepPeriod(s, n), s.mode.sleepTime;
    hide Final;
    var p := q;
    if n !in s.queue {
      assert q == [q[0]] + q[1..];
      FinalStep(true, period, q[0], q[1..], wanted);
      p := q[1..];
    }
    if |p| == 3 {
      assert p == [p[0]] + ([p[1]] + ([p[2]] + []));
      FinalStep(true, period, p[0], [p[1]] + ([p[2]] + []), wanted);
      FinalStep(true, period, p[1], [p[2]] + [], wanted);
      FinalStep(true, wanted, p[2], [], wanted);
    } else {
      assert p == [p[0]] + ([p[1]] + []);
      FinalStep(true, period, p[0], [p[1]] + [], wanted);
      FinalStep(true, wanted, p[1], [], wanted);
    }
  }

  // ---- The outcome through the steps of a node

  /** Executing the head changes nothing of it. */
  lemma ExecuteOutcome(s: State, n: Node)
    requires HasHead(s, n)
    ensures var r := Execute(s, n);
      Outcome(r, n) == Outcome(s, n) && SleepPeriod(r, n) == SleepPeriod(s, n) && r.mode == s.mode
  {
    assert Execute(s, n).queue[n][1..] == s.queue[n][1..];
  }

  /** The success of a configuration task makes its period the known sleep time; no other does. */
  lemma SuccessLearns(s: State, n: Node, e: EventType)
    requires HasHead(s, n) && Ready(Head(s, n))
    ensures var r := OnSuccess(s, n, e);
      SleepPeriod(r, n) == Learn(SleepPeriod(s, n), Head(s, n).kind) && r.mode == s.mode
  {
  }

  /** The head has succeeded, and may have queued another task; its period is known now. */
  lemma SuccessOutcome(s: State, n: Node, e: EventType)
    requires !s.mode.passive && n in s.queue && QueueOk(s.queue[n])
    ensures var r := OnSuccess(s, n, e);
      && Outcome(r, n) == Outcome(s, n) && HasHead(r, n) && Head(r, n) == Head(s, n) && r.mode == s.mode
      && SleepPeriod(r, n) == Learn(SleepPeriod(s, n), Head(s, n).kind)
  {
    SuccessLearns(s, n, e);
    OnSuccessShape(s, n, e);
    var r, q, p := OnSuccess(s, n, e), s.queue[n], SleepPeriod(s, n);
    hide OnSuccess;
    if Terminal(q[0].kind) {
      assert r.queue[n] == q;
    } else {
      assert q == [q[0]] + q[1..];
      FinalStep(IsLowPower(n), p, q[0], q[1..], s.mode.sleepTime);
      FinalStep(IsLowPower(n), Learn(p, q[0].kind), q[0], q[1..], s.mode.sleepTime);
      if r.queue[n] != q {
        FinalAppend(IsLowPower(n), SleepPeriod(r, n), q, Fresh(s, New(TASK_OP_UPDATE, 0)), s.mode.sleepTime);
      }
    }
  }

  /** The head, whose period is known, is taken off. */
  lemma AdvanceOutcome(s: State, n: Node)
    requires !s.mode.passive && HasHead(s, n)
    requires Learn(SleepPeriod(s, n), Head(s, n).kind) == SleepPeriod(s, n)
    ensures Outcome(Advance(s, n), n) == Outcome(s, n) && Advance(s, n).mode == s.mode
  {
    var q := s.queue[n];
    var s1 := SetQueue(s, n, q[1..]);
    assert q == [q[0]] + q[1..];
    FinalStep(IsLowPower(n), SleepPeriod(s, n), q[0], q[1..], s.mode.sleepTime);
    if Terminal(q[0].kind) {
    } else if q[1..] != [] {
      ExecuteOutcome(s1, n);
    } else if n in s.pool.configNodes || IsLowPower(n) {
      SleepNodeOutcome(s1, n);
      ExecuteOutcome(SleepNode(s1, n), n);
      hide SleepNode, Execute;
      assert Advance(s, n) == Execute(SleepNode(s1, n), n);
    }
  }

  /** Every success of a head leaves the outcome as it was. */
  lemma StepOutcome(s: State, n: Node, l: Label)
    requires Inv(s) && LabelOk(l) && Advances(s, n, l)
    ensures Outcome(Step(s, l), n) == Outcome(s, n) && Step(s, l).mode == s.mode
  {
    SuccessStep(s, n, l);
    hide Step, Notice, Advance, PoolOk, TimersOk, OnSuccess, Final, CallbackOk, Succeeds;
    var s1 := Notice(s, n, l.event, l.cfg);
    SuccessOutcome(s1, n, l.event);
    AdvanceOutcome(OnSuccess(s1, n, l.event), n);
  }

  /** However the events of other nodes are interleaved, a node whose queue drains ends up with the
      sleep time its queue tells: that of the last configuration task before the one that ends the
      conversation, and for a low-power node without such a task the one the gateway wants. */
  lemma {:induction false} DrainedNodesSleepAsPlanned(s: State, n: Node, ls: seq<Label>)
    requires Inv(s) && RunOk(ls) && Draining(s, n, ls) && !Ignored(s, n)
    requires forall l | l in ls :: !l.WantSleepTime?
    ensures var r := Run(s, ls);
      && Outcome(r, n) == Outcome(s, n) && r.mode == s.mode
      && (n !in r.queue ==> SleepPeriod(r, n) == Outcome(s, n))
    decreases |ls|
  {
    if ls != [] {
      var init, l := ls[..|ls| - 1], ls[|ls| - 1];
      assert forall i | 0 <= i < |init| :: init[i] == ls[i] && init[..i] == ls[..i];
      assert l in ls && forall k | k in init :: k in ls;
      DrainedNodesSleepAsPlanned(s, n, init);
      hide Step, Inv, Final;
      var r := Run(s, init);
      if About(l, n) {
        StepOutcome(r, n, l);
      } else {
        StepOther(r, l, n);
        StepMode(r, l);
      }
    }
  }

  /** So a low-power node sleeps with the time the gateway wants whenever no waiting task ends the
      conversation, whatever the others are, in legacy and in other mode. */
  lemma DrainedNodesSleepAsWanted(s: State, n: Node, ls: seq<Label>)
    requires Inv(s) && RunOk(ls) && Draining(s, n, ls) && !Ignored(s, n) && IsLowPower(n)
    requires n in s.queue && !HasTerminal(s.queue[n])
    requires forall l | l in ls :: !l.WantSleepTime?
    ensures n !in Run(s, ls).queue ==> SleepPeriod(Run(s, ls), n) == s.mode.sleepTime
  {
    DrainedNodesSleepAsPlanned(s, n, ls);
    OpenEnds(SleepPeriod(s, n), s.queue[n], s.mode.sleepTime);
  }

  lemma {:induction false} OpenEnds(period: nat, q: seq<Task>, wanted: nat)
    requires !HasTerminal(q)
    ensures Final(true, period, q, wanted) == wanted
    decreases |q|
  {
    if q != [] {
      assert q[0] in q && forall t | t in q[1..] :: t in q;
      OpenEnds(Learn(period, q[0].kind), q[1..], wanted);
    }
  }

  // ---- Notifications

  /** A notification that finds no work for a low-power node sets it on its way to sleep with the
      wanted time. */
  lemma NotificationSettles(s: State, n: Node, conf: NotifyConf, cfg: seq<Kind>)
    requires Inv(s) && CallbackOk(cfg) && !Ignored(s, n) && IsLowPower(n) && n !in s.queue
    requires conf.Configured? || (conf.Legacy? && n !in s.pool.configNodes)
    ensures var r := Step(s, Event(n, WakeNotify(conf), cfg));
      && n in r.queue && HasTerminal(r.queue[n]) && Outcome(r, n) == s.mode.sleepTime
      && r.mode == s.mode && !Ignored(r, n)
  {
    NotificationStep(s, n, conf, cfg);
    SleepNodeOutcome(s, n);
    SleepNodeEnds(s, n);
    hide SleepNode, Final, Notice, Step, Inv, CallbackOk;
    var s1 := Notice(s, n, WakeNotify(conf), cfg);
    ExecuteOutcome(s1, n);
    ExecuteEnds(s1, n);
  }

  lemma ExecuteEnds(s: State, n: Node)
    requires HasHead(s, n) && HasTerminal(s.queue[n])
    ensures HasTerminal(Execute(s, n).queue[n])
  {
    var q, r := s.queue[n], Execute(s, n).queue[n];
    var i :| 0 <= i < |q| && Terminal(q[i].kind);
    assert r[i].kind == q[i].kind && r[i] in r;
  }

  lemma SleepNodeEnds(s: State, n: Node)
    requires !s.mode.passive && Quiet(s, n)
    ensures HasTerminal(SleepNode(s, n).queue[n])
  {
    var q := SleepNode(s, n).queue[n];
    assert q[|q| - 1] in q && Terminal(q[|q| - 1].kind);
  }

  /** The notification puts up the tasks, restarts the timeout of a slot and executes the head. */
  lemma NotificationStep(s: State, n: Node, conf: NotifyConf, cfg: seq<Kind>)
    requires Inv(s) && CallbackOk(cfg) && !Ignored(s, n) && IsLowPower(n) && n !in s.queue
    requires conf.Configured? || (conf.Legacy? && n !in s.pool.configNodes)
    ensures var e := WakeNotify(conf); var s1 := Notice(s, n, e, cfg);
      && s1.queue == SleepNode(s, n).queue && s1.sleepPeriod == SleepNode(s, n).sleepPeriod
      && s1.mode == s.mode && s1.pool.whitelist == s.pool.whitelist && HasHead(s1, n)
      && Step(s, Event(n, e, cfg)) == Execute(s1, n)
  {
    var e := WakeNotify(conf);
    LookupsSucceed(s, n, e, cfg);
    NoticeShape(s, n, e, cfg);
    SleepNodeWork(s, n);
    var s1 := Notice(s, n, e, cfg);
    assert s1.queue == SleepNode(s, n).queue && s1.sleepPeriod == SleepNode(s, n).sleepPeriod;
    HeadFails(s, n);
    hide SleepNode, NotifyCb, Callbacks, Notice, QueuesOk, PoolOk, TimersOk, CallbackOk;
    assert HandleHead(s1, n, e) == Execute(s1, n);
  }

  /** The first task for a node to sleep is a wake or a sleep task. */
  lemma HeadFails(s: State, n: Node)
    requires !s.mode.passive && IsLowPower(n) && n !in s.queue
    ensures var t := Head(SleepNode(s, n), n); t.kind.Wake? || t.kind.Sleep?
  {
    if SleepPeriod(s, n) != s.mode.sleepTime {
      PlanTasks(s, n);
    }
  }

  // ---- The known sleep time in every step

  lemma {:induction false} SchedulePeriod(s: State, n: Node, ks: seq<Kind>)
    ensures ScheduleAll(s, n, ks).sleepPeriod == s.sleepPeriod
    decreases |ks|
  {
    if ks != [] {
      SchedulePeriod(s, n, ks[..|ks| - 1]);
    }
  }

  lemma {:induction false} AddPeriod(s: State, n: Node, ts: seq<Task>)
    ensures AddAll(s, n, ts).sleepPeriod == s.sleepPeriod
    decreases |ts|
  {
    if ts != [] {
      AddPeriod(s, n, ts[..|ts| - 1]);
    }
  }

  /** A configuration forgets the sleep time of the node. */
  lemma ReconfigurePeriod(s: State, n: Node, cfg: seq<Kind>)
    ensures SleepPeriod(Reconfigure(s, n, cfg), n) == 0
  {
    hide ScheduleAll, AddAll, CancelTasks;
    SchedulePeriod(CancelTasks(s, n).(sleepPeriod := s.sleepPeriod[n := 0]), n, cfg);
    AddPeriod(Configure(s, n, cfg), n, GetTasks(s, n));
  }

  lemma ConfigurePeriod(s: State, n: Node, cfg: seq<Kind>)
    ensures SleepPeriod(Configure(s, n, cfg), n) == 0
  {
    hide ScheduleAll, CancelTasks;
    SchedulePeriod(CancelTasks(s, n).(sleepPeriod := s.sleepPeriod[n := 0]), n, cfg);
  }

  /** The step makes the node forget what it was told: a configuration starts, or starts over. */
  predicate Forgets(s: State, l: Label, n: Node) {
    && l.Event? && l.node == n && !Ignored(s, n)
    && ((l.event == WakeNotify(Legacy) && n in s.pool.configNodes)
        || (l.event == WakeNotify(NotConfigured) && n !in s.pool.configuring
            && (n in s.pool.configNodes || |s.pool.configNodes| < MAX_CONFIG_NODES)))
  }

  lemma SleepNodePeriod(s: State, n: Node)
    requires !s.mode.passive
    ensures SleepNode(s, n).sleepPeriod == s.sleepPeriod
  {
  }

  lemma AdvancePeriod(s: State, n: Node)
    requires !s.mode.passive && HasHead(s, n)
    ensures Advance(s, n).sleepPeriod == s.sleepPeriod
  {
    SleepNodePeriod(SetQueue(s, n, s.queue[n][1..]), n);
    hide SleepNode;
  }

  lemma HeadPeriod(s: State, n: Node, e: EventType)
    requires !s.mode.passive && HasHead(s, n) && Ready(Head(s, n))
    ensures SleepPeriod(HandleHead(s, n, e), n) ==
              if Succeeds(Head(s, n).kind, e) then Learn(SleepPeriod(s, n), Head(s, n).kind) else SleepPeriod(s, n)
  {
    if Succeeds(Head(s, n).kind, e) {
      SuccessLearns(s, n, e);
      hide OnSuccess, Advance;
      AdvancePeriod(OnSuccess(s, n, e), n);
    }
  }

  lemma NotifyPeriod(s: State, l: Label, n: Node)
    requires l.Event? && l.node == n && l.event.WakeNotify? && !Ignored(s, n)
    ensures SleepPeriod(NotifyCb(s, n, l.event.conf, l.cfg), n) == if Forgets(s, l, n) then 0 else SleepPeriod(s, n)
  {
    SleepNodePeriod(s, n);
    ConfigurePeriod(s, n, l.cfg);
    var s1 := s.(pool := EnterConfiguration(s.pool, n));
    ReconfigurePeriod(s1, n, l.cfg);
    hide SleepNode, Configure, Reconfigure;
  }

  /** Exactly how the known sleep time of a node changes: a configuration that starts makes it 0, the
      success of a configuration task makes it the period of the task, and nothing else changes it. */
  lemma StepPeriod(s: State, l: Label, n: Node)
    requires Inv(s) && LabelOk(l)
    ensures SleepPeriod(Step(s, l), n) ==
              if Forgets(s, l, n) then 0
              else if Advances(s, n, l) then Learn(SleepPeriod(s, n), Head(s, n).kind)
              else SleepPeriod(s, n)
  {
    if !About(l, n) {
      StepOther(s, l, n);
      hide Step, Inv, LabelOk;
    } else if l.Event? {
      EventPeriod(s, l, n);
    } else {
      CallPeriod(s, l, n);
    }
  }

  lemma EventPeriod(s: State, l: Label, n: Node)
    requires Inv(s) && LabelOk(l) && l.Event? && l.node == n
    ensures SleepPeriod(Step(s, l), n) ==
              if Forgets(s, l, n) then 0
              else if Advances(s, n, l) then Learn(SleepPeriod(s, n), Head(s, n).kind)
              else SleepPeriod(s, n)
  {
    EventIsHandled(s, n, l.event, l.cfg);
    if !Ignored(s, n) {
      var s1 := Notice(s, n, l.event, l.cfg);
      if l.event.WakeNotify? {
        NotifyPeriod(s, l, n);
        NoticePeriod(s, l, n);
      } else {
        NoticeQuiet(s, n, l.event, l.cfg);
      }
      hide Step, Notice, HandleHead, NotifyCb, Forgets, Learn, QueuesOk, TimersOk, PoolOk, CallbackOk;
      if n in s1.queue {
        HeadPeriod(s1, n, l.event);
      }
    }
  }

  lemma NoticePeriod(s: State, l: Label, n: Node)
    requires l.Event? && l.node == n && l.event.WakeNotify? && !Ignored(s, n)
    ensures SleepPeriod(Notice(s, n, l.event, l.cfg), n) == SleepPeriod(NotifyCb(s, n, l.event.conf, l.cfg), n)
  {
    hide NotifyCb;
  }

  lemma HandledTimeoutPeriod(s: State, n: Node)
    requires PoolOk(s.pool) && (!Ignored(s, n) ==> HeadFound(Notice(s, n, ConfigurationTimeout, []), n))
    ensures SleepPeriod(TaskHandler(s, n, ConfigurationTimeout, []), n) == SleepPeriod(s, n)
  {
    if !Ignored(s, n) {
      NoticeQuiet(s, n, ConfigurationTimeout, []);
      hide Notice, HandleHead, Learn;
      var s1 := Notice(s, n, ConfigurationTimeout, []);
      if n in s1.queue {
        HeadPeriod(s1, n, ConfigurationTimeout);
      }
    }
  }

  lemma TimeoutHandlerPeriod(s: State, n: Node)
    ensures ConfigTimeoutHandler(s, n).sleepPeriod == s.sleepPeriod
  {
  }

  lemma TimeoutPeriod(s: State, n: Node)
    requires Inv(s) && n in s.pool.undelivered
    ensures SleepPeriod(Step(s, Deliver(n)), n) == SleepPeriod(s, n)
  {
    DeliverIsHandled(s, n);
    hide Step, HeadFound, Notice, TaskHandler, ConfigTimeoutHandler, QueuesOk, TimersOk;
    HandledTimeoutPeriod(s, n);
    TimeoutHandlerPeriod(TaskHandler(s, n, ConfigurationTimeout, []), n);
  }

  lemma CallPeriod(s: State, l: Label, n: Node)
    requires Inv(s) && LabelOk(l) && !l.Event? && About(l, n)
    ensures SleepPeriod(Step(s, l), n) == SleepPeriod(s, n)
  {
    if l.Deliver? && n in s.pool.undelivered {
      TimeoutPeriod(s, n);
    }
    hide TaskHandler, ConfigTimeoutHandler, QueuesOk, TimersOk, PoolOk;
  }
}
