/** Runs from the start in which a node loses its work, and in which a configured node is dropped. */
module SchedulerScenarios {
  import opened Tasks
  import opened SchedulerSpec
  import opened SchedulerLocality
  import opened SchedulerShape
  import opened SchedulerRuns
  import opened SchedulerProgress
  import opened SchedulerSleep
  import opened SchedulerWhitelist

  /** The sleep time the gateway wants its nodes to use when nothing else is set. */
  const SLEEP_TIME: nat := 600

  const MODE: Mode := Mode(false, false, SLEEP_TIME)

  /** The configuration callback asks for one task. */
  const ASKED: seq<Kind> := [Other(0)]

  function Start(): State {
    Initial(MODE, map[])
  }

  /** The task of the gateway's own that sets the sleep time of a node. */
  const SET_TIME: Kind := Change(TASK_OP_CONF, SLEEP_TIME)

  ghost predicate Busy(s: State, n: Node, ks: seq<Kind>, retries: nat, period: nat) {
    Inv(s) && AtWork(s, n, ks, retries, period)
  }

  /** In configuration, with these kinds of tasks, and known to sleep so long; the head has been sent
      so often. No expired timer waits to be dispatched. */
  predicate AtWork(s: State, n: Node, ks: seq<Kind>, retries: nat, period: nat) {
    && s.mode == MODE && SleepPeriod(s, n) == period
    && n in s.pool.whitelist && n in s.pool.configNodes && n in s.pool.configuring
    && s.pool.undelivered == multiset{}
    && n in s.queue && |s.queue[n]| == |ks| > 0 && s.queue[n][0].retries == retries
    && (forall i | 0 <= i < |ks| :: s.queue[n][i].kind == ks[i])
    && (forall i | 1 <= i < |ks| :: s.queue[n][i].retries == 0)
  }

  function Notified(n: Node): Label {
    Event(n, WakeNotify(NotConfigured), ASKED)
  }

  /** The node is whitelisted and unknown otherwise. */
  ghost predicate Listed(s: State, n: Node) {
    && Inv(s) && s.mode == MODE && n in s.pool.whitelist && s.pool.configNodes == map[]
    && n !in s.queue && s.pool.undelivered == multiset{}
  }

  lemma ListedPending(s: State, n: Node)
    requires Listed(s, n)
    ensures GetTasks(s, n) == [] && n !in s.pool.configuring && !Ignored(s, n) && CallbackOk(ASKED)
  {
  }

  lemma NotifiedTables(s: State, n: Node)
    requires Listed(s, n)
    ensures var r := Step(s, Notified(n));
      && r.mode == s.mode && SleepPeriod(r, n) == 0
      && r.pool.undelivered == s.pool.undelivered && r.pool.whitelist == s.pool.whitelist
  {
    ListedPending(s, n);
    NotConfiguredStep(s, n, ASKED);
    var s1 := s.(pool := EnterConfiguration(s.pool, n));
    hide Step, Reconfigure, Inv;
    ReconfigurePeriod(s1, n, ASKED);
    ReconfigureLocal(s1, n, ASKED);
  }

  lemma NotifiedStep(s: State, n: Node)
    requires Listed(s, n)
    ensures Busy(Step(s, Notified(n)), n, [Wake, Other(0)], 0, 0)
  {
    ListedPending(s, n);
    NotifiedTables(s, n);
    hide Step, QueuesOk, TimersOk, GetTasks, Silent;
    var r := Step(s, Notified(n));
    ConfigurationKeepsPendingWork(s, n, ASKED);
    StepKeepsInv(s, Notified(n));
    var q := r.queue[n];
    assert q[1] == q[1..][0];
    FreshHead(s, n);
  }

  lemma FreshHead(s: State, n: Node)
    requires Listed(s, n)
    ensures HasHead(Step(s, Notified(n)), n) && Head(Step(s, Notified(n)), n).retries == 0
  {
    ListedPending(s, n);
    NotConfiguredStep(s, n, ASKED);
    var s1 := s.(pool := EnterConfiguration(s.pool, n));
    hide Step, Reconfigure, Inv;
    ReconfigureShape(s1, n, ASKED);
  }

  /** An event that is neither a reset nor a notification goes to the head. */
  predicate Plain(e: EventType) {
    !e.WakeReset? && !e.WakeNotify? && !e.ConfigurationTimeout?
  }

  function Ev(n: Node, e: EventType): Label {
    Event(n, e, ASKED)
  }

  function Restarted(s: State, n: Node): State
    requires n in s.pool.configNodes
  {
    s.(pool := RestartTimer(s.pool, n))
  }

  lemma PlainHandler(s: State, n: Node, ks: seq<Kind>, retries: nat, period: nat, e: EventType)
    requires AtWork(s, n, ks, retries, period) && Plain(e) && (retries == 0 ==> !Retrying(ks[0]))
    ensures var s1 := Restarted(s, n);
      && Notice(s, n, e, ASKED) == s1 && AtWork(s1, n, ks, retries, period) && HasHead(s1, n) && Ready(Head(s1, n))
      && HeadFound(s1, n) && !Ignored(s, n) && TaskHandler(s, n, e, ASKED) == HandleHead(s1, n, e)
  {
    hide HandleHead;
    assert Restarted(s, n).pool.configNodes.Keys == s.pool.configNodes.Keys;
  }

  /** `r` is what the head makes of the event, behind the restart of the timeout. */
  ghost predicate Handled(s: State, r: State, n: Node, ks: seq<Kind>, retries: nat, period: nat, e: EventType) {
    && n in s.pool.configNodes && AtWork(Restarted(s, n), n, ks, retries, period) && Ready(Head(Restarted(s, n), n))
    && r == HandleHead(Restarted(s, n), n, e)
  }

  lemma EventStep(s: State, n: Node, ks: seq<Kind>, retries: nat, period: nat, e: EventType)
    requires Busy(s, n, ks, retries, period) && Plain(e) && (retries == 0 ==> !Retrying(ks[0]))
    ensures LabelOk(Ev(n, e)) && Inv(Step(s, Ev(n, e))) && Handled(s, Step(s, Ev(n, e)), n, ks, retries, period, e)
  {
    assert LabelOk(Ev(n, e));
    StepKeepsInv(s, Ev(n, e));
    EventIsHandled(s, n, e, ASKED);
    hide Step, HandleHead, Inv, LabelOk, TaskHandler, Notice;
    PlainHandler(s, n, ks, retries, period, e);
  }

  lemma AwakedHead(s: State, n: Node)
    requires AtWork(s, n, [Wake, Other(0)], 0, 0)
    ensures AtWork(HandleHead(s, n, WakeAckWait), n, [Other(0)], 1, 0)
  {
  }

  lemma TimeoutHead(s: State, n: Node, retries: nat)
    requires AtWork(s, n, [Other(0)], retries, 0) && 1 <= retries < MAX_RETRIES
    ensures AtWork(HandleHead(s, n, TaskTimeout), n, [Other(0)], retries + 1, 0)
  {
  }

  lemma AckedHead(s: State, n: Node, retries: nat)
    requires AtWork(s, n, [Other(0)], retries, 0) && retries >= 1 && IsLowPower(n)
    ensures AtWork(HandleHead(s, n, OtherAck(0)), n, [SET_TIME, Sleep], 1, 0)
  {
  }

  lemma TimeSetHead(s: State, n: Node)
    requires AtWork(s, n, [SET_TIME, Sleep], 1, 0)
    ensures AtWork(HandleHead(s, n, TaskChangeAck), n, [Sleep], 0, SLEEP_TIME)
  {
  }

  lemma AwakedStep(s: State, n: Node)
    requires Busy(s, n, [Wake, Other(0)], 0, 0)
    ensures LabelOk(Ev(n, WakeAckWait)) && Busy(Step(s, Ev(n, WakeAckWait)), n, [Other(0)], 1, 0)
  {
    EventStep(s, n, [Wake, Other(0)], 0, 0, WakeAckWait);
    hide Step, Inv, AtWork, HandleHead;
    AwakedHead(Restarted(s, n), n);
  }

  lemma TimeoutStep(s: State, n: Node, retries: nat)
    requires Busy(s, n, [Other(0)], retries, 0) && 1 <= retries < MAX_RETRIES
    ensures LabelOk(Ev(n, TaskTimeout)) && Busy(Step(s, Ev(n, TaskTimeout)), n, [Other(0)], retries + 1, 0)
  {
    EventStep(s, n, [Other(0)], retries, 0, TaskTimeout);
    hide Step, Inv, AtWork, HandleHead;
    TimeoutHead(Restarted(s, n), n, retries);
  }

  lemma AckedStep(s: State, n: Node, retries: nat)
    requires Busy(s, n, [Other(0)], retries, 0) && retries >= 1 && IsLowPower(n)
    ensures LabelOk(Ev(n, OtherAck(0))) && Busy(Step(s, Ev(n, OtherAck(0))), n, [SET_TIME, Sleep], 1, 0)
  {
    EventStep(s, n, [Other(0)], retries, 0, OtherAck(0));
    hide Step, Inv, AtWork, HandleHead;
    AckedHead(Restarted(s, n), n, retries);
  }

  lemma TimeSetStep(s: State, n: Node)
    requires Busy(s, n, [SET_TIME, Sleep], 1, 0)
    ensures LabelOk(Ev(n, TaskChangeAck)) && Busy(Step(s, Ev(n, TaskChangeAck)), n, [Sleep], 0, SLEEP_TIME)
  {
    EventStep(s, n, [SET_TIME, Sleep], 1, 0, TaskChangeAck);
    hide Step, Inv, AtWork, HandleHead;
    TimeSetHead(Restarted(s, n), n);
  }

  // ---- Runs

  /** The run leads from the start to this state. */
  ghost predicate Leads(ls: seq<Label>, s: State) {
    Inv(Start()) && RunOk(ls) && s == Run(Start(), ls) && Inv(s)
  }

  lemma Begin()
    ensures Leads([], Start())
  {
  }

  lemma Then(ls: seq<Label>, s: State, l: Label)
    requires Leads(ls, s) && LabelOk(l)
    ensures Inv(s) && Leads(ls + [l], Step(s, l))
  {
    hide Start, Step, Inv, LabelOk;
    RunSnoc(Start(), ls, l);
    StepKeepsInv(s, l);
  }

  lemma Listing(n: Node) returns (s: State)
    ensures Leads([Permit(n)], s) && Listed(s, n)
  {
    Begin();
    Then([], Start(), Permit(n));
    s := Step(Start(), Permit(n));
    assert [] + [Permit(n)] == [Permit(n)];
  }

  lemma Notification(n: Node) returns (s: State)
    ensures Leads([Permit(n), Notified(n)], s) && Busy(s, n, [Wake, Other(0)], 0, 0)
  {
    s := Listing(n);
    assert LabelOk(Notified(n));
    hide Start, Step, Inv, Listed, Busy, LabelOk, Leads;
    NotifiedStep(s, n);
    Then([Permit(n)], s, Notified(n));
    s := Step(s, Notified(n));
    assert [Permit(n)] + [Notified(n)] == [Permit(n), Notified(n)];
  }

  /** The run of a configuration up to the sending of its first task. */
  lemma Configured(n: Node) returns (ls: seq<Label>, s: State)
    ensures ls == [Permit(n), Notified(n), Ev(n, WakeAckWait)]
    ensures Leads(ls, s) && Busy(s, n, [Other(0)], 1, 0)
  {
    s := Notification(n);
    hide Start, Step, Inv, AtWork, LabelOk, Leads;
    AwakedStep(s, n);
    ls := [Permit(n), Notified(n)];
    Then(ls, s, Ev(n, WakeAckWait));
    ls, s := ls + [Ev(n, WakeAckWait)], Step(s, Ev(n, WakeAckWait));
  }

  /** A mains-powered node whose first task is never acknowledged: the fourth timeout takes its
      queue, and it stays in configuration. */
  lemma NodeLosesItsWork() returns (n: Node, ls: seq<Label>, s: State)
    ensures n.boardId == 6
    ensures ls == [Permit(n), Notified(n), Ev(n, WakeAckWait)]
                  + [Ev(n, TaskTimeout)] + [Ev(n, TaskTimeout)] + [Ev(n, TaskTimeout)]
    ensures Leads(ls, s) && LosesWork(s, n)
  {
    n := Node(0, 6);
    assert !IsLowPower(n);
    ls, s := Configured(n);
    hide Start, Step, Inv, AtWork, Leads, LosesWork;
    var t := Ev(n, TaskTimeout);
    TimeoutStep(s, n, 1);
    Then(ls, s, t);
    ls, s := ls + [t], Step(s, t);
    TimeoutStep(s, n, 2);
    Then(ls, s, t);
    ls, s := ls + [t], Step(s, t);
    TimeoutStep(s, n, 3);
    Then(ls, s, t);
    ls, s := ls + [t], Step(s, t);
    Exhausted(s, n);
  }

  /** The next timeout takes the queue of the node, which stays in configuration. */
  ghost predicate LosesWork(s: State, n: Node) {
    && Inv(s) && LabelOk(Ev(n, TaskTimeout)) && RunsOut(s, Ev(n, TaskTimeout), n)
    && var r := Step(s, Ev(n, TaskTimeout)); n in r.pool.configuring && n !in r.queue
  }

  lemma Exhausted(s: State, n: Node)
    requires Busy(s, n, [Other(0)], MAX_RETRIES, 0) && !IsLowPower(n)
    ensures LosesWork(s, n)
  {
    hide Step;
    ConfiguringLosesWork(s, Ev(n, TaskTimeout), n);
  }

  /** A low-power node whose configuration timeout expires just before it acknowledges its sleep: it
      has been configured, and the event of the timeout drops it from the whitelist. */
  lemma ConfiguredNodeIsDropped() returns (n: Node, ls: seq<Label>, t: nat, s: State)
    ensures n.boardId == 1
    ensures ls == [Permit(n), Notified(n), Ev(n, WakeAckWait)] + [Ev(n, OtherAck(0))] + [Ev(n, TaskChangeAck)]
                  + [Expire(t)]
    ensures Leads(ls, s) && FinishesAndIsDropped(s, n)
  {
    n := Node(0, 1);
    assert IsLowPower(n);
    ls, s := Configured(n);
    hide Start, Step, Inv, AtWork, Leads, FinishesAndIsDropped;
    AckedStep(s, n, 1);
    Then(ls, s, Ev(n, OtherAck(0)));
    ls, s := ls + [Ev(n, OtherAck(0))], Step(s, Ev(n, OtherAck(0)));
    TimeSetStep(s, n);
    Then(ls, s, Ev(n, TaskChangeAck));
    ls, s := ls + [Ev(n, TaskChangeAck)], Step(s, Ev(n, TaskChangeAck));
    t := SleepExpires(s, n);
    Then(ls, s, Expire(t));
    ls, s := ls + [Expire(t)], Step(s, Expire(t));
  }

  /** The acknowledgement of its sleep ends the configuration of the node, and the dispatch of its
      expired timeout then drops it. */
  ghost predicate FinishesAndIsDropped(s: State, n: Node) {
    && Inv(s) && LabelOk(Ev(n, WakeAckSleep)) && Advances(s, n, Ev(n, WakeAckSleep))
    && var r := Step(s, Ev(n, WakeAckSleep));
       n !in r.queue && Inv(r) && Free(r, n) && n !in Step(r, Deliver(n)).pool.whitelist
  }

  lemma SleepExpires(s: State, n: Node) returns (t: nat)
    requires Busy(s, n, [Sleep], 0, SLEEP_TIME)
    ensures LabelOk(Expire(t)) && FinishesAndIsDropped(Step(s, Expire(t)), n)
  {
    t := s.pool.configNodes[n];
    assert Covered(s.pool, n);
    StepKeepsInv(s, Expire(t));
    var s1 := Step(s, Expire(t));
    assert AboutToSleep(s1, n);
    hide Step;
    SleptStep(s1, n);
    FinishedNodesStay(s1, n, Ev(n, WakeAckSleep), []);
  }

  /** About to sleep, with an expired timeout. */
  predicate AboutToSleep(s: State, n: Node) {
    && s.mode == MODE && n in s.pool.whitelist && n in s.pool.configNodes && n in s.pool.undelivered
    && n in s.queue && |s.queue[n]| == 1 && s.queue[n][0].kind == Sleep
  }

  lemma SleptStep(s: State, n: Node)
    requires Inv(s) && AboutToSleep(s, n)
    ensures var l := Ev(n, WakeAckSleep);
      LabelOk(l) && Advances(s, n, l) && n !in Step(s, l).queue && RunOk([])
  {
    var l := Ev(n, WakeAckSleep);
    SuccessStep(s, n, l);
    hide Notice, Step, Inv;
  }
}
