/** Runs of the scheduler, and what holds in every state of every run. */
module SchedulerRuns {
  import opened Tasks
  import opened SchedulerSpec
  import opened SchedulerLocality
  import opened SchedulerShape

  /** One atomic step: an API call, a dispatched event, or an expiring timer. */
  datatype Label =
    | Add(node: Node, kind: Kind)
    | Cancel(node: Node)
    | Permit(node: Node)
    | Forbid(node: Node)
    | WantSleepTime(seconds: nat)
    | SetListener(on: bool)
    | Event(node: Node, event: EventType, cfg: seq<Kind>)
    | Expire(timer: nat)
    | Deliver(node: Node)

  /** Applications add retrying and reset tasks; configuration timeouts are events only when
      one of the timers has expired. `cfg` is what the configuration callback asks for if the
      step calls it. */
  predicate LabelOk(l: Label) {
    && (l.Add? ==> Retrying(l.kind) || l.kind.Reset?)
    && (l.Event? ==> !l.event.ConfigurationTimeout? && CallbackOk(l.cfg))
  }

  // ---- The invariant

  ghost predicate QueuesOk(s: State) {
    forall n | n in s.queue :: QueueOk(s.queue[n])
  }

  ghost predicate Distinct(ns: seq<Node>) {
    forall i, j | 0 <= i < j < |ns| :: ns[i] != ns[j]
  }

  ghost predicate PoolOk(p: Pool) {
    && p.configuring <= p.configNodes.Keys
    && (forall n | n in p.configNodes :: n in p.whitelist)
    && |p.configNodes| <= MAX_CONFIG_NODES
    && Distinct(p.whitelist)
  }

  /** The timeout of `n` is running, or it has expired and its event waits to be dispatched. */
  predicate Covered(p: Pool, n: Node)
    requires n in p.configNodes
  {
    var t := p.configNodes[n];
    if t in p.armed then p.armed[t] == n else n in p.undelivered
  }

  ghost predicate TimersOk(p: Pool) {
    && (forall n | n in p.configNodes :: p.configNodes[n] < p.nextTimer && Covered(p, n))
    && (forall t | t in p.armed ::
          t < p.nextTimer && p.armed[t] in p.configNodes && p.configNodes[p.armed[t]] == t)
  }

  ghost predicate Inv(s: State) {
    QueuesOk(s) && PoolOk(s.pool) && TimersOk(s.pool)
  }

  function Initial(mode: Mode, sleepPeriod: map<Node, nat>): State {
    State(mode, map[], Pool(map[], {}, [], map[], 0, multiset{}), sleepPeriod, Trace(map[], 0, []))
  }

  // ---- Steps

  function Settle(p: Pool, n: Node): Pool {
    p.(undelivered := p.undelivered - multiset{n})
  }

  function ExpireTimer(p: Pool, t: nat): Pool {
    if t in p.armed
    then p.(armed := p.armed - {t}, undelivered := p.undelivered + multiset{p.armed[t]})
    else p
  }

  /** The lookups a dispatched event makes succeed. */
  lemma LookupsSucceed(s: State, n: Node, e: EventType, cfg: seq<Kind>)
    requires QueuesOk(s) && (e.WakeNotify? ==> CallbackOk(cfg))
    ensures !Ignored(s, n) ==> HeadFound(Notice(s, n, e, cfg), n)
  {
    if !Ignored(s, n) {
      NoticeShape(s, n, e, cfg);
    }
  }

  ghost function Step(s: State, l: Label): State
    requires Inv(s) && LabelOk(l)
  {
    match l
    case Add(n, k) => Schedule(s, n, k)
    case Cancel(n) => CancelTasks(s, n)
    case Permit(n) => WhitelistAdd(s, n)
    case Forbid(n) => WhitelistRemove(s, n)
    case WantSleepTime(v) => s.(mode := s.mode.(sleepTime := v))
    case SetListener(on) => s.(mode := s.mode.(passive := on))
    case Event(n, e, cfg) =>
      LookupsSucceed(s, n, e, cfg);
      TaskHandler(s, n, e, cfg)
    case Expire(t) => s.(pool := ExpireTimer(s.pool, t))
    case Deliver(n) =>
      if n !in s.pool.undelivered then s
      else
        LookupsSucceed(s, n, ConfigurationTimeout, []);
        var s1 := ConfigTimeoutHandler(TaskHandler(s, n, ConfigurationTimeout, []), n);
        s1.(pool := Settle(s1.pool, n))
  }

  /** The step of an event is its handler. */
  lemma EventIsHandled(s: State, n: Node, e: EventType, cfg: seq<Kind>)
    requires Inv(s) && LabelOk(Event(n, e, cfg))
    ensures !Ignored(s, n) ==> HeadFound(Notice(s, n, e, cfg), n)
    ensures Step(s, Event(n, e, cfg)) == TaskHandler(s, n, e, cfg)
  {
    hide TaskHandler, HeadFound, Notice, QueuesOk, PoolOk, TimersOk;
    LookupsSucceed(s, n, e, cfg);
  }

  /** So is that of an expired timeout, which then takes the node out. */
  lemma DeliverIsHandled(s: State, n: Node)
    requires Inv(s) && n in s.pool.undelivered
    ensures !Ignored(s, n) ==> HeadFound(Notice(s, n, ConfigurationTimeout, []), n)
    ensures var r := ConfigTimeoutHandler(TaskHandler(s, n, ConfigurationTimeout, []), n);
      Step(s, Deliver(n)) == r.(pool := Settle(r.pool, n))
  {
    hide TaskHandler, ConfigTimeoutHandler, HeadFound, Notice, QueuesOk, PoolOk, TimersOk;
    LookupsSucceed(s, n, ConfigurationTimeout, []);
  }

  // ---- The queues

  lemma QueuesFrame(s: State, r: State, n: Node)
    requires QueuesOk(s) && Others(r, n) == Others(s, n) && NodeOk(r, n)
    ensures QueuesOk(r)
  {
    forall m | m in r.queue ensures QueueOk(r.queue[m]) {
      if m != n {
        Elsewhere(s, r, n, m);
      }
    }
  }

  lemma TaskHandlerQueues(s: State, n: Node, e: EventType, cfg: seq<Kind>)
    requires Inv(s) && (e.WakeNotify? ==> CallbackOk(cfg))
    requires !Ignored(s, n) ==> HeadFound(Notice(s, n, e, cfg), n)
    ensures var r := TaskHandler(s, n, e, cfg);
      QueuesOk(r) && Others(r, n) == Others(s, n) && r.mode == s.mode && r.pool.whitelist == s.pool.whitelist
  {
    if !Ignored(s, n) {
      var s1 := Notice(s, n, e, cfg);
      NoticeShape(s, n, e, cfg);
      NoticeLocal(s, n, e, cfg);
      if n in s1.queue {
        HandleHeadShape(s1, n, e);
        HandleHeadLocal(s1, n, e);
      }
      QueuesFrame(s, TaskHandler(s, n, e, cfg), n);
    }
  }

  lemma ConfigTimeoutQueues(s: State, n: Node)
    requires QueuesOk(s)
    ensures QueuesOk(ConfigTimeoutHandler(s, n))
  {
    ConfigTimeoutLocal(s, n);
    QueuesFrame(s, ConfigTimeoutHandler(s, n), n);
  }

  // ---- The pool

  /** Start a new timeout for a node whose previous one, if any, does not run. */
  lemma StartPool(p: Pool, n: Node)
    requires PoolOk(p) && n in p.whitelist
    requires n in p.configNodes || |p.configNodes| < MAX_CONFIG_NODES
    requires forall m | m in p.configNodes && m != n :: p.configNodes[m] < p.nextTimer && Covered(p, m)
    requires forall t | t in p.armed ::
               t < p.nextTimer && p.armed[t] != n && p.armed[t] in p.configNodes && p.configNodes[p.armed[t]] == t
    ensures var r := StartTimer(p, n); PoolOk(r) && TimersOk(r)
  {
    var r := StartTimer(p, n);
    assert r.configNodes.Keys == p.configNodes.Keys + {n};
    if n in p.configNodes {
      assert r.configNodes.Keys == p.configNodes.Keys;
    }
    forall m | m in r.configNodes ensures Covered(r, m) {
      if m != n {
        assert Covered(p, m);
      }
    }
  }

  lemma EnterPool(p: Pool, n: Node)
    requires PoolOk(p) && TimersOk(p) && n in p.whitelist
    ensures var r := EnterConfiguration(p, n); PoolOk(r) && TimersOk(r)
  {
    if n !in p.configNodes && |p.configNodes| < MAX_CONFIG_NODES {
      StartPool(p, n);
    }
  }

  /** The other nodes' timers are not the one `n` cancels. */
  lemma CancelCovers(p: Pool, n: Node, m: Node)
    requires TimersOk(p) && n in p.configNodes && m in p.configNodes && m != n
    ensures Covered(CancelTimer(p, n), m)
  {
    assert Covered(p, m);
    assert Covered(p, n);
  }

  lemma RestartPool(p: Pool, n: Node)
    requires PoolOk(p) && TimersOk(p) && n in p.configNodes
    ensures var r := RestartTimer(p, n); PoolOk(r) && TimersOk(r)
  {
    forall m | m in p.configNodes && m != n ensures Covered(CancelTimer(p, n), m) {
      CancelCovers(p, n, m);
    }
    StartPool(CancelTimer(p, n), n);
  }

  lemma LeavePool(p: Pool, n: Node)
    requires PoolOk(p) && TimersOk(p)
    ensures var r := LeaveConfiguration(p, n);
      PoolOk(r) && TimersOk(r) && n !in r.configNodes && n !in r.configuring && r == CleanPool(p, n)
  {
    var r := LeaveConfiguration(p, n);
    assert r.configuring - {n} == r.configuring;
    if n in p.configNodes {
      assert r.configNodes.Keys == p.configNodes.Keys - {n};
      forall m | m in r.configNodes ensures Covered(r, m) {
        CancelCovers(p, n, m);
      }
    }
  }

  lemma NotifyPool(s: State, n: Node, conf: NotifyConf, cfg: seq<Kind>)
    requires PoolOk(s.pool) && TimersOk(s.pool) && !Ignored(s, n)
    ensures var r := NotifyCb(s, n, conf, cfg); PoolOk(r.pool) && TimersOk(r.pool)
  {
    match conf
    case Legacy =>
      ConfigureWork(s, n, cfg);
      SleepNodeWork(s, n);
    case Configured =>
      SleepNodeWork(s, n);
    case NotConfigured =>
      EnterPool(s.pool, n);
      var s1 := s.(pool := EnterConfiguration(s.pool, n));
      ReconfigureLocal(s1, n, cfg);
      var r := Reconfigure(s1, n, cfg).pool;
      forall m | m in s1.pool.configNodes ensures Covered(r, m) {
        assert Covered(s1.pool, m);
      }
  }

  lemma CallbacksPool(s: State, n: Node, e: EventType, cfg: seq<Kind>)
    requires PoolOk(s.pool) && TimersOk(s.pool) && !Ignored(s, n)
    ensures var r := Callbacks(s, n, e, cfg); PoolOk(r.pool) && TimersOk(r.pool)
  {
    EnterPool(s.pool, n);
    if e.WakeNotify? {
      NotifyPool(s, n, e.conf, cfg);
    }
  }

  lemma HandleHeadPool(s: State, n: Node, e: EventType)
    requires !s.mode.passive && HasHead(s, n) && Ready(Head(s, n))
    ensures var r := HandleHead(s, n, e); r.pool == s.pool || r.pool == LeaveConfiguration(s.pool, n)
  {
    if Succeeds(Head(s, n).kind, e) {
      OnSuccessWork(s, n, e);
      AdvanceLocal(OnSuccess(s, n, e), n);
    } else {
      OnErrorWork(s, n);
    }
  }

  lemma TaskHandlerPool(s: State, n: Node, e: EventType, cfg: seq<Kind>)
    requires PoolOk(s.pool) && TimersOk(s.pool)
    requires !Ignored(s, n) ==> HeadFound(Notice(s, n, e, cfg), n)
    ensures var r := TaskHandler(s, n, e, cfg); PoolOk(r.pool) && TimersOk(r.pool)
  {
    if !Ignored(s, n) {
      CallbacksPool(s, n, e, cfg);
      var p := Callbacks(s, n, e, cfg).pool;
      if n in p.configNodes {
        RestartPool(p, n);
      }
      var s1 := Notice(s, n, e, cfg);
      LeavePool(s1.pool, n);
      if n in s1.queue {
        HandleHeadPool(s1, n, e);
      }
    }
  }

  lemma {:induction false} WithoutIs(ns: seq<Node>, n: Node)
    requires Distinct(ns)
    ensures Distinct(Without(ns, n))
    ensures forall m :: m in Without(ns, n) <==> m in ns && m != n
  {
    if ns != [] {
      if ns[0] == n {
        assert forall m | m in ns :: m == n || m in ns[1..];
      } else {
        WithoutIs(ns[1..], n);
        var r := Without(ns[1..], n);
        assert forall i | 0 <= i < |r| :: r[i] in r && r[i] in ns[1..];
      }
    }
  }

  lemma WhitelistRemovePool(s: State, n: Node)
    requires PoolOk(s.pool) && TimersOk(s.pool)
    ensures var r := WhitelistRemove(s, n);
      && PoolOk(r.pool) && TimersOk(r.pool)
      && n !in r.pool.whitelist && n !in r.pool.configNodes && n !in r.pool.configuring
      && (n in s.pool.whitelist ==> n !in r.queue)
  {
    LeavePool(s.pool, n);
    WithoutIs(s.pool.whitelist, n);
    var s1 := if InQueue(s, n) then CleanTasks(s, n) else s;
    assert s1.pool.whitelist == s.pool.whitelist;
  }

  lemma ExpirePool(p: Pool, t: nat)
    requires PoolOk(p) && TimersOk(p)
    ensures var r := ExpireTimer(p, t); PoolOk(r) && TimersOk(r)
  {
    if t in p.armed {
      var r := ExpireTimer(p, t);
      forall m | m in r.configNodes ensures Covered(r, m) {
        assert Covered(p, m);
      }
    }
  }

  lemma ConfigTimeoutPool(s: State, n: Node)
    requires PoolOk(s.pool) && TimersOk(s.pool)
    ensures var r := ConfigTimeoutHandler(s, n);
      && n !in r.queue && n !in r.pool.configNodes && n !in r.pool.configuring && n !in r.pool.whitelist
      && PoolOk(r.pool) && TimersOk(r.pool)
      && PoolOk(Settle(r.pool, n)) && TimersOk(Settle(r.pool, n))
  {
    WhitelistRemovePool(s, n);
    var p := WhitelistRemove(s, n).pool;
    var r := Settle(p, n);
    assert ConfigTimeoutHandler(s, n).pool == p;
    forall m | m in r.configNodes ensures Covered(r, m) {
      assert Covered(p, m) && m != n;
    }
  }

  /** An expired timer, dispatched: the node leaves the queue, both configuration tables and
      the whitelist. */
  lemma DeliverRemoves(s: State, n: Node)
    requires Inv(s) && n in s.pool.undelivered
    ensures var r := Step(s, Deliver(n));
      && Inv(r)
      && n !in r.queue && n !in r.pool.configNodes && n !in r.pool.configuring && n !in r.pool.whitelist
      && Others(r, n) == Others(s, n)
  {
    LookupsSucceed(s, n, ConfigurationTimeout, []);
    TaskHandlerQueues(s, n, ConfigurationTimeout, []);
    TaskHandlerPool(s, n, ConfigurationTimeout, []);
    hide TaskHandler, ConfigTimeoutHandler;
    var s1 := TaskHandler(s, n, ConfigurationTimeout, []);
    ConfigTimeoutQueues(s1, n);
    ConfigTimeoutLocal(s1, n);
    ConfigTimeoutPool(s1, n);
  }

  lemma AddKeepsInv(s: State, n: Node, k: Kind)
    requires Inv(s) && LabelOk(Add(n, k))
    ensures Inv(Step(s, Add(n, k)))
  {
    AddTaskNode(Create(s, n), n, Fresh(s, k));
    ScheduleWork(s, n, k);
    QueuesFrame(s, Schedule(s, n, k), n);
  }

  lemma ForbidKeepsInv(s: State, n: Node)
    requires Inv(s)
    ensures Inv(Step(s, Forbid(n)))
  {
    WhitelistRemovePool(s, n);
    ForbidQueues(s, n);
    hide WhitelistRemove, QueuesOk, PoolOk, TimersOk;
  }

  lemma ForbidQueues(s: State, n: Node)
    requires QueuesOk(s)
    ensures QueuesOk(WhitelistRemove(s, n))
  {
    CleanLocal(s, n);
    QueuesFrame(s, WhitelistRemove(s, n), n);
  }

  lemma EventKeepsInv(s: State, n: Node, e: EventType, cfg: seq<Kind>)
    requires Inv(s) && LabelOk(Event(n, e, cfg))
    ensures Inv(Step(s, Event(n, e, cfg)))
  {
    LookupsSucceed(s, n, e, cfg);
    hide TaskHandler, Notice, HeadFound, QueuesOk, PoolOk, TimersOk;
    TaskHandlerQueues(s, n, e, cfg);
    TaskHandlerPool(s, n, e, cfg);
  }

  /** The labels that touch neither a queue nor a timer. */
  lemma PermitKeepsInv(s: State, l: Label)
    requires Inv(s) && (l.Permit? || l.Cancel? || l.WantSleepTime? || l.SetListener?)
    ensures Inv(Step(s, l))
  {
    if l.Cancel? {
      CancelWork(s, l.node);
    }
  }

  lemma StepKeepsInv(s: State, l: Label)
    requires Inv(s) && LabelOk(l)
    ensures Inv(Step(s, l))
  {
    match l
    case Add(n, k) => AddKeepsInv(s, n, k);
    case Forbid(n) => ForbidKeepsInv(s, n);
    case Event(n, e, cfg) => EventKeepsInv(s, n, e, cfg);
    case Expire(t) => ExpirePool(s.pool, t);
    case Deliver(n) =>
      if n in s.pool.undelivered {
        DeliverRemoves(s, n);
      }
    case _ => PermitKeepsInv(s, l);
    hide WhitelistRemove, TaskHandler, ConfigTimeoutHandler, Schedule, ExpireTimer, PoolOk, TimersOk;
  }

  // ---- Runs

  ghost predicate RunOk(ls: seq<Label>) {
    forall i | 0 <= i < |ls| :: LabelOk(ls[i])
  }

  ghost function Run(s: State, ls: seq<Label>): (r: State)
    requires Inv(s) && RunOk(ls)
    ensures Inv(r)
    decreases |ls|
  {
    if ls == [] then s
    else
      var s1 := Run(s, ls[..|ls| - 1]);
      StepKeepsInv(s1, ls[|ls| - 1]);
      Step(s1, ls[|ls| - 1])
  }

  ghost predicate Reachable(s: State) {
    exists mode, sleepPeriod, ls :: RunOk(ls) && s == RunFrom(mode, sleepPeriod, ls)
  }

  ghost function RunFrom(mode: Mode, sleepPeriod: map<Node, nat>, ls: seq<Label>): State
    requires RunOk(ls)
  {
    Run(Initial(mode, sleepPeriod), ls)
  }

  /** In every reachable state no lookup of an event handler can fail, a wake task is only ever
      the first of a queue, at most ten whitelisted nodes hold a configuration slot, every slot
      will be taken back, and no configuration timer runs for a node without one. */
  lemma SafetyInEveryRun(s: State)
    requires Reachable(s)
    ensures forall n | n in s.queue ::
              && s.queue[n] != [] && WakeOnlyFirst(s.queue[n])
              && (Retrying(s.queue[n][0].kind) ==> s.queue[n][0].retries >= 1)
    ensures s.pool.configuring <= s.pool.configNodes.Keys
    ensures forall n | n in s.pool.configNodes :: n in s.pool.whitelist && Covered(s.pool, n)
    ensures |s.pool.configNodes| <= MAX_CONFIG_NODES
    ensures forall t | t in s.pool.armed ::
              s.pool.armed[t] in s.pool.configNodes && s.pool.configNodes[s.pool.armed[t]] == t
  {
    assert Inv(s);
  }
}
