/** How long a node that has been configured stays in the whitelist. */
module SchedulerWhitelist {
  import opened Tasks
  import opened SchedulerSpec
  import opened SchedulerLocality
  import opened SchedulerRuns
  import opened SchedulerProgress

  /** The events that can give a node a configuration slot. */
  predicate Renews(l: Label, n: Node) {
    l.Event? && l.node == n && (l.event.WakeReset? || l.event == WakeNotify(NotConfigured))
  }

  /** Whitelisted, and not in configuration. */
  predicate Free(s: State, n: Node) {
    n in s.pool.whitelist && n !in s.pool.configNodes
  }

  /** The application forbids the node, or the event of a timeout that has expired arrives. */
  predicate Drops(l: Label, n: Node, expired: bool) {
    l == Forbid(n) || (expired && l == Deliver(n))
  }

  // ---- Events that have expired but are not dispatched

  lemma SuccessKeepsUndelivered(s: State, n: Node, l: Label)
    requires Inv(s) && LabelOk(l) && Advances(s, n, l)
    ensures Step(s, l).pool.undelivered == s.pool.undelivered
  {
    SuccessStep(s, n, l);
    var s1 := Notice(s, n, l.event, l.cfg);
    CallbacksUndelivered(s, n, l.event, l.cfg);
    hide Callbacks, NotifyCb, Step;
    assert s1.pool.undelivered == s.pool.undelivered;
    OnSuccessWork(s1, n, l.event);
    AdvanceLocal(OnSuccess(s1, n, l.event), n);
  }

  lemma CallbacksUndelivered(s: State, n: Node, e: EventType, cfg: seq<Kind>)
    requires !Ignored(s, n)
    ensures Callbacks(s, n, e, cfg).pool.undelivered == s.pool.undelivered
  {
    hide Configure, SleepNode, Reconfigure;
    if e.WakeNotify? {
      match e.conf
      case Legacy =>
        ConfigureWork(s, n, cfg);
        SleepNodeWork(s, n);
      case Configured => SleepNodeWork(s, n);
      case NotConfigured => ReconfigureLocal(s.(pool := EnterConfiguration(s.pool, n)), n, cfg);
    }
  }

  lemma EventUndelivered(s: State, n: Node, e: EventType, cfg: seq<Kind>)
    requires !Ignored(s, n) ==> HeadFound(Notice(s, n, e, cfg), n)
    ensures TaskHandler(s, n, e, cfg).pool.undelivered == s.pool.undelivered
  {
    if !Ignored(s, n) {
      CallbacksUndelivered(s, n, e, cfg);
      hide Callbacks, HandleHead;
      var s1 := Notice(s, n, e, cfg);
      if n in s1.queue {
        HandleHeadPool(s1, n, e);
      }
    }
  }

  lemma RemovalUndelivered(s: State, n: Node)
    ensures WhitelistRemove(s, n).pool.undelivered == s.pool.undelivered
    ensures ConfigTimeoutHandler(s, n).pool.undelivered == s.pool.undelivered
  {
    hide Without;
  }

  /** Only the timer of a node in configuration can expire, and only its own event is taken away by
      a dispatch. */
  lemma UndeliveredStays(s: State, l: Label, n: Node)
    requires Inv(s) && LabelOk(l) && n !in s.pool.configNodes && l != Deliver(n)
    ensures n in Step(s, l).pool.undelivered <==> n in s.pool.undelivered
  {
    hide TaskHandler, Notice, HeadFound, ConfigTimeoutHandler, WhitelistRemove, QueuesOk, PoolOk;
    match l
    case Add(m, k) => ScheduleWork(s, m, k);
    case Forbid(m) => RemovalUndelivered(s, m);
    case Event(m, e, cfg) =>
      LookupsSucceed(s, m, e, cfg);
      EventUndelivered(s, m, e, cfg);
    case Deliver(m) =>
      if m in s.pool.undelivered {
        LookupsSucceed(s, m, ConfigurationTimeout, []);
        EventUndelivered(s, m, ConfigurationTimeout, []);
        RemovalUndelivered(TaskHandler(s, m, ConfigurationTimeout, []), m);
      }
    case _ =>
  }

  // ---- One step

  lemma NoticeKeepsPool(s: State, n: Node, e: EventType, cfg: seq<Kind>)
    requires !Ignored(s, n) && n !in s.pool.configNodes && !Renews(Event(n, e, cfg), n)
    ensures Notice(s, n, e, cfg).pool == s.pool
  {
    hide SleepNode, Configure, Reconfigure;
    if e.WakeNotify? {
      SleepNodeWork(s, n);
    }
  }

  lemma HandlerKeepsPool(s: State, n: Node, e: EventType, cfg: seq<Kind>)
    requires n !in s.pool.configNodes && !Renews(Event(n, e, cfg), n)
    requires !Ignored(s, n) ==> HeadFound(Notice(s, n, e, cfg), n)
    ensures TaskHandler(s, n, e, cfg).pool == s.pool
  {
    if !Ignored(s, n) {
      NoticeKeepsPool(s, n, e, cfg);
      hide HandleHead, Notice, Renews, Ready;
      var s1 := Notice(s, n, e, cfg);
      if n in s1.queue {
        HandleHeadPool(s1, n, e);
      }
    }
  }

  /** The events of a node that is not in configuration leave the pool as it is. */
  lemma EventKeepsPool(s: State, n: Node, e: EventType, cfg: seq<Kind>)
    requires Inv(s) && LabelOk(Event(n, e, cfg)) && n !in s.pool.configNodes && !Renews(Event(n, e, cfg), n)
    ensures Step(s, Event(n, e, cfg)).pool == s.pool
  {
    LookupsSucceed(s, n, e, cfg);
    hide TaskHandler, Notice, HeadFound, PoolOk, TimersOk, QueuesOk;
    HandlerKeepsPool(s, n, e, cfg);
  }

  /** In one step a free node leaves the whitelist exactly if the step drops it, and it takes no
      slot unless the step renews its configuration. */
  lemma FreeStep(s: State, l: Label, n: Node)
    requires Inv(s) && LabelOk(l) && Free(s, n) && !Renews(l, n)
    ensures var r := Step(s, l);
      && n !in r.pool.configNodes
      && (n in r.pool.whitelist <==> !Drops(l, n, n in s.pool.undelivered))
      && (!Drops(l, n, n in s.pool.undelivered) ==> (n in r.pool.undelivered <==> n in s.pool.undelivered))
  {
    if !About(l, n) {
      StepOther(s, l, n);
      UndeliveredStays(s, l, n);
    } else {
      match l
      case Add(_, k) => ScheduleWork(s, n, k);
      case Forbid(_) => WhitelistRemovePool(s, n);
      case Event(_, e, cfg) => EventKeepsPool(s, n, e, cfg);
      case Deliver(_) =>
        if n in s.pool.undelivered {
          DeliverRemoves(s, n);
        }
      case _ =>
    }
  }

  // ---- Runs

  lemma {:induction false} FreeRun(s: State, n: Node, ls: seq<Label>)
    requires Inv(s) && RunOk(ls) && Free(s, n)
    requires forall l | l in ls :: !Renews(l, n) && !Drops(l, n, n in s.pool.undelivered)
    ensures var r := Run(s, ls); Free(r, n) && (n in r.pool.undelivered <==> n in s.pool.undelivered)
    decreases |ls|
  {
    if ls != [] {
      var init, l := ls[..|ls| - 1], ls[|ls| - 1];
      assert l in ls && forall k | k in init :: k in ls;
      FreeRun(s, n, init);
      hide Step, Inv;
      FreeStep(Run(s, init), l, n);
    }
  }

  /** The first label that drops the node. */
  lemma {:induction false} FirstDrop(n: Node, expired: bool, ls: seq<Label>) returns (i: nat)
    requires exists l | l in ls :: Drops(l, n, expired)
    ensures i < |ls| && Drops(ls[i], n, expired) && forall k | k in ls[..i] :: !Drops(k, n, expired)
  {
    i := 0;
    while !Drops(ls[i], n, expired)
      invariant i < |ls| && forall k | k in ls[..i] :: !Drops(k, n, expired)
      invariant exists j :: i <= j < |ls| && Drops(ls[j], n, expired)
      decreases |ls| - i
    {
      assert ls[..i + 1] == ls[..i] + [ls[i]];
      i := i + 1;
    }
  }

  lemma DropsInRun(s: State, n: Node, ls: seq<Label>, i: nat)
    requires Inv(s) && RunOk(ls) && Free(s, n) && forall l | l in ls :: !Renews(l, n)
    requires i < |ls| && Drops(ls[i], n, n in s.pool.undelivered)
    requires forall k | k in ls[..i] :: !Drops(k, n, n in s.pool.undelivered)
    ensures n !in Run(s, ls[..i + 1]).pool.whitelist
  {
    assert forall k | k in ls[..i] :: k in ls;
    FreeRun(s, n, ls[..i]);
    assert ls[..i + 1][..i] == ls[..i] && ls[i] in ls;
    hide Step, Inv, Renews;
    FreeStep(Run(s, ls[..i]), ls[i], n);
  }

  /** Exactly which runs keep a node in the whitelist until it is configured again: those in which
      the application does not forbid it and no expired timeout of it is dispatched. */
  lemma FreeNodesStay(s: State, n: Node, ls: seq<Label>)
    requires Inv(s) && RunOk(ls) && Free(s, n) && forall l | l in ls :: !Renews(l, n)
    ensures (forall i | 0 <= i <= |ls| :: n in Run(s, ls[..i]).pool.whitelist) <==>
              Forbid(n) !in ls && (n in s.pool.undelivered ==> Deliver(n) !in ls)
  {
    var expired := n in s.pool.undelivered;
    if l :| l in ls && Drops(l, n, expired) {
      var i := FirstDrop(n, expired, ls);
      DropsInRun(s, n, ls, i);
    } else {
      hide Step, Inv;
      forall i | 0 <= i <= |ls| ensures n in Run(s, ls[..i]).pool.whitelist {
        assert forall k | k in ls[..i] :: k in ls;
        FreeRun(s, n, ls[..i]);
      }
    }
  }

  /** The success that ends a node's configuration leaves it free, and its expired timeouts waiting:
      the dispatch of one drops the node, which has just been configured, from the whitelist. */
  lemma FinishedNodesStay(s: State, n: Node, l: Label, ls: seq<Label>)
    requires Inv(s) && LabelOk(l) && Advances(s, n, l) && n !in Step(s, l).queue
    requires RunOk(ls) && forall k | k in ls :: !Renews(k, n)
    ensures var r := Step(s, l);
      && Inv(r) && Free(r, n) && n !in r.pool.configuring
      && (n !in Step(r, Deliver(n)).pool.whitelist <==> n in s.pool.undelivered)
      && ((forall i | 0 <= i <= |ls| :: n in Run(r, ls[..i]).pool.whitelist) <==>
            Forbid(n) !in ls && (n in s.pool.undelivered ==> Deliver(n) !in ls))
  {
    SuccessDrains(s, n, l);
    StepKeepsInv(s, l);
    SuccessKeepsUndelivered(s, n, l);
    hide Step, Inv;
    FreeStep(Step(s, l), Deliver(n), n);
    FreeNodesStay(Step(s, l), n, ls);
  }
}
