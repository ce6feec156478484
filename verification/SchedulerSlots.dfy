/** Which events give a node a configuration slot, take it back, and restart its timeout. */
module SchedulerSlots {
  import opened Tasks
  import opened SchedulerSpec
  import opened SchedulerLocality
  import opened SchedulerShape
  import opened SchedulerRuns
  import opened SchedulerProgress
  import opened SchedulerWhitelist

  /** The node holds a slot, or the event gives it one of those that are free. */
  predicate GetsSlot(s: State, l: Label, n: Node) {
    n in s.pool.configNodes || (Renews(l, n) && |s.pool.configNodes| < MAX_CONFIG_NODES)
  }

  /** The success of a sleep, an alive or a reset task. */
  ghost predicate EndsTalk(s: State, l: Label, n: Node) {
    Advances(s, n, l) && Terminal(Head(s, n).kind)
  }

  lemma EnteredSlots(p: Pool, n: Node)
    ensures var r := EnterConfiguration(p, n);
      && (n in r.configNodes <==> n in p.configNodes || |p.configNodes| < MAX_CONFIG_NODES)
      && p.nextTimer <= r.nextTimer && (n in p.configNodes ==> r == p)
  {
  }

  lemma NotifiedSlots(s: State, n: Node, conf: NotifyConf, cfg: seq<Kind>)
    requires !s.mode.passive
    ensures var p := NotifyCb(s, n, conf, cfg).pool;
      && p.configNodes == (if conf.NotConfigured? then EnterConfiguration(s.pool, n) else s.pool).configNodes
      && p.armed == (if conf.NotConfigured? then EnterConfiguration(s.pool, n) else s.pool).armed
      && p.nextTimer == (if conf.NotConfigured? then EnterConfiguration(s.pool, n) else s.pool).nextTimer
  {
    SleepNodeWork(s, n);
    ConfigureWork(s, n, cfg);
    ReconfigureLocal(s.(pool := EnterConfiguration(s.pool, n)), n, cfg);
    hide SleepNode, Configure, Reconfigure, EnterConfiguration;
  }

  lemma CallbacksSlots(s: State, l: Label, n: Node)
    requires l.Event? && l.node == n && !Ignored(s, n)
    ensures var p := Callbacks(s, n, l.event, l.cfg).pool;
      && (n in p.configNodes <==> GetsSlot(s, l, n))
      && s.pool.nextTimer <= p.nextTimer
      && (n in s.pool.configNodes ==> p.configNodes == s.pool.configNodes && p.armed == s.pool.armed)
  {
    EnteredSlots(s.pool, n);
    hide EnterConfiguration, NotifyCb;
    if l.event.WakeNotify? {
      NotifiedSlots(s, n, l.event.conf, l.cfg);
    }
  }

  /** The slot has a timer newer than those before, which is running; the one before is not. */
  predicate Restarted(s: State, r: State, n: Node) {
    && n in r.pool.configNodes
    && var t := r.pool.configNodes[n];
       && t >= s.pool.nextTimer && t in r.pool.armed && r.pool.armed[t] == n
       && (n in s.pool.configNodes ==> s.pool.configNodes[n] !in r.pool.armed)
  }

  lemma NoticeSlots(s: State, l: Label, n: Node)
    requires Inv(s) && l.Event? && l.node == n && !Ignored(s, n)
    ensures var r := Notice(s, n, l.event, l.cfg);
      (n in r.pool.configNodes <==> GetsSlot(s, l, n)) && (GetsSlot(s, l, n) ==> Restarted(s, r, n))
  {
    CallbacksSlots(s, l, n);
    hide Callbacks, GetsSlot, QueuesOk, PoolOk;
  }

  lemma SuccessHead(s: State, n: Node, e: EventType)
    requires HasHead(s, n) && Ready(Head(s, n))
    ensures var r := OnSuccess(s, n, e); r.pool == s.pool && Head(r, n).kind == Head(s, n).kind
  {
    OnSuccessWork(s, n, e);
  }

  lemma AdvanceSlots(s: State, n: Node)
    requires !s.mode.passive && HasHead(s, n)
    ensures var r := Advance(s, n);
      if Terminal(Head(s, n).kind) then n !in r.pool.configNodes else r.pool == s.pool
  {
    AdvanceLocal(s, n);
    hide Execute, SleepNode;
  }

  lemma HeadSlots(s: State, n: Node, e: EventType)
    requires !s.mode.passive && HasHead(s, n) && Ready(Head(s, n))
    ensures var r := HandleHead(s, n, e);
      if Succeeds(Head(s, n).kind, e) && Terminal(Head(s, n).kind) then n !in r.pool.configNodes
      else r.pool == s.pool
  {
    hide OnSuccess, Advance, OnError;
    if Succeeds(Head(s, n).kind, e) {
      SuccessHead(s, n, e);
      AdvanceSlots(OnSuccess(s, n, e), n);
    } else {
      OnErrorWork(s, n);
    }
  }

  /** A node holds a slot behind an event exactly if it held one, or the event asks for one and one is
      free, and no task of it that ends the conversation succeeds. Every event of a node with a slot
      starts its timeout anew. */
  lemma EventSlots(s: State, l: Label, n: Node)
    requires Inv(s) && LabelOk(l) && l.Event? && l.node == n && !Ignored(s, n)
    ensures var r := Step(s, l);
      && (n in r.pool.configNodes <==> GetsSlot(s, l, n) && !EndsTalk(s, l, n))
      && (n in r.pool.configNodes ==> Restarted(s, r, n))
  {
    EventIsHandled(s, n, l.event, l.cfg);
    NoticeSlots(s, l, n);
    hide Step, Notice, HandleHead, GetsSlot, Restarted, Inv, CallbackOk, EndsTalk;
    var s1 := Notice(s, n, l.event, l.cfg);
    HeadEndsTalk(s, l, n, s1);
    if n in s1.queue {
      HeadSlots(s1, n, l.event);
      SameRestarted(s, s1, Step(s, l), n);
    }
  }

  lemma HeadEndsTalk(s: State, l: Label, n: Node, s1: State)
    requires Inv(s) && l.Event? && l.node == n && !Ignored(s, n) && s1 == Notice(s, n, l.event, l.cfg)
    requires HeadFound(s1, n)
    ensures EndsTalk(s, l, n) <==>
              n in s1.queue && Succeeds(Head(s1, n).kind, l.event) && Terminal(Head(s1, n).kind)
  {
    hide Notice, QueuesOk, TimersOk;
    if !l.event.WakeNotify? {
      NoticeQuiet(s, n, l.event, l.cfg);
    }
  }

  lemma SameRestarted(s: State, a: State, b: State, n: Node)
    ensures a.pool == b.pool ==> (Restarted(s, a, n) <==> Restarted(s, b, n))
  {
  }

  /** What is not whitelisted, and everything in passive mode, is ignored. */
  lemma IgnoredEvents(s: State, l: Label)
    requires Inv(s) && LabelOk(l) && l.Event? && (s.mode.passive || l.node !in s.pool.whitelist)
    ensures Step(s, l) == s
  {
    EventIsHandled(s, l.node, l.event, l.cfg);
    hide Step;
  }
}
