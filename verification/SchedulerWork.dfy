/** What becomes of the tasks of a node: exactly which steps take a task out of its queue, and what
    the queue is behind each. */
module SchedulerWork {
  import opened Tasks
  import opened SchedulerSpec
  import opened SchedulerLocality
  import opened SchedulerShape
  import opened SchedulerRuns
  import opened SchedulerProgress
  import opened SchedulerSleep
  import opened SchedulerRetries
  import opened SchedulerMessages

  // ---- The queue behind a step

  /** A task that is added goes last; without a queue it goes behind a wake task, or for an awake
      node it is tried at once; in passive mode it is not queued. */
  lemma AddStep(s: State, n: Node, k: Kind)
    requires Inv(s) && LabelOk(Add(n, k))
    ensures var r := Step(s, Add(n, k)); var t := Task(s.trace.nextId, k, 0);
      && (s.mode.passive ==> r.queue == s.queue)
      && (!s.mode.passive ==> n in r.queue)
      && (!s.mode.passive && n in s.queue ==> r.queue[n] == s.queue[n] + [t])
      && (GoesAtOnce(s, n) ==> r.queue[n] == Tried([t]))
      && (!s.mode.passive && n !in s.queue && !GoesAtOnce(s, n) ==>
            r.queue[n] == [Task(s.trace.nextId + 1, Wake, 0), t])
  {
    ExecuteTries(SetQueue(Create(s, n), n, [Fresh(s, k)]), n);
    hide Execute;
  }

  lemma CallbacksIds(s: State, n: Node, e: EventType, cfg: seq<Kind>)
    requires !s.mode.passive && !e.WakeNotify?
    ensures var r := Notice(s, n, e, cfg);
      && r.trace.nextId == s.trace.nextId
      && (!e.WakeReset? ==> (n in r.pool.configNodes <==> n in s.pool.configNodes))
  {
    hide NotifyCb;
  }

  /** The events of a node that are no notifications are left to its head, behind the callbacks. */
  lemma EventStep(s: State, n: Node, e: EventType, cfg: seq<Kind>)
    requires Inv(s) && LabelOk(Event(n, e, cfg)) && !Ignored(s, n) && !e.WakeNotify?
    ensures var s1 := Notice(s, n, e, cfg);
      && s1.queue == s.queue && s1.mode == s.mode && s1.trace.nextId == s.trace.nextId
      && (!e.WakeReset? ==> (n in s1.pool.configNodes <==> n in s.pool.configNodes))
      && (n in s.queue ==> HeadFound(s1, n) && Step(s, Event(n, e, cfg)) == HandleHead(s1, n, e))
      && (n !in s.queue ==> Step(s, Event(n, e, cfg)) == s1)
  {
    EventIsHandled(s, n, e, cfg);
    CallbacksIds(s, n, e, cfg);
    hide Step, HandleHead, QueuesOk, TimersOk, HeadFound, Notice;
    NoticeQuiet(s, n, e, cfg);
  }

  /** A timeout of a command that has tries left sends it once more. */
  lemma RepeatStep(s: State, n: Node, cfg: seq<Kind>)
    requires Inv(s) && CallbackOk(cfg) && !Ignored(s, n) && HasHead(s, n)
    requires Retrying(Head(s, n).kind) && Head(s, n).retries < MAX_RETRIES
    ensures var r := Step(s, Event(n, TaskTimeout, cfg));
      n in r.queue && r.queue[n] == Tried(s.queue[n])
  {
    EventStep(s, n, TaskTimeout, cfg);
    var s1 := Notice(s, n, TaskTimeout, cfg);
    ExecuteTries(s1, n);
    hide Step, Notice, Execute, RescheduleTasks;
  }

  /** When its tries are used up, a low-power node keeps all its tasks behind a new wake task, and any
      other loses its queue. */
  lemma ExhaustedStep(s: State, n: Node, cfg: seq<Kind>)
    requires Inv(s) && CallbackOk(cfg) && !Ignored(s, n) && HasHead(s, n)
    requires Retrying(Head(s, n).kind) && Head(s, n).retries >= MAX_RETRIES
    ensures var r := Step(s, Event(n, TaskTimeout, cfg));
      if IsLowPower(n) then n in r.queue && r.queue[n] == [Task(s.trace.nextId, Wake, 0)] + s.queue[n]
      else n !in r.queue
  {
    EventStep(s, n, TaskTimeout, cfg);
    hide Step, Notice, Execute;
  }

  /** The tasks that the success of the head leaves: those behind it and, for an update that was
      accepted, the reboot of the node. */
  function LeftBy(s: State, n: Node, e: EventType): seq<Task>
    requires HasHead(s, n)
  {
    s.queue[n][1..] +
    if Head(s, n).kind.Ota? && e.OtaAck? && e.status == 0
    then [Task(s.trace.nextId, New(TASK_OP_UPDATE, 0), 0)] else []
  }

  /** Without tasks a low-power node, or one that holds a slot, is put to sleep. */
  predicate IsPutToSleep(s: State, n: Node) {
    n in s.pool.configNodes || IsLowPower(n)
  }

  /** All tasks are newer than the state. */
  predicate AllNew(q: seq<Task>, s: State) {
    forall i | 0 <= i < |q| :: q[i].id >= s.trace.nextId
  }

  lemma ScheduleNew(s: State, s0: State, n: Node, k: Kind)
    requires !s.mode.passive && (n in s.queue ==> AllNew(s.queue[n], s0)) && s0.trace.nextId <= s.trace.nextId
    ensures var r := Schedule(s, n, k);
      n in r.queue && AllNew(r.queue[n], s0) && s0.trace.nextId <= r.trace.nextId
  {
  }

  lemma SetSleepTimeNew(s: State, n: Node)
    requires !s.mode.passive && (n in s.queue ==> s.queue[n] == [])
    ensures var r := SetSleepTime(s, n);
      n in r.queue && AllNew(r.queue[n], s) && s.trace.nextId <= r.trace.nextId
  {
    var k := DeleteOp(TASK_OP_CONF);
    ScheduleNew(s, s, n, k);
    ScheduleNew(if n in s.pool.configNodes then s else Schedule(s, n, k), s, n, New(TASK_OP_CONF, s.mode.sleepTime));
    ScheduleNew(s, s, n, Change(TASK_OP_CONF, s.mode.sleepTime));
    hide Schedule;
  }

  function Kinds(q: seq<Task>): seq<Kind> {
    seq(|q|, i requires 0 <= i < |q| => q[i].kind)
  }

  /** The tasks that put a node to sleep, by the sleep time it is known to use: a mains-powered node
      is only asked whether it is alive. Any other is sent the wanted time first, if that differs, in
      legacy mode by a new task in place of the one before, which a node with a slot does not have
      yet. Without a queue it has to wake up for that. */
  function SleepPlan(n: Node, period: nat, mode: Mode, slot: bool, queued: bool): seq<Kind> {
    if !IsLowPower(n) then [Alive]
    else if period == mode.sleepTime then [Sleep]
    else
      (if queued then [] else [Wake])
      + (if mode.legacy && !slot then [DeleteOp(TASK_OP_CONF)] else [])
      + [if mode.legacy then New(TASK_OP_CONF, mode.sleepTime) else Change(TASK_OP_CONF, mode.sleepTime), Sleep]
  }

  /** The queue holds new tasks of these kinds, and the first has been tried if it is a command. */
  predicate Planned(s: State, q: seq<Task>, kinds: seq<Kind>) {
    && Kinds(q) == kinds && AllNew(q, s) && q != []
    && q[0].retries == (if Retrying(q[0].kind) then 1 else 0)
    && forall i | 1 <= i < |q| :: q[i].retries == 0
  }

  lemma SleepNodeNew(s: State, n: Node)
    requires !s.mode.passive && (n in s.queue ==> s.queue[n] == [])
    ensures var q := SleepNode(s, n).queue[n];
      AllNew(q, s) && q != [] && forall i | 0 <= i < |q| :: q[i].retries == 0
  {
    if IsLowPower(n) && SleepPeriod(s, n) != s.mode.sleepTime {
      SetSleepTimeNew(s, n);
      hide SetSleepTime;
    }
  }

  lemma SleepNodeKinds(s: State, n: Node)
    requires !s.mode.passive && (n in s.queue ==> s.queue[n] == [])
    ensures Kinds(SleepNode(s, n).queue[n])
         == SleepPlan(n, SleepPeriod(s, n), s.mode, n in s.pool.configNodes, n in s.queue)
  {
    if IsLowPower(n) && SleepPeriod(s, n) != s.mode.sleepTime {
      PlanTasks(s, n);
      PlanKinds(s, n, SleepNode(s, n).queue[n]);
      hide SleepNode;
    }
  }

  lemma PlanKinds(s: State, n: Node, q: seq<Task>)
    requires IsPlan(s, n, q) && IsLowPower(n) && SleepPeriod(s, n) != s.mode.sleepTime
    ensures Kinds(q) == SleepPlan(n, SleepPeriod(s, n), s.mode, n in s.pool.configNodes, n in s.queue)
  {
    assert n !in s.queue ==> q[0].kind == Wake;
  }

  lemma TriedPlan(s: State, q: seq<Task>, kinds: seq<Kind>)
    requires Kinds(q) == kinds && AllNew(q, s) && q != [] && forall i | 0 <= i < |q| :: q[i].retries == 0
    ensures Planned(s, Tried(q), kinds)
  {
    assert forall i | 0 <= i < |q| :: Tried(q)[i].kind == Kinds(q)[i];
  }

  lemma AdvanceQueue(s: State, n: Node)
    requires !s.mode.passive && HasHead(s, n)
    ensures var r := Advance(s, n); var rest := s.queue[n][1..];
      && (Terminal(Head(s, n).kind) ==> n !in r.queue && n !in r.pool.configNodes)
      && (!Terminal(Head(s, n).kind) && rest != [] ==> n in r.queue && r.queue[n] == Tried(rest))
      && (!Terminal(Head(s, n).kind) && rest == [] ==>
            if IsPutToSleep(s, n) then
              n in r.queue
              && Planned(s, r.queue[n], SleepPlan(n, SleepPeriod(s, n), s.mode, n in s.pool.configNodes, true))
            else n !in r.queue)
  {
    var rest := s.queue[n][1..];
    var s1 := SetQueue(s, n, rest);
    if Terminal(Head(s, n).kind) {
    } else if rest != [] {
      ExecuteTries(s1, n);
      hide Execute;
    } else if IsPutToSleep(s, n) {
      SleepNodeNew(s1, n);
      SleepNodeKinds(s1, n);
      var s2 := SleepNode(s1, n);
      TriedPlan(s, s2.queue[n], Kinds(s2.queue[n]));
      ExecuteTries(s2, n);
      hide Planned, Kinds, SleepPlan, Tried;
      hide Execute, SleepNode;
      assert Advance(s, n) == Execute(s2, n);
    }
  }

  /** The success of a head that ends the conversation takes the queue and the slot. Any other leaves
      the other tasks in order, and sends the message of the first: a command for the first time, or
      once more. A node without any is put to sleep, or forgotten if it needs no sleep. */
  lemma SuccessGoesOn(s: State, l: Label, n: Node)
    requires Inv(s) && LabelOk(l) && Advances(s, n, l)
    ensures var r := Step(s, l); var rest := LeftBy(s, n, l.event);
      && (Terminal(Head(s, n).kind) ==> n !in r.queue && n !in r.pool.configNodes)
      && (!Terminal(Head(s, n).kind) && rest != [] ==> n in r.queue && r.queue[n] == Tried(rest))
      && (!Terminal(Head(s, n).kind) && rest == [] ==>
            if IsPutToSleep(s, n) then
              n in r.queue
              && Planned(s, r.queue[n],
                         SleepPlan(n, Learn(SleepPeriod(s, n), Head(s, n).kind), s.mode, n in s.pool.configNodes, true))
            else n !in r.queue)
  {
    assert !l.event.WakeReset? && !l.event.WakeNotify?;
    EventStep(s, n, l.event, l.cfg);
    hide Step, Notice, PoolOk, TimersOk;
    var s1 := Notice(s, n, l.event, l.cfg);
    OnSuccessShape(s1, n, l.event);
    OnSuccessWork(s1, n, l.event);
    SuccessIds(s1, n, l.event);
    var s2 := OnSuccess(s1, n, l.event);
    assert s2.queue[n][1..] == LeftBy(s, n, l.event);
    SuccessLearns(s1, n, l.event);
    hide OnSuccess, Advance, Planned, SleepPlan, Learn;
    AdvanceQueue(s2, n);
    if n in Step(s, l).queue {
      OlderPlan(s, s2, Step(s, l).queue[n]);
    }
  }

  lemma OlderPlan(s: State, r: State, q: seq<Task>)
    requires s.trace.nextId <= r.trace.nextId
    ensures forall kinds :: Planned(r, q, kinds) ==> Planned(s, q, kinds)
  {
  }

  /** A head succeeds by the acknowledgement of its own, an update by that of any status; and a task that
      ends the conversation succeeds by a timeout too, so that no node is waited for in vain. */
  lemma SucceedsExactly(s: State, l: Label, n: Node)
    requires l.Event? && l.node == n && !Ignored(s, n) && HasHead(s, n)
    ensures var k := Head(s, n).kind;
      Advances(s, n, l) <==>
        || l.event == SuccessOf(k)
        || (k.Ota? && l.event.OtaAck? && l.event.ack == k.ack)
        || (Terminal(k) && l.event.TaskTimeout?)
  {
  }

  lemma SuccessIds(s: State, n: Node, e: EventType)
    requires HasHead(s, n) && Ready(Head(s, n))
    ensures s.trace.nextId <= OnSuccess(s, n, e).trace.nextId
  {
  }

  // ---- The queue behind a notification

  /** A notification of old firmware lets a node with a slot start over. */
  predicate StartsOver(s: State, l: Label, n: Node) {
    l.Event? && l.node == n && !Ignored(s, n) && l.event == WakeNotify(Legacy) && n in s.pool.configNodes
  }

  /** A notification that starts the configuration of a node. */
  predicate StartsConfiguration(s: State, l: Label, n: Node) {
    && l.Event? && l.node == n && !Ignored(s, n) && l.event == WakeNotify(NotConfigured)
    && n !in s.pool.configuring && (n in s.pool.configNodes || |s.pool.configNodes| < MAX_CONFIG_NODES)
  }

  /** A notification leaves the queue that its callback has made: a head that is no command is told
      again. */
  lemma NotifiedQueue(s: State, n: Node, conf: NotifyConf)
    requires HeadFound(s, n) && n in s.queue
    ensures HandleHead(s, n, WakeNotify(conf)).queue == s.queue
  {
    ExecuteTries(s, n);
    hide Execute;
    assert !Retrying(Head(s, n).kind) ==> Tried(s.queue[n]) == s.queue[n];
    assert s.queue[n := s.queue[n]] == s.queue;
  }

  lemma NotifiedStep(s: State, n: Node, conf: NotifyConf, cfg: seq<Kind>)
    requires Inv(s) && LabelOk(Event(n, WakeNotify(conf), cfg)) && !Ignored(s, n)
    ensures Step(s, Event(n, WakeNotify(conf), cfg)).queue == NotifyCb(s, n, conf, cfg).queue
  {
    var e := WakeNotify(conf);
    LookupsSucceed(s, n, e, cfg);
    var s1 := Notice(s, n, e, cfg);
    assert s1.queue == NotifyCb(s, n, conf, cfg).queue;
    hide Notice, NotifyCb, HandleHead, QueuesOk, PoolOk, TimersOk;
    if n in s1.queue {
      NotifiedQueue(s1, n, conf);
    }
  }

  /** The queue of a node that is only told to sleep if it has none. */
  predicate Settled(s: State, r: State, n: Node) {
    if n in s.queue then n in r.queue && r.queue[n] == s.queue[n]
    else
      n in r.queue
      && Planned(s, r.queue[n], SleepPlan(n, SleepPeriod(s, n), s.mode, n in s.pool.configNodes, false))
  }

  lemma SettledQueue(s: State, n: Node, conf: NotifyConf, cfg: seq<Kind>)
    requires !s.mode.passive && !conf.NotConfigured? && (conf.Legacy? ==> n !in s.pool.configNodes)
    ensures Settled(s, NotifyCb(s, n, conf, cfg), n)
  {
    if n !in s.queue {
      SleepNodeNew(s, n);
      SleepNodeKinds(s, n);
      FirstPlanned(s, SleepNode(s, n).queue[n], n);
    }
    hide SleepNode, Planned, SleepPlan;
  }

  /** What is queued first for a node without a queue to sleep is no command. */
  lemma FirstPlanned(s: State, q: seq<Task>, n: Node)
    requires Kinds(q) == SleepPlan(n, SleepPeriod(s, n), s.mode, n in s.pool.configNodes, false)
    requires AllNew(q, s) && q != [] && forall i | 0 <= i < |q| :: q[i].retries == 0
    ensures Planned(s, q, Kinds(q))
  {
    assert q[0].kind == Kinds(q)[0];
  }

  lemma ConfigurationQueue(s: State, n: Node, cfg: seq<Kind>)
    requires !s.mode.passive && CallbackOk(cfg) && n !in s.pool.configuring
    ensures var r, id := NotifyCb(s, n, NotConfigured, cfg), s.trace.nextId;
      if n in s.pool.configNodes || |s.pool.configNodes| < MAX_CONFIG_NODES
      then n in r.queue && r.queue[n] == [Task(id + 1, Wake, 0)] + (CallbackTasks(id, cfg) + GetTasks(s, n))
      else r.queue == s.queue
  {
    var s1 := s.(pool := EnterConfiguration(s.pool, n));
    hide Reconfigure, CallbackTasks;
    assert GetTasks(s1, n) == GetTasks(s, n);
    if n in s1.pool.configNodes {
      ReconfigureShape(s1, n, cfg);
    }
  }

  /** The configuration starts over without the tasks that waited, and starts with them behind those
      of the callback. Any other notification leaves the tasks that wait as they are; if none do, and
      the node does not ask for a configuration, it is put to sleep. */
  lemma NotificationStep(s: State, l: Label, n: Node)
    requires Inv(s) && LabelOk(l) && l.Event? && l.node == n && l.event.WakeNotify? && !Ignored(s, n)
    ensures var r, id := Step(s, l), s.trace.nextId;
      && (StartsOver(s, l, n) ==>
            n in r.queue && r.queue[n] == [Task(id + 1, Wake, 0)] + CallbackTasks(id, l.cfg))
      && (StartsConfiguration(s, l, n) ==>
            n in r.queue && r.queue[n] == [Task(id + 1, Wake, 0)] + (CallbackTasks(id, l.cfg) + GetTasks(s, n)))
      && (!StartsOver(s, l, n) && !StartsConfiguration(s, l, n) ==>
            if l.event.conf.NotConfigured? then r.queue == s.queue else Settled(s, r, n))
  {
    var conf := l.event.conf;
    NotifiedStep(s, n, conf, l.cfg);
    hide Step, Inv, CallbackTasks, GetTasks, NotifyCb, Settled, CallbackOk, Reconfigure, Configure;
    var cb := NotifyCb(s, n, conf, l.cfg);
    if conf.NotConfigured? {
      if n in s.pool.configuring {
        NothingNotified(s, n, l.cfg);
      } else {
        ConfigurationQueue(s, n, l.cfg);
      }
    } else if StartsOver(s, l, n) {
      ConfigurationStartsOver(s, n, l.cfg);
    } else {
      SettledQueue(s, n, conf, l.cfg);
      SameSettled(s, cb, Step(s, l), n);
    }
  }

  lemma NothingNotified(s: State, n: Node, cfg: seq<Kind>)
    requires !s.mode.passive && n in s.pool.configuring
    ensures NotifyCb(s, n, NotConfigured, cfg).queue == s.queue
  {
    hide Reconfigure;
  }

  lemma ConfigurationStartsOver(s: State, n: Node, cfg: seq<Kind>)
    requires !s.mode.passive && CallbackOk(cfg)
    ensures n in s.pool.configNodes ==>
              var r := NotifyCb(s, n, Legacy, cfg);
              n in r.queue && r.queue[n] == [Task(s.trace.nextId + 1, Wake, 0)] + CallbackTasks(s.trace.nextId, cfg)
  {
    if n in s.pool.configNodes {
      ConfigureShape(s, n, cfg);
    }
    hide Configure;
  }

  lemma SameSettled(s: State, a: State, b: State, n: Node)
    requires a.queue == b.queue
    ensures Settled(s, a, n) <==> Settled(s, b, n)
  {
  }

  lemma PlannedHead(s: State, q: seq<Task>, n: Node)
    requires Planned(s, q, SleepPlan(n, SleepPeriod(s, n), s.mode, n in s.pool.configNodes, false))
    ensures !Retrying(q[0].kind)
  {
    assert q[0].kind == Kinds(q)[0];
  }

  // ---- Which steps take a task out

  /** The tasks of the node that are neither wake nor sleep tasks, by name. */
  function Names(ts: seq<Task>): seq<(nat, Kind)> {
    seq(|ts|, i requires 0 <= i < |ts| => (ts[i].id, ts[i].kind))
  }

  function Work(s: State, n: Node): seq<(nat, Kind)> {
    Names(GetTasks(s, n))
  }

  /** The step takes all tasks of the node out: it is cancelled or forbidden, its configuration times
      out or starts over, its conversation ends, or a mains-powered node has no tries left. */
  ghost predicate Clears(s: State, l: Label, n: Node) {
    || l == Cancel(n)
    || (l == Forbid(n) && n in s.pool.whitelist)
    || (l == Deliver(n) && n in s.pool.undelivered)
    || StartsOver(s, l, n)
    || (Advances(s, n, l) && Terminal(Head(s, n).kind))
    || RunsOut(s, l, n)
  }

  /** The step is the success of the task at the head. */
  ghost predicate Finishes(s: State, l: Label, n: Node) {
    Advances(s, n, l) && Retrying(Head(s, n).kind)
  }

  /** The tasks the step leaves in the queue. */
  ghost function Left(s: State, l: Label, n: Node): seq<(nat, Kind)> {
    if Clears(s, l, n) then []
    else if Finishes(s, l, n) && Work(s, n) != [] then Work(s, n)[1..]
    else Work(s, n)
  }

  /** How many tasks the step puts in front of them. */
  function InFront(s: State, l: Label, n: Node): nat {
    if StartsConfiguration(s, l, n) then |l.cfg| else 0
  }

  /** `after` holds `before` behind `k` others, and all others are newer than `id`. */
  ghost predicate Around(before: seq<(nat, Kind)>, after: seq<(nat, Kind)>, k: nat, id: nat) {
    && k + |before| <= |after| && after[k..k + |before|] == before
    && forall i | 0 <= i < |after| && !(k <= i < k + |before|) :: after[i].0 >= id
  }

  /** What the step leaves of the tasks of `n`, in the state `r` behind it. */
  ghost predicate Leaves(s: State, l: Label, r: State, n: Node) {
    Around(Left(s, l, n), Work(r, n), InFront(s, l, n), s.trace.nextId)
  }

  lemma NamesConcat(a: seq<Task>, b: seq<Task>)
    ensures Names(Pending(a + b)) == Names(Pending(a)) + Names(Pending(b))
  {
    PendingConcat(a, b);
  }

  lemma NamesOne(t: Task)
    ensures Names(Pending([t])) == if t.kind.Wake? || t.kind.Sleep? then [] else [(t.id, t.kind)]
  {
    assert [t][..0] == [] && Pending([]) == [];
  }

  lemma NamesTried(q: seq<Task>)
    requires q != []
    ensures Names(Pending(Tried(q))) == Names(Pending(q))
  {
    assert q == [q[0]] + q[1..];
    NamesConcat([q[0]], q[1..]);
    NamesConcat([Tried(q)[0]], q[1..]);
    NamesOne(q[0]);
    NamesOne(Tried(q)[0]);
    hide Names, Pending;
  }

  lemma NamesNew(q: seq<Task>, s: State)
    requires AllNew(q, s)
    ensures forall i | 0 <= i < |Names(Pending(q))| :: Names(Pending(q))[i].0 >= s.trace.nextId
  {
    PendingKinds(q);
    forall i | 0 <= i < |Pending(q)| ensures Pending(q)[i].id >= s.trace.nextId {
      assert Pending(q)[i] in q;
    }
  }

  /** The tasks stay, and newer ones may follow. */
  lemma AroundQueue(s: State, l: Label, r: State, n: Node, before: seq<Task>, more: seq<Task>)
    requires !StartsConfiguration(s, l, n)
    requires Left(s, l, n) == Names(Pending(before))
    requires n in r.queue && Names(Pending(r.queue[n])) == Names(Pending(before + more)) && AllNew(more, s)
    ensures Leaves(s, l, r, n)
  {
    NamesConcat(before, more);
    NamesNew(more, s);
    hide Names, Pending, Left, AllNew, StartsConfiguration;
  }

  lemma AroundNothing(s: State, l: Label, r: State, n: Node)
    requires !StartsConfiguration(s, l, n)
    requires Left(s, l, n) == [] && (n in r.queue ==> AllNew(r.queue[n], s))
    ensures Leaves(s, l, r, n)
  {
    if n in r.queue {
      NamesNew(r.queue[n], s);
    }
    hide Left, StartsConfiguration;
  }

  lemma AroundSame(s: State, l: Label, r: State, n: Node)
    requires !StartsConfiguration(s, l, n) && Left(s, l, n) == Work(s, n)
    requires n in r.queue <==> n in s.queue
    requires n in s.queue ==> r.queue[n] == s.queue[n]
    ensures Leaves(s, l, r, n)
  {
    hide Left, StartsConfiguration, Pending;
  }

  lemma AddLeaves(s: State, n: Node, k: Kind)
    requires Inv(s) && LabelOk(Add(n, k))
    ensures Leaves(s, Add(n, k), Step(s, Add(n, k)), n)
  {
    AddStep(s, n, k);
    var l, r, t := Add(n, k), Step(s, Add(n, k)), Task(s.trace.nextId, k, 0);
    hide Step, Names, Pending, Inv;
    if s.mode.passive {
      AroundSame(s, l, r, n);
    } else if n in s.queue {
      AroundQueue(s, l, r, n, s.queue[n], [t]);
    } else {
      assert Names(Pending([])) == [] by { NamesEmpty(); }
      assert AllNew(r.queue[n], s);
      AroundNothing(s, l, r, n);
    }
  }

  lemma NamesEmpty()
    ensures Names(Pending([])) == []
  {
  }

  /** The names of the tasks behind the head. */
  lemma NamesBehind(s: State, n: Node)
    requires HasHead(s, n)
    ensures var t := Head(s, n);
      Work(s, n) == (if t.kind.Wake? || t.kind.Sleep? then [] else [(t.id, t.kind)])
                    + Names(Pending(s.queue[n][1..]))
  {
    assert s.queue[n] == [Head(s, n)] + s.queue[n][1..];
    NamesConcat([Head(s, n)], s.queue[n][1..]);
    NamesOne(Head(s, n));
  }

  lemma SuccessLeft(s: State, l: Label, n: Node)
    requires Advances(s, n, l)
    ensures !StartsConfiguration(s, l, n)
    ensures Left(s, l, n) == if Terminal(Head(s, n).kind) then [] else Names(Pending(s.queue[n][1..]))
  {
    NamesBehind(s, n);
    hide Names, Pending;
  }

  lemma SuccessLeaves(s: State, l: Label, n: Node)
    requires Inv(s) && LabelOk(l) && Advances(s, n, l)
    ensures Leaves(s, l, Step(s, l), n)
  {
    SuccessGoesOn(s, l, n);
    var r, rest := Step(s, l), LeftBy(s, n, l.event);
    var behind := s.queue[n][1..];
    hide Step, Names, Pending, Inv, LabelOk;
    SuccessLeft(s, l, n);
    hide Left, Leaves, Advances;
    if Terminal(Head(s, n).kind) {
      AroundNothing(s, l, r, n);
    } else {
      if rest != [] {
        NamesTried(rest);
        AroundQueue(s, l, r, n, behind, rest[|behind|..]);
      } else {
        NamesEmpty();
        AroundNothing(s, l, r, n);
      }
    }
  }

  lemma TimeoutLeaves(s: State, l: Label, n: Node)
    requires Inv(s) && LabelOk(l) && l.Event? && l.node == n && l.event.TaskTimeout? && !Ignored(s, n)
    requires HasHead(s, n) && Retrying(Head(s, n).kind)
    ensures Leaves(s, l, Step(s, l), n)
  {
    var r, q := Step(s, l), s.queue[n];
    if Head(s, n).retries < MAX_RETRIES {
      RepeatStep(s, n, l.cfg);
      NamesTried(q);
      hide Step, Names, Pending, Inv;
      assert q + [] == q;
      AroundQueue(s, l, r, n, q, []);
    } else {
      ExhaustedStep(s, n, l.cfg);
      hide Step, Names, Pending, Inv;
      if IsLowPower(n) {
        var wake := Task(s.trace.nextId, Wake, 0);
        NamesConcat([wake], q);
        NamesOne(wake);
        assert [] + Names(Pending(q)) == Names(Pending(q)) && q + [] == q;
        AroundQueue(s, l, r, n, q, []);
      } else {
        AroundNothing(s, l, r, n);
      }
    }
  }

  /** Any other event leaves the queue as it is. */
  lemma IdleStep(s: State, l: Label, n: Node)
    requires Inv(s) && LabelOk(l) && l.Event? && l.node == n && !l.event.WakeNotify?
    requires HasHead(s, n) && !Ignored(s, n) ==>
               && !Succeeds(Head(s, n).kind, l.event)
               && !(l.event.TaskTimeout? && Retrying(Head(s, n).kind))
    ensures Step(s, l).queue == s.queue
  {
    EventIsHandled(s, n, l.event, l.cfg);
    if !Ignored(s, n) {
      EventStep(s, n, l.event, l.cfg);
    }
    hide Step, Notice, QueuesOk, PoolOk, TimersOk;
  }

  lemma NotificationLeft(s: State, l: Label, n: Node)
    requires l.Event? && l.node == n && l.event.WakeNotify?
    ensures Left(s, l, n) == if StartsOver(s, l, n) then [] else Work(s, n)
  {
  }

  lemma NotificationLeaves(s: State, l: Label, n: Node)
    requires Inv(s) && LabelOk(l) && l.Event? && l.node == n && l.event.WakeNotify? && !Ignored(s, n)
    ensures Leaves(s, l, Step(s, l), n)
  {
    NotificationStep(s, l, n);
    NotificationLeft(s, l, n);
    var r, id := Step(s, l), s.trace.nextId;
    hide Step, Work, Inv, LabelOk, Left, Leaves;
    if StartsOver(s, l, n) {
      assert AllNew(r.queue[n], s);
      AroundNothing(s, l, r, n);
    } else if StartsConfiguration(s, l, n) {
      ConfigurationLeaves(s, l, r, n);
    } else if l.event.conf.NotConfigured? || n in s.queue {
      AroundSame(s, l, r, n);
    } else {
      NoWork(s, n);
      AroundNothing(s, l, r, n);
    }
  }

  lemma NoWork(s: State, n: Node)
    requires n !in s.queue
    ensures Work(s, n) == []
  {
  }

  lemma ConfigurationLeaves(s: State, l: Label, r: State, n: Node)
    requires StartsConfiguration(s, l, n) && CallbackOk(l.cfg) && n in r.queue && Left(s, l, n) == Work(s, n)
    requires r.queue[n] == [Task(s.trace.nextId + 1, Wake, 0)]
                           + (CallbackTasks(s.trace.nextId, l.cfg) + GetTasks(s, n))
    ensures Leaves(s, l, r, n)
  {
    var wake, cb, kept := Task(s.trace.nextId + 1, Wake, 0), CallbackTasks(s.trace.nextId, l.cfg), GetTasks(s, n);
    hide Left, Pending;
    CallbackPending(s.trace.nextId, l.cfg);
    KeptPending(s, n);
    NamesConcat([wake], cb + kept);
    NamesOne(wake);
    NamesConcat(cb, kept);
    hide Names, CallbackTasks, CallbackOk, Around;
    assert Work(r, n) == Names(cb) + Names(kept);
    AroundBehind(Names(cb), Names(kept), s.trace.nextId);
  }

  lemma AroundBehind(front: seq<(nat, Kind)>, before: seq<(nat, Kind)>, id: nat)
    requires forall i | 0 <= i < |front| :: front[i].0 >= id
    ensures Around(before, front + before, |front|, id)
  {
  }

  lemma CallbackPending(id: nat, cfg: seq<Kind>)
    requires CallbackOk(cfg)
    ensures var cb := CallbackTasks(id, cfg);
      && Pending(cb) == cb && |Names(cb)| == |cfg|
      && forall i | 0 <= i < |cfg| :: Names(cb)[i].0 >= id
  {
    var cb := CallbackTasks(id, cfg);
    forall t | t in cb ensures !t.kind.Wake? && !t.kind.Sleep? {
      var i :| 0 <= i < |cb| && cb[i] == t;
      assert cb[i].kind == cfg[i] && cfg[i] in cfg;
    }
    PendingAll(cb);
  }

  lemma KeptPending(s: State, n: Node)
    ensures Pending(GetTasks(s, n)) == GetTasks(s, n)
  {
    if n in s.queue {
      PendingKinds(s.queue[n]);
    }
    PendingAll(GetTasks(s, n));
  }

  /** Exactly what a step leaves of the tasks of a node: all of them, in order and behind nothing but
      the tasks of a new configuration, unless it clears the queue or finishes the first. */
  lemma StepLeaves(s: State, l: Label, n: Node)
    requires Inv(s) && LabelOk(l)
    ensures Leaves(s, l, Step(s, l), n)
  {
    hide Leaves, Left, Step, Inv, LabelOk;
    if !About(l, n) {
      StepOther(s, l, n);
      OtherLeft(s, l, n);
      AroundSame(s, l, Step(s, l), n);
    } else if l.Event? {
      EventLeaves(s, l, n);
    } else if l.Add? {
      AddLeaves(s, n, l.kind);
    } else {
      CallLeaves(s, l, n);
    }
  }

  lemma OtherLeft(s: State, l: Label, n: Node)
    requires !About(l, n)
    ensures Left(s, l, n) == Work(s, n) && !StartsConfiguration(s, l, n)
  {
  }

  lemma IdleLeft(s: State, l: Label, n: Node)
    requires l.Event? && l.node == n && !Advances(s, n, l)
    requires Ignored(s, n) || (!l.event.WakeNotify?
               && !(l.event.TaskTimeout? && HasHead(s, n) && Retrying(Head(s, n).kind)))
    ensures Left(s, l, n) == Work(s, n) && !StartsConfiguration(s, l, n)
  {
  }

  lemma EventLeaves(s: State, l: Label, n: Node)
    requires Inv(s) && LabelOk(l) && l.Event? && l.node == n
    ensures Leaves(s, l, Step(s, l), n)
  {
    if !Ignored(s, n) && l.event.WakeNotify? {
      NotificationLeaves(s, l, n);
    } else if Advances(s, n, l) {
      SuccessLeaves(s, l, n);
    } else if !Ignored(s, n) && l.event.TaskTimeout? && HasHead(s, n) && Retrying(Head(s, n).kind) {
      TimeoutLeaves(s, l, n);
    } else {
      if Ignored(s, n) {
        EventIsHandled(s, n, l.event, l.cfg);
      } else {
        IdleStep(s, l, n);
      }
      IdleLeft(s, l, n);
      hide Step, Inv, LabelOk, Left, Leaves;
      AroundSame(s, l, Step(s, l), n);
    }
  }

  /** The calls and timeouts that take a node's queue or leave it alone. */
  lemma CallLeaves(s: State, l: Label, n: Node)
    requires Inv(s) && LabelOk(l) && About(l, n) && !l.Event? && !l.Add?
    ensures Leaves(s, l, Step(s, l), n)
  {
    if l.Forbid? {
      WhitelistRemovePool(s, n);
    } else if l.Deliver? && n in s.pool.undelivered {
      DeliverRemoves(s, n);
    }
    hide Names, Pending, QueuesOk, PoolOk, TimersOk, TaskHandler, ConfigTimeoutHandler;
    if Clears(s, l, n) {
      assert n !in Step(s, l).queue;
      AroundNothing(s, l, Step(s, l), n);
    } else {
      AroundSame(s, l, Step(s, l), n);
    }
  }

  // ---- Runs

  /** The step takes the task out: it clears the queue, or the task is at the head and succeeds. */
  ghost predicate TakesOut(s: State, l: Label, n: Node, id: nat) {
    Clears(s, l, n) || (Finishes(s, l, n) && Head(s, n).id == id)
  }

  /** The names are old and different. */
  ghost predicate KnownNames(ws: seq<(nat, Kind)>, next: nat) {
    && (forall i | 0 <= i < |ws| :: ws[i].0 < next)
    && forall i, j | 0 <= i < j < |ws| :: ws[i].0 != ws[j].0
  }

  lemma WorkKnown(s: State, n: Node)
    requires Accounted(s.queue, s.trace)
    ensures KnownNames(Work(s, n), s.trace.nextId)
  {
    if n in s.queue {
      var q := s.queue[n];
      assert QueueAccounted(q, n, s.trace);
      PendingDistinct(q);
      PendingKinds(q);
      forall i | 0 <= i < |Pending(q)| ensures Pending(q)[i].id < s.trace.nextId {
        assert Pending(q)[i] in q;
      }
    }
  }

  /** A name in the middle, and not among the newer ones. */
  lemma AroundHolds(before: seq<(nat, Kind)>, after: seq<(nat, Kind)>, k: nat, id: nat, w: (nat, Kind))
    requires Around(before, after, k, id) && w.0 < id
    ensures w in after <==> w in before
  {
    if w in before {
      assert w in after[k..k + |before|];
    }
    if w in after {
      var i :| 0 <= i < |after| && after[i] == w;
      assert before[i - k] == after[k..k + |before|][i - k];
    }
  }

  lemma FirstGone(ws: seq<(nat, Kind)>, next: nat, w: (nat, Kind))
    requires KnownNames(ws, next) && ws != [] && w in ws
    ensures w in ws[1..] <==> w.0 != ws[0].0
  {
  }

  lemma LeftHolds(s: State, l: Label, n: Node, w: (nat, Kind))
    requires KnownNames(Work(s, n), s.trace.nextId)
    ensures w in Left(s, l, n) <==> w in Work(s, n) && !TakesOut(s, l, n, w.0)
  {
    hide Clears;
    if Finishes(s, l, n) && w in Work(s, n) {
      NamesBehind(s, n);
      hide Work;
      FirstGone(Work(s, n), s.trace.nextId, w);
    } else if w in Left(s, l, n) {
      hide Work;
    }
  }

  /** A task that has been created is in the queue behind a step exactly if it was there before and
      the step does not take it out. */
  lemma StepTakesOut(s: State, l: Label, n: Node, w: (nat, Kind))
    requires Inv(s) && LabelOk(l) && Accounted(s.queue, s.trace) && w.0 < s.trace.nextId
    ensures w in Work(Step(s, l), n) <==> w in Work(s, n) && !TakesOut(s, l, n, w.0)
  {
    WorkKnown(s, n);
    StepLeaves(s, l, n);
    hide Step, Inv, LabelOk, Accounted, Work, Left, Around, TakesOut;
    AroundHolds(Left(s, l, n), Work(Step(s, l), n), InFront(s, l, n), s.trace.nextId, w);
    LeftHolds(s, l, n, w);
  }

  /** No step of the run takes the task out. */
  ghost predicate Undisturbed(s: State, ls: seq<Label>, n: Node, id: nat)
    requires Inv(s) && RunOk(ls)
    decreases |ls|
  {
    ls == [] ||
    var init, l := ls[..|ls| - 1], ls[|ls| - 1];
    Undisturbed(s, init, n, id) && !TakesOut(Run(s, init), l, n, id)
  }

  lemma {:induction false} RunGrows(s: State, ls: seq<Label>)
    requires Inv(s) && RunOk(ls) && Accounted(s.queue, s.trace)
    ensures var r := Run(s, ls); Accounted(r.queue, r.trace) && s.trace.nextId <= r.trace.nextId
    decreases |ls|
  {
    if ls != [] {
      var init, l := ls[..|ls| - 1], ls[|ls| - 1];
      RunGrows(s, init);
      hide Step, Inv, LabelOk, Accounted;
      StepAccounted(Run(s, init), l);
      StepTells(Run(s, init), l);
    }
  }

  /** Over every run: a task that waits for a node is still waiting, in whatever configurations and
      behind whatever wake tasks, exactly if no step of the run has taken it out. A task that does not
      wait is not queued again. */
  lemma {:induction false} TasksLeaveExactly(s: State, ls: seq<Label>, n: Node, w: (nat, Kind))
    requires Inv(s) && RunOk(ls) && Accounted(s.queue, s.trace) && w.0 < s.trace.nextId
    ensures w in Work(Run(s, ls), n) <==> w in Work(s, n) && Undisturbed(s, ls, n, w.0)
    decreases |ls|
  {
    if ls != [] {
      var init, l := ls[..|ls| - 1], ls[|ls| - 1];
      TasksLeaveExactly(s, init, n, w);
      RunGrows(s, init);
      hide Step, Inv, LabelOk, Accounted, Work, TakesOut;
      StepTakesOut(Run(s, init), l, n, w);
    }
  }
}
