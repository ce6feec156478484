/** What the gateway tells its nodes: the news of every step, and that the message of a task that
    waits at the head of a queue has been sent. */
module SchedulerMessages {
  import opened Tasks
  import opened SchedulerSpec
  import opened SchedulerLocality
  import opened SchedulerRuns
  import opened SchedulerProgress

  /** The log without the creation of tasks. */
  function Story(log: seq<Entry>): seq<Entry>
    decreases |log|
  {
    if log == [] then []
    else
      var last := log[|log| - 1];
      Story(log[..|log| - 1]) + if last.NewTask? then [] else [last]
  }

  /** The message that belongs to a task: the command of a retrying one, the signal of any other. */
  function Message(t: Task, n: Node): Entry {
    if Retrying(t.kind) then Sent(t.id, n) else Signal(t.kind, n)
  }

  function HeadMessage(s: State, n: Node): seq<Entry> {
    if HasHead(s, n) then [Message(Head(s, n), n)] else []
  }

  // ---- The news of a step

  function SuccessNews(k: Kind, n: Node): seq<Entry> {
    match k
    case Wake => [Awaked(n)]
    case Reset => [Forgotten(n)]
    case _ => []
  }

  /** The news of an event that is not ignored, by the state before and the queue it leaves. */
  function EventNews(s: State, n: Node, e: EventType, r: State): seq<Entry> {
    if e.WakeReset? then if n in r.pool.configNodes then [WakeResetAck(n)] else []
    else if e.WakeNotify? then if HasHead(r, n) && !Retrying(Head(r, n).kind) then HeadMessage(r, n) else []
    else if !HasHead(s, n) then []
    else if Succeeds(Head(s, n).kind, e) then SuccessNews(Head(s, n).kind, n) + HeadMessage(r, n)
    else if e.TaskTimeout? && Retrying(Head(s, n).kind) && Head(s, n).retries < MAX_RETRIES then HeadMessage(r, n)
    else []
  }

  /** A mains-powered node is awake: its first task needs no wake task. */
  predicate GoesAtOnce(s: State, n: Node) {
    !s.mode.passive && n !in s.queue && n !in s.pool.configNodes && !IsLowPower(n)
  }

  /** The news of the step from `s` to `r`. */
  function News(s: State, l: Label, r: State): seq<Entry> {
    match l
    case Add(n, _) => if GoesAtOnce(s, n) then HeadMessage(r, n) else []
    case Event(n, e, _) => if Ignored(s, n) then [] else EventNews(s, n, e, r)
    case _ => []
  }

  // ---- What each function tells

  /** From `s` to `r` exactly this is told, and task objects only get newer. */
  ghost predicate Tells(s: State, r: State, news: seq<Entry>) {
    Story(r.trace.log) == Story(s.trace.log) + news && s.trace.nextId <= r.trace.nextId
  }

  lemma StorySnoc(log: seq<Entry>, e: Entry)
    ensures Story(log + [e]) == Story(log) + if e.NewTask? then [] else [e]
  {
    assert (log + [e])[..|log|] == log;
  }

  lemma NothingTold(s: State, r: State)
    requires s.trace == r.trace
    ensures Tells(s, r, [])
  {
  }

  lemma ThenTells(s: State, r: State, t: State, a: seq<Entry>, b: seq<Entry>)
    requires Tells(s, r, a) && Tells(r, t, b)
    ensures Tells(s, t, a + b)
  {
    assert Story(s.trace.log) + a + b == Story(s.trace.log) + (a + b);
  }

  lemma QuietTwice(s: State, r: State, t: State)
    requires Tells(s, r, []) && Tells(r, t, [])
    ensures Tells(s, t, [])
  {
  }

  lemma CreateTells(s: State, n: Node)
    ensures Tells(s, Create(s, n), [])
  {
    StorySnoc(s.trace.log, NewTask(s.trace.nextId, n));
  }

  lemma NoteTells(s: State, e: Entry)
    requires !e.NewTask?
    ensures Tells(s, Note(s, e), [e])
  {
    StorySnoc(s.trace.log, e);
  }

  /** A queue whose head has been sent once more. */
  function Tried(q: seq<Task>): seq<Task>
    requires q != []
  {
    [q[0].(retries := q[0].retries + if Retrying(q[0].kind) then 1 else 0)] + q[1..]
  }

  /** Executing the head counts a try of a retrying task and leaves the other tasks. */
  lemma ExecuteTries(s: State, n: Node)
    requires HasHead(s, n)
    ensures var r := Execute(s, n);
      r.queue == s.queue[n := Tried(s.queue[n])] && r.pool == s.pool && r.sleepPeriod == s.sleepPeriod
  {
    var q := s.queue[n];
    if !Retrying(q[0].kind) {
      assert Tried(q) == q && s.queue[n := q] == s.queue;
    }
  }

  lemma ExecuteTells(s: State, n: Node)
    requires HasHead(s, n)
    ensures var r := Execute(s, n); Tells(s, r, HeadMessage(r, n)) && HasHead(r, n)
  {
    StorySnoc(s.trace.log, Message(Head(s, n), n));
  }

  lemma AddTaskTells(s: State, n: Node, t: Task)
    ensures var r := AddTask(s, n, t); Tells(s, r, if GoesAtOnce(s, n) then HeadMessage(r, n) else [])
  {
    hide Tells, Execute, Create;
    NothingTold(s, s);
    if n in s.queue {
      NothingTold(s, SetQueue(s, n, s.queue[n] + [t]));
    } else {
      CreateTells(s, n);
      NothingTold(Create(s, n), SetQueue(Create(s, n), n, [Fresh(s, Wake), t]));
      QuietTwice(s, Create(s, n), SetQueue(Create(s, n), n, [Fresh(s, Wake), t]));
      var s1 := SetQueue(s, n, [t]);
      NothingTold(s, s1);
      ExecuteTells(s1, n);
      ThenTells(s, s1, Execute(s1, n), [], HeadMessage(Execute(s1, n), n));
      assert [] + HeadMessage(Execute(s1, n), n) == HeadMessage(Execute(s1, n), n);
    }
  }

  lemma ScheduleTells(s: State, n: Node, k: Kind)
    ensures var r := Schedule(s, n, k); Tells(s, r, if GoesAtOnce(s, n) then HeadMessage(r, n) else [])
  {
    CreateTells(s, n);
    AddTaskTells(Create(s, n), n, Fresh(s, k));
    hide Tells, AddTask, HeadMessage;
    var r := Schedule(s, n, k);
    var news := if GoesAtOnce(s, n) then HeadMessage(r, n) else [];
    assert GoesAtOnce(Create(s, n), n) == GoesAtOnce(s, n);
    ThenTells(s, Create(s, n), r, [], news);
    assert [] + news == news;
  }

  lemma {:induction false} ScheduleAllTells(s: State, n: Node, ks: seq<Kind>)
    requires n in s.pool.configNodes
    ensures Tells(s, ScheduleAll(s, n, ks), [])
    decreases |ks|
  {
    if ks == [] {
      NothingTold(s, s);
    } else {
      var init := ks[..|ks| - 1];
      ScheduleAllTells(s, n, init);
      ScheduleAllWork(s, n, init);
      hide Tells, Schedule;
      ScheduleTells(ScheduleAll(s, n, init), n, ks[|ks| - 1]);
      QuietTwice(s, ScheduleAll(s, n, init), ScheduleAll(s, n, ks));
    }
  }

  lemma {:induction false} AddAllTells(s: State, n: Node, ts: seq<Task>)
    requires n in s.pool.configNodes
    ensures Tells(s, AddAll(s, n, ts), [])
    decreases |ts|
  {
    if ts == [] {
      NothingTold(s, s);
    } else {
      var init := ts[..|ts| - 1];
      AddAllTells(s, n, init);
      AddAllWork(s, n, init);
      hide Tells, AddTask;
      AddTaskTells(AddAll(s, n, init), n, ts[|ts| - 1]);
      QuietTwice(s, AddAll(s, n, init), AddAll(s, n, ts));
    }
  }

  lemma ConfigureTells(s: State, n: Node, cfg: seq<Kind>)
    requires n in s.pool.configNodes
    ensures Tells(s, Configure(s, n, cfg), [])
  {
    var s1 := CancelTasks(s, n).(sleepPeriod := s.sleepPeriod[n := 0]);
    NothingTold(s, s1);
    hide Tells, ScheduleAll;
    ScheduleAllTells(s1, n, cfg);
    QuietTwice(s, s1, Configure(s, n, cfg));
  }

  lemma ReconfigureTells(s: State, n: Node, cfg: seq<Kind>)
    requires n in s.pool.configNodes
    ensures Tells(s, Reconfigure(s, n, cfg), [])
  {
    var s1 := Configure(s, n, cfg);
    ConfigureTells(s, n, cfg);
    ConfigureWork(s, n, cfg);
    var s2 := AddAll(s1, n, GetTasks(s, n));
    AddAllTells(s1, n, GetTasks(s, n));
    NothingTold(s2, Reconfigure(s, n, cfg));
    hide Tells, Configure, AddAll;
    QuietTwice(s, s1, s2);
    QuietTwice(s, s2, Reconfigure(s, n, cfg));
  }

  lemma SetSleepTimeTells(s: State, n: Node)
    requires n in s.queue || IsLowPower(n)
    ensures Tells(s, SetSleepTime(s, n), [])
  {
    NothingTold(s, s);
    if s.mode.legacy {
      var s1 := if n in s.pool.configNodes then s else Schedule(s, n, DeleteOp(TASK_OP_CONF));
      ScheduleTells(s, n, DeleteOp(TASK_OP_CONF));
      ScheduleTells(s1, n, New(TASK_OP_CONF, s.mode.sleepTime));
      assert !GoesAtOnce(s1, n) by { ScheduleWork(s, n, DeleteOp(TASK_OP_CONF)); }
      hide Tells, Schedule;
      QuietTwice(s, s1, SetSleepTime(s, n));
    } else {
      ScheduleTells(s, n, Change(TASK_OP_CONF, s.mode.sleepTime));
    }
  }

  lemma SleepNodeTells(s: State, n: Node)
    requires !s.mode.passive
    ensures Tells(s, SleepNode(s, n), [])
  {
    CreateTells(s, n);
    if IsLowPower(n) && SleepPeriod(s, n) != s.mode.sleepTime {
      SetSleepTimeTells(s, n);
      var s1 := SetSleepTime(s, n);
      CreateTells(s1, n);
      NothingTold(Create(s1, n), SleepNode(s, n));
      hide Tells, SetSleepTime, Create;
      QuietTwice(s, s1, Create(s1, n));
      QuietTwice(s, Create(s1, n), SleepNode(s, n));
    } else {
      NothingTold(Create(s, n), SleepNode(s, n));
      hide Tells, Create;
      QuietTwice(s, Create(s, n), SleepNode(s, n));
    }
  }

  lemma NotifyTells(s: State, n: Node, conf: NotifyConf, cfg: seq<Kind>)
    requires !s.mode.passive
    ensures Tells(s, NotifyCb(s, n, conf, cfg), [])
  {
    NothingTold(s, s);
    match conf
    case Legacy =>
      SleepNodeTells(s, n);
      if n in s.pool.configNodes {
        ConfigureTells(s, n, cfg);
      }
    case NotConfigured =>
      var s1 := s.(pool := EnterConfiguration(s.pool, n));
      NothingTold(s, s1);
      if n in s1.pool.configNodes {
        ReconfigureTells(s1, n, cfg);
        hide Tells, Reconfigure;
        QuietTwice(s, s1, Reconfigure(s1, n, cfg));
      }
    case Configured =>
      SleepNodeTells(s, n);
  }

  /** The callbacks acknowledge a reset of a node that holds a slot, and tell nothing else. */
  lemma NoticeTells(s: State, n: Node, e: EventType, cfg: seq<Kind>)
    requires !s.mode.passive
    ensures var r := Notice(s, n, e, cfg);
      Tells(s, r, if e.WakeReset? && n in r.pool.configNodes then [WakeResetAck(n)] else [])
  {
    var s1 := Callbacks(s, n, e, cfg);
    if e.WakeReset? {
      NoteTells(s.(pool := EnterConfiguration(s.pool, n)), WakeResetAck(n));
    } else if e.WakeNotify? {
      NotifyTells(s, n, e.conf, cfg);
    }
    assert Notice(s, n, e, cfg).trace == s1.trace;
    hide NotifyCb;
  }

  lemma OnSuccessTells(s: State, n: Node, e: EventType)
    requires HasHead(s, n) && Ready(Head(s, n))
    ensures Tells(s, OnSuccess(s, n, e), SuccessNews(Head(s, n).kind, n))
  {
    NothingTold(s, s);
    NothingTold(s, OnSuccess(s, n, e).(trace := s.trace));
    ScheduleTells(s, n, New(TASK_OP_UPDATE, 0));
    NoteTells(s, Awaked(n));
    NoteTells(s, Forgotten(n));
    hide Schedule, Note;
  }

  lemma AdvanceTells(s: State, n: Node)
    requires !s.mode.passive && HasHead(s, n)
    ensures var r := Advance(s, n); Tells(s, r, HeadMessage(r, n))
  {
    var s1 := SetQueue(s, n, s.queue[n][1..]);
    var r := Advance(s, n);
    NothingTold(s, s1);
    if Terminal(Head(s, n).kind) {
      NothingTold(s, r);
    } else if s1.queue[n] != [] {
      ExecuteTells(s1, n);
      hide Tells, Execute;
      ThenTells(s, s1, r, [], HeadMessage(r, n));
      assert [] + HeadMessage(r, n) == HeadMessage(r, n);
    } else if n in s.pool.configNodes || IsLowPower(n) {
      SleepNodeTells(s1, n);
      ExecuteTells(SleepNode(s1, n), n);
      hide Tells, Execute, SleepNode;
      QuietTwice(s, s1, SleepNode(s1, n));
      ThenTells(s, SleepNode(s1, n), r, [], HeadMessage(r, n));
      assert [] + HeadMessage(r, n) == HeadMessage(r, n);
    } else {
      NothingTold(s, r);
    }
  }

  lemma OnErrorTells(s: State, n: Node)
    requires HasHead(s, n)
    ensures var r := OnError(s, n);
      Tells(s, r, if Retrying(Head(s, n).kind) && Head(s, n).retries >= MAX_RETRIES then [] else HeadMessage(r, n))
  {
    CreateTells(s, n);
    ExecuteTells(s, n);
    NothingTold(s, CancelTasks(s, n));
    NothingTold(s, s);
  }

  // ---- Steps

  /** An event that is no notification is left to the head of the queue. */
  lemma HeadTells(s: State, n: Node, e: EventType)
    requires HeadFound(s, n) && n in s.queue && !e.WakeReset? && !e.WakeNotify?
    ensures var r := HandleHead(s, n, e); Tells(s, r, EventNews(s, n, e, r))
  {
    NothingTold(s, s);
    OnErrorTells(s, n);
    OnSuccessTells(s, n, e);
    hide Tells, OnSuccess, Advance, OnError, HeadMessage;
    if Succeeds(Head(s, n).kind, e) {
      var s1 := OnSuccess(s, n, e);
      AdvanceTells(s1, n);
      ThenTells(s, s1, Advance(s1, n), SuccessNews(Head(s, n).kind, n), HeadMessage(Advance(s1, n), n));
    }
  }

  /** A notification makes a head that is not a command tell its message again. */
  lemma NotifiedTells(s: State, n: Node, e: EventType)
    requires HeadFound(s, n) && n in s.queue && e.WakeNotify?
    ensures var r := HandleHead(s, n, e);
      Tells(s, r, if HasHead(r, n) && !Retrying(Head(r, n).kind) then HeadMessage(r, n) else [])
  {
    NothingTold(s, s);
    ExecuteTells(s, n);
    ExecuteTries(s, n);
    hide Tells, HeadMessage;
  }

  lemma HandlerTells(s: State, n: Node, e: EventType, cfg: seq<Kind>)
    requires !Ignored(s, n) && HeadFound(Notice(s, n, e, cfg), n)
    requires s.pool.configuring <= s.pool.configNodes.Keys
    ensures var r := TaskHandler(s, n, e, cfg); Tells(s, r, EventNews(s, n, e, r))
  {
    NoticeTells(s, n, e, cfg);
    var s1 := Notice(s, n, e, cfg);
    var r := TaskHandler(s, n, e, cfg);
    if e.WakeReset? {
      hide Notice, HandleHead;
      NoticeQuiet(s, n, e, cfg);
      if n in s1.queue { Unconcerned(s1, n); }
    } else if e.WakeNotify? {
      hide Notice, HandleHead, Tells;
      if n in s1.queue {
        NotifiedTells(s1, n, e);
        ThenTells(s, s1, r, [], EventNews(s, n, e, r));
        assert [] + EventNews(s, n, e, r) == EventNews(s, n, e, r);
      }
    } else {
      hide Notice, HandleHead, Tells;
      NoticeQuiet(s, n, e, cfg);
      if n in s1.queue {
        HeadTells(s1, n, e);
        ThenTells(s, s1, r, [], EventNews(s, n, e, r));
        assert [] + EventNews(s, n, e, r) == EventNews(s, n, e, r);
      }
    }
  }

  /** A reset concerns no task. */
  lemma Unconcerned(s: State, n: Node)
    requires HeadFound(s, n) && n in s.queue
    ensures HandleHead(s, n, WakeReset) == s
  {
  }

  lemma TimeoutTells(s: State, n: Node)
    ensures ConfigTimeoutHandler(s, n).trace == s.trace
  {
  }

  lemma DeliverTells(s: State, n: Node)
    requires Inv(s) && n in s.pool.undelivered
    ensures Tells(s, Step(s, Deliver(n)), [])
  {
    DeliverIsHandled(s, n);
    hide Step, HeadFound, Notice, Tells, TaskHandler, ConfigTimeoutHandler, QueuesOk, TimersOk;
    var s1 := TaskHandler(s, n, ConfigurationTimeout, []);
    HandledTimeoutTells(s, n);
    TimeoutTells(s1, n);
    NothingTold(s1, Step(s, Deliver(n)));
    QuietTwice(s, s1, Step(s, Deliver(n)));
  }

  lemma HandledTimeoutTells(s: State, n: Node)
    requires PoolOk(s.pool) && (!Ignored(s, n) ==> HeadFound(Notice(s, n, ConfigurationTimeout, []), n))
    ensures Tells(s, TaskHandler(s, n, ConfigurationTimeout, []), [])
  {
    hide Notice, Tells, HandleHead, HeadFound;
    if Ignored(s, n) {
      NothingTold(s, s);
    } else {
      HandlerTells(s, n, ConfigurationTimeout, []);
      hide TaskHandler;
    }
  }

  /** Exactly what the gateway tells in a step. A task that is added for an awake node without work
      is told at once. A success tells of itself and then the next head; a timeout repeats the head
      while it has tries left; a notification repeats a head that is no command; a reset of a node
      with a slot is acknowledged. Nothing else is ever told. */
  lemma StepTells(s: State, l: Label)
    requires Inv(s) && LabelOk(l)
    ensures var r := Step(s, l); Tells(s, r, News(s, l, r))
  {
    match l
    case Add(n, k) => ScheduleTells(s, n, k);
    case Event(n, e, cfg) =>
      EventIsHandled(s, n, e, cfg);
      NothingTold(s, s);
      hide Step, HeadFound, Notice, Tells, EventNews, QueuesOk, TimersOk;
      if !Ignored(s, n) {
        HandlerTells(s, n, e, cfg);
      }
    case Deliver(n) =>
      NothingTold(s, s);
      if n in s.pool.undelivered {
        DeliverTells(s, n);
      }
    case _ => NothingTold(s, Step(s, l));
  }
}
