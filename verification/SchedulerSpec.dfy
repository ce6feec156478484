/** The per-node task scheduler as functions on its state: one function for each method of
    the queue, and one atomic step for each API call, dispatched event and expired timer.
    The preconditions are the dictionary and list lookups the source makes unguarded. */
module SchedulerSpec {
  import opened Tasks

  const MAX_CONFIG_NODES: nat := 10

  /** What the gateway did, in order: task objects created, messages handed to the
      transmission manager, and the two successes other components observe. */
  datatype Entry =
    | NewTask(id: nat, node: Node)
    | Sent(id: nat, node: Node)        // the command of a retrying task
    | Signal(kind: Kind, node: Node)   // wake, sleep, alive and reset messages
    | Awaked(node: Node)               // a wake task succeeded
    | WakeResetAck(node: Node)
    | Forgotten(node: Node)            // removed from the database after its reset

  datatype Mode = Mode(
    passive: bool,  // listener or provisioner mode
    legacy: bool,   // the gateway's configuration mode
    sleepTime: nat) // the sleep time the gateway wants its nodes to use

  /** The configuration slots with their timeouts, and the whitelist. */
  datatype Pool = Pool(
    configNodes: map<Node, nat>, // the current timer of each node's configuration timeout
    configuring: set<Node>,
    whitelist: seq<Node>,
    armed: map<nat, Node>,       // running configuration timers
    nextTimer: nat,
    undelivered: multiset<Node>) // expired timers whose event has not been dispatched

  datatype Trace = Trace(
    owner: map<nat, Node>,       // the node of every task object created so far
    nextId: nat,
    log: seq<Entry>)

  datatype State = State(
    mode: Mode,
    queue: map<Node, seq<Task>>,
    pool: Pool,
    sleepPeriod: map<Node, nat>, // the sleep time each node is known to use
    trace: Trace)

  predicate HasHead(s: State, n: Node) {
    n in s.queue && s.queue[n] != []
  }

  function Head(s: State, n: Node): Task
    requires HasHead(s, n)
  {
    s.queue[n][0]
  }

  /** A retrying task can be completed only after it has been executed: its success cancels
      a timeout that execution creates. */
  predicate Ready(t: Task) {
    Retrying(t.kind) ==> t.retries >= 1
  }

  function SleepPeriod(s: State, n: Node): nat {
    if n in s.sleepPeriod then s.sleepPeriod[n] else 0
  }

  function SetQueue(s: State, n: Node, q: seq<Task>): State {
    s.(queue := s.queue[n := q])
  }

  function Note(s: State, e: Entry): State {
    s.(trace := s.trace.(log := s.trace.log + [e]))
  }

  // ---- Task objects

  function Created(t: Trace, n: Node): Trace {
    Trace(t.owner[t.nextId := n], t.nextId + 1, t.log + [NewTask(t.nextId, n)])
  }

  function Create(s: State, n: Node): State {
    s.(trace := Created(s.trace, n))
  }

  /** The task object that `Create` constructs. */
  function Fresh(s: State, k: Kind): Task {
    Task(s.trace.nextId, k, 0)
  }

  function Execute(s: State, n: Node): (r: State)
    requires HasHead(s, n)
    ensures HasHead(r, n) && Ready(Head(r, n)) && r.mode == s.mode
  {
    var t := Head(s, n);
    if Retrying(t.kind) then
      Note(SetQueue(s, n, [t.(retries := t.retries + 1)] + s.queue[n][1..]), Sent(t.id, n))
    else
      Note(s, Signal(t.kind, n))
  }

  // ---- The queue

  function AddTask(s: State, n: Node, t: Task): (r: State)
    ensures r.mode == s.mode && (!s.mode.passive ==> HasHead(r, n))
  {
    if s.mode.passive then s
    else if n in s.pool.configNodes || IsLowPower(n) then
      if n in s.queue then SetQueue(s, n, s.queue[n] + [t])
      else SetQueue(Create(s, n), n, [Fresh(s, Wake), t])
    else if n in s.queue then SetQueue(s, n, s.queue[n] + [t])
    else Execute(SetQueue(s, n, [t]), n)
  }

  /** A model's request: construct the task and add it. */
  function Schedule(s: State, n: Node, k: Kind): (r: State)
    ensures r.mode == s.mode && (!s.mode.passive ==> HasHead(r, n))
  {
    AddTask(Create(s, n), n, Fresh(s, k))
  }

  function ScheduleAll(s: State, n: Node, ks: seq<Kind>): State
    decreases |ks|
  {
    if ks == [] then s else Schedule(ScheduleAll(s, n, ks[..|ks| - 1]), n, ks[|ks| - 1])
  }

  function AddAll(s: State, n: Node, ts: seq<Task>): State
    decreases |ts|
  {
    if ts == [] then s else AddTask(AddAll(s, n, ts[..|ts| - 1]), n, ts[|ts| - 1])
  }

  function CancelTasks(s: State, n: Node): State {
    s.(queue := s.queue - {n})
  }

  function RescheduleTasks(s: State, n: Node): State
    requires n in s.queue ==> s.queue[n] != []
  {
    if s.mode.passive || !IsLowPower(n) then CancelTasks(s, n)
    else if n in s.queue && !Head(s, n).kind.Wake? then
      SetQueue(Create(s, n), n, [Fresh(s, Wake)] + s.queue[n])
    else s
  }

  /** The tasks that are neither wake nor sleep tasks. */
  function Pending(q: seq<Task>): seq<Task>
    decreases |q|
  {
    if q == [] then []
    else
      var t := q[|q| - 1];
      Pending(q[..|q| - 1]) + if t.kind.Wake? || t.kind.Sleep? then [] else [t]
  }

  function GetTasks(s: State, n: Node): seq<Task> {
    if n in s.queue then Pending(s.queue[n]) else []
  }

  function SetSleepTime(s: State, n: Node): (r: State)
    ensures r.mode == s.mode && (!s.mode.passive ==> HasHead(r, n))
  {
    if s.mode.legacy then
      var s1 := if n in s.pool.configNodes then s else Schedule(s, n, DeleteOp(TASK_OP_CONF));
      Schedule(s1, n, New(TASK_OP_CONF, s.mode.sleepTime))
    else
      Schedule(s, n, Change(TASK_OP_CONF, s.mode.sleepTime))
  }

  function SleepNode(s: State, n: Node): (r: State)
    requires !s.mode.passive
    ensures HasHead(r, n)
  {
    if !IsLowPower(n) then SetQueue(Create(s, n), n, [Fresh(s, Alive)])
    else if SleepPeriod(s, n) != s.mode.sleepTime then
      var s1 := SetSleepTime(s, n);
      SetQueue(Create(s1, n), n, s1.queue[n] + [Fresh(s1, Sleep)])
    else SetQueue(Create(s, n), n, [Fresh(s, Sleep)])
  }

  // ---- Configuration slots

  function StartTimer(p: Pool, n: Node): Pool {
    p.(configNodes := p.configNodes[n := p.nextTimer], armed := p.armed[p.nextTimer := n],
       nextTimer := p.nextTimer + 1)
  }

  /** Cancelling a timer that has already expired changes nothing. */
  function CancelTimer(p: Pool, n: Node): Pool
    requires n in p.configNodes
  {
    p.(armed := p.armed - {p.configNodes[n]})
  }

  function RestartTimer(p: Pool, n: Node): Pool
    requires n in p.configNodes
  {
    StartTimer(CancelTimer(p, n), n)
  }

  function EnterConfiguration(p: Pool, n: Node): Pool {
    if |p.configNodes| < MAX_CONFIG_NODES && n !in p.configNodes then StartTimer(p, n) else p
  }

  function LeaveConfiguration(p: Pool, n: Node): Pool {
    if n in p.configNodes then
      CancelTimer(p, n).(configNodes := p.configNodes - {n}, configuring := p.configuring - {n})
    else p
  }

  // ---- Event handlers

  function WakeResetCb(s: State, n: Node): State {
    var s1 := s.(pool := EnterConfiguration(s.pool, n));
    if n in s1.pool.configNodes then Note(s1, WakeResetAck(n)) else s1
  }

  /** Drop the queue, forget the node's sleep time and let the application queue tasks of the
      kinds `cfg` through its configuration callback. */
  function Configure(s: State, n: Node, cfg: seq<Kind>): State {
    ScheduleAll(CancelTasks(s, n).(sleepPeriod := s.sleepPeriod[n := 0]), n, cfg)
  }

  /** Configure the node and queue its pending tasks again, behind the callback's. */
  function Reconfigure(s: State, n: Node, cfg: seq<Kind>): State {
    var s1 := AddAll(Configure(s, n, cfg), n, GetTasks(s, n));
    s1.(pool := s1.pool.(configuring := s1.pool.configuring + {n}))
  }

  function NotifyCb(s: State, n: Node, conf: NotifyConf, cfg: seq<Kind>): State
    requires !s.mode.passive
  {
    match conf
    case Legacy =>
      if n in s.pool.configNodes then Configure(s, n, cfg)
      else if n !in s.queue then SleepNode(s, n)
      else s
    case NotConfigured =>
      var s1 := s.(pool := EnterConfiguration(s.pool, n));
      if n in s1.pool.configNodes && n !in s1.pool.configuring then Reconfigure(s1, n, cfg) else s1
    case Configured =>
      if n !in s.queue then SleepNode(s, n) else s
  }

  function OnSuccess(s: State, n: Node, e: EventType): (r: State)
    requires HasHead(s, n) && Ready(Head(s, n))
    ensures r.mode == s.mode && HasHead(r, n)
  {
    match Head(s, n).kind
    case Wake => Note(s, Awaked(n))
    case Reset => Note(s, Forgotten(n))
    case New(op, period) => if op == TASK_OP_CONF then s.(sleepPeriod := s.sleepPeriod[n := period]) else s
    case Change(op, period) => if op == TASK_OP_CONF then s.(sleepPeriod := s.sleepPeriod[n := period]) else s
    case Ota(_) => if e.OtaAck? && e.status == 0 then Schedule(s, n, New(TASK_OP_UPDATE, 0)) else s
    case _ => s
  }

  function OnError(s: State, n: Node): State
    requires HasHead(s, n)
  {
    var t := Head(s, n);
    if Retrying(t.kind) && t.retries >= MAX_RETRIES then RescheduleTasks(s, n) else Execute(s, n)
  }

  /** The head has succeeded: remove it and go on with what follows. */
  function Advance(s: State, n: Node): State
    requires !s.mode.passive && HasHead(s, n)
  {
    var s1 := SetQueue(s, n, s.queue[n][1..]);
    if Terminal(Head(s, n).kind) then CancelTasks(s1.(pool := LeaveConfiguration(s1.pool, n)), n)
    else if s1.queue[n] != [] then Execute(s1, n)
    else if n in s1.pool.configNodes || IsLowPower(n) then Execute(SleepNode(s1, n), n)
    else CancelTasks(s1, n)
  }

  function HandleHead(s: State, n: Node, e: EventType): State
    requires !s.mode.passive && HasHead(s, n) && Ready(Head(s, n))
  {
    if Succeeds(Head(s, n).kind, e) then
      Advance(OnSuccess(s, n, e), n)
    else if Fails(Head(s, n).kind, e) then OnError(s, n)
    else s
  }

  /** The two event callbacks. */
  function Callbacks(s: State, n: Node, e: EventType, cfg: seq<Kind>): State
    requires !s.mode.passive
  {
    if e.WakeReset? then WakeResetCb(s, n)
    else if e.WakeNotify? then NotifyCb(s, n, e.conf, cfg)
    else s
  }

  /** The callbacks, then the restart of the node's configuration timeout. */
  function Notice(s: State, n: Node, e: EventType, cfg: seq<Kind>): State
    requires !s.mode.passive
  {
    var s1 := Callbacks(s, n, e, cfg);
    if n in s1.pool.configNodes then s1.(pool := RestartTimer(s1.pool, n)) else s1
  }

  predicate Ignored(s: State, n: Node) {
    s.mode.passive || n !in s.pool.whitelist
  }

  /** The lookups of the head of the queue, after the callbacks, succeed. */
  predicate HeadFound(s: State, n: Node) {
    !s.mode.passive && (n in s.queue ==> HasHead(s, n) && Ready(Head(s, n)))
  }

  function TaskHandler(s: State, n: Node, e: EventType, cfg: seq<Kind>): State
    requires !Ignored(s, n) ==> HeadFound(Notice(s, n, e, cfg), n)
  {
    if Ignored(s, n) then s
    else
      var s1 := Notice(s, n, e, cfg);
      if n in s1.queue then HandleHead(s1, n, e) else s1
  }

  function CleanPool(p: Pool, n: Node): Pool {
    var p1 := LeaveConfiguration(p, n);
    p1.(configuring := p1.configuring - {n})
  }

  function CleanTasks(s: State, n: Node): State {
    CancelTasks(s, n).(pool := CleanPool(s.pool, n))
  }

  predicate InQueue(s: State, n: Node) {
    n in s.queue || n in s.pool.configNodes || n in s.pool.configuring
  }

  /** A list without the first occurrence of `n`. */
  function Without(ns: seq<Node>, n: Node): seq<Node>
    decreases |ns|
  {
    if ns == [] then [] else if ns[0] == n then ns[1..] else [ns[0]] + Without(ns[1..], n)
  }

  function WhitelistRemove(s: State, n: Node): State {
    if n !in s.pool.whitelist then s
    else
      var s1 := if InQueue(s, n) then CleanTasks(s, n) else s;
      s1.(pool := s1.pool.(whitelist := Without(s1.pool.whitelist, n)))
  }

  function WhitelistAdd(s: State, n: Node): State {
    if n in s.pool.whitelist then s
    else s.(pool := s.pool.(whitelist := s.pool.whitelist + [n]))
  }

  function ConfigTimeoutHandler(s: State, n: Node): State {
    var s1 := WhitelistRemove(s, n);
    var p := s1.pool;
    var p1 := if n in p.configNodes
              then p.(configNodes := p.configNodes - {n}, configuring := p.configuring - {n})
              else p;
    CancelTasks(s1, n).(pool := p1)
  }
}
