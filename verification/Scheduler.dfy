/** The task queue as the objects the gateway works with. Every method is proved against the
    function of the same name on the state that the objects stand for. */
module Scheduler {
  import opened Tasks
  import opened Spec = SchedulerSpec
  import opened SchedulerRuns

  /** What has been handed to the transmission manager, and the task objects made so far. */
  class Recorder {
    var trace: Trace

    constructor ()
      ensures trace == Trace(map[], 0, [])
    {
      trace := Trace(map[], 0, []);
    }

    method Put(e: Entry)
      modifies this
      ensures trace == old(trace).(log := old(trace.log) + [e])
    {
      trace := trace.(log := trace.log + [e]);
    }
  }

  class TaskObject {
    const id: nat
    const node: Node
    const kind: Kind
    var retries: nat

    constructor (rec: Recorder, node: Node, kind: Kind)
      modifies rec
      ensures this.node == node && Value() == Task(old(rec.trace.nextId), kind, 0)
      ensures rec.trace == Created(old(rec.trace), node)
    {
      id := rec.trace.nextId;
      this.node := node;
      this.kind := kind;
      retries := 0;
      new;
      rec.trace := Trace(rec.trace.owner[id := node], id + 1, rec.trace.log + [NewTask(id, node)]);
    }

    function Value(): Task
      reads this
    {
      Task(id, kind, retries)
    }

    method Execute(rec: Recorder)
      modifies this`retries, rec
      ensures retries == old(retries) + if Retrying(kind) then 1 else 0
      ensures rec.trace == old(rec.trace).(log := old(rec.trace.log)
                             + [if Retrying(kind) then Sent(id, node) else Signal(kind, node)])
    {
      if Retrying(kind) {
        rec.Put(Sent(id, node));
        retries := retries + 1;
      } else {
        rec.Put(Signal(kind, node));
      }
    }
  }

  /** The running timers, and the events of the expired ones that wait to be dispatched. */
  class Clock {
    var armed: map<nat, Node>
    var nextTimer: nat
    var undelivered: multiset<Node>

    constructor ()
      ensures armed == map[] && nextTimer == 0 && undelivered == multiset{}
    {
      armed, nextTimer, undelivered := map[], 0, multiset{};
    }
  }

  /** The configuration timeout of one node: an event that owns its current timer. */
  class ConfigTimeout {
    const node: Node
    var timer: nat

    constructor (node: Node, clock: Clock)
      modifies clock
      ensures this.node == node && timer == old(clock.nextTimer)
      ensures clock.armed == old(clock.armed)[timer := node] && clock.nextTimer == timer + 1
      ensures clock.undelivered == old(clock.undelivered)
    {
      this.node := node;
      new;
      Start(clock);
    }

    method Start(clock: Clock)
      modifies this, clock
      ensures timer == old(clock.nextTimer)
      ensures clock.armed == old(clock.armed)[timer := node] && clock.nextTimer == timer + 1
      ensures clock.undelivered == old(clock.undelivered)
    {
      timer := clock.nextTimer;
      clock.armed := clock.armed[timer := node];
      clock.nextTimer := timer + 1;
    }

    method Cancel(clock: Clock)
      modifies clock`armed
      ensures clock.armed == old(clock.armed) - {timer}
    {
      clock.armed := clock.armed - {timer};
    }

    method Restart(clock: Clock)
      modifies this, clock
      ensures timer == old(clock.nextTimer)
      ensures clock.armed == (old(clock.armed) - {old(timer)})[timer := node] && clock.nextTimer == timer + 1
      ensures clock.undelivered == old(clock.undelivered)
    {
      Cancel(clock);
      Start(clock);
    }
  }

  class TaskQueue {
    const legacy: bool
    const rec: Recorder
    const clock: Clock
    var passive: bool
    var sleepTime: nat
    var queue: map<Node, seq<TaskObject>>
    var configNodes: map<Node, ConfigTimeout>
    var configuringNodes: set<Node>
    var whitelist: seq<Node>
    var sleepPeriod: map<Node, nat>

    ghost var view: State
    ghost var Repr: set<object>

    ghost predicate SameQueue(n: Node)
      requires n in queue && n in view.queue
      reads this, Repr
    {
      && |queue[n]| == |view.queue[n]|
      && (forall i | 0 <= i < |queue[n]| ::
            var t := queue[n][i]; t in Repr && t.node == n && t.Value() == view.queue[n][i])
      && (forall i, j | 0 <= i < j < |queue[n]| :: queue[n][i] != queue[n][j])
    }

    ghost predicate QueuesValid()
      reads this, Repr
    {
      queue.Keys == view.queue.Keys && forall n | n in queue :: SameQueue(n)
    }

    ghost predicate PoolValid()
      reads this, Repr, clock
    {
      && configNodes.Keys == view.pool.configNodes.Keys
      && (forall n | n in configNodes ::
            configNodes[n] in Repr && configNodes[n].node == n && configNodes[n].timer == view.pool.configNodes[n])
      && configuringNodes == view.pool.configuring
      && whitelist == view.pool.whitelist
      && clock.armed == view.pool.armed && clock.nextTimer == view.pool.nextTimer
      && clock.undelivered == view.pool.undelivered
    }

    ghost predicate Valid()
      reads this, Repr, rec, clock
    {
      && this in Repr && rec in Repr && clock in Repr
      && view.mode == Mode(passive, legacy, sleepTime)
      && sleepPeriod == view.sleepPeriod
      && rec.trace == view.trace
      && QueuesValid() && PoolValid()
    }

    constructor (passive: bool, legacy: bool, sleepTime: nat, sleepPeriod: map<Node, nat>)
      ensures Valid() && fresh(Repr)
      ensures view == Initial(Mode(passive, legacy, sleepTime), sleepPeriod)
    {
      this.passive, this.legacy, this.sleepTime := passive, legacy, sleepTime;
      this.sleepPeriod := sleepPeriod;
      queue, configNodes, configuringNodes, whitelist := map[], map[], {}, [];
      var r := new Recorder();
      var c := new Clock();
      rec, clock := r, c;
      view := Initial(Mode(passive, legacy, sleepTime), sleepPeriod);
      new;
      Repr := {this, rec, clock};
    }

    /** The objects of the queue of `n` stand for the tasks of the view. */
    ghost predicate Holds(q: seq<TaskObject>, ts: seq<Task>, n: Node)
      reads q
    {
      && |q| == |ts|
      && (forall i | 0 <= i < |q| :: q[i].node == n && q[i].Value() == ts[i])
      && (forall i, j | 0 <= i < j < |q| :: q[i] != q[j])
    }

    ghost predicate Queued(t: TaskObject)
      reads this
    {
      t.node in queue && t in queue[t.node]
    }

    method Execute(n: Node)
      requires Valid() && HasHead(view, n)
      modifies Repr
      ensures Valid() && Repr == old(Repr)
      ensures view == Spec.Execute(old(view), n)
      ensures queue == old(queue)
      ensures forall t: TaskObject | old(allocated(t)) && t != queue[n][0] :: t.retries == old(t.retries)
    {
      var t := queue[n][0];
      t.Execute(rec);
      view := Spec.Execute(view, n);
    }

    /** Replace the queue of `n`. */
    method SetQueue(n: Node, q: seq<TaskObject>, ghost ts: seq<Task>)
      requires Valid() && Holds(q, ts, n)
      modifies this
      ensures Valid() && Repr == old(Repr) + (set t | t in q)
      ensures view == Spec.SetQueue(old(view), n, ts)
      ensures queue == old(queue)[n := q]
    {
      queue := queue[n := q];
      Repr := Repr + (set t | t in q);
      view := Spec.SetQueue(view, n, ts);
      forall m | m in queue && m != n ensures SameQueue(m) {
        assert old(SameQueue(m));
      }
    }

    method NewTask(n: Node, k: Kind) returns (t: TaskObject)
      requires Valid()
      modifies rec, this`view
      ensures Valid() && fresh(t) && t.node == n && t.Value() == Fresh(old(view), k)
      ensures view == Create(old(view), n)
    {
      t := new TaskObject(rec, n, k);
      view := Create(view, n);
    }

    method AddTask(t: TaskObject)
      requires Valid() && !Queued(t)
      modifies Repr, t
      ensures Valid() && old(Repr) <= Repr && fresh(Repr - old(Repr) - {t})
      ensures view == Spec.AddTask(old(view), t.node, old(t.Value()))
      ensures forall u: TaskObject | old(allocated(u)) && u != t :: u.retries == old(u.retries)
      ensures forall u: TaskObject | old(allocated(u)) && Queued(u) :: u == t || old(Queued(u))
    {
      var n := t.node;
      if passive {
        return;
      }
      ghost var ts := if n in view.queue then view.queue[n] else [];
      if n in configNodes || IsLowPower(n) {
        if n in queue {
          SetQueue(n, queue[n] + [t], ts + [t.Value()]);
        } else {
          var wake := NewTask(n, Wake);
          SetQueue(n, [wake, t], [wake.Value(), t.Value()]);
        }
      } else if n in queue {
        SetQueue(n, queue[n] + [t], ts + [t.Value()]);
      } else {
        SetQueue(n, [t], [t.Value()]);
        Execute(n);
      }
    }

    method Schedule(n: Node, k: Kind)
      requires Valid()
      modifies Repr
      ensures Valid() && old(Repr) <= Repr && fresh(Repr - old(Repr))
      ensures view == Spec.Schedule(old(view), n, k)
      ensures forall u: TaskObject | old(allocated(u)) :: u.retries == old(u.retries)
      ensures forall u: TaskObject | old(allocated(u)) && Queued(u) :: old(Queued(u))
    {
      var t := NewTask(n, k);
      AddTask(t);
    }

    method CancelTasks(n: Node)
      requires Valid()
      modifies this
      ensures Valid() && Repr == old(Repr)
      ensures view == Spec.CancelTasks(old(view), n)
      ensures queue == old(queue) - {n}
    {
      queue := queue - {n};
      view := Spec.CancelTasks(view, n);
      forall m | m in queue ensures SameQueue(m) {
        assert old(SameQueue(m));
      }
    }

    method RescheduleTasks(n: Node)
      requires Valid() && (n in view.queue ==> view.queue[n] != [])
      modifies Repr
      ensures Valid() && fresh(Repr - old(Repr))
      ensures view == Spec.RescheduleTasks(old(view), n)
    {
      if passive || !IsLowPower(n) {
        CancelTasks(n);
      } else if n in queue {
        assert SameQueue(n);
        if !queue[n][0].kind.Wake? {
          var wake := NewTask(n, Wake);
          SetQueue(n, [wake] + queue[n], [wake.Value()] + view.queue[n]);
        }
      }
    }

    method GetTasks(n: Node) returns (tasks: seq<TaskObject>)
      requires Valid()
      ensures Holds(tasks, Spec.GetTasks(view, n), n) && forall t | t in tasks :: t in Repr && Queued(t)
    {
      tasks := [];
      if n in queue {
        assert SameQueue(n);
        var q := queue[n];
        ghost var ts := view.queue[n];
        for i := 0 to |q|
          invariant Holds(tasks, Pending(ts[..i]), n)
          invariant forall t | t in tasks :: exists j :: 0 <= j < i && t == q[j]
        {
          assert ts[..i + 1][..i] == ts[..i] && ts[..i + 1][i] == ts[i];
          assert q[i].Value() == ts[i];
          if !q[i].kind.Wake? && !q[i].kind.Sleep? {
            assert Pending(ts[..i + 1]) == Pending(ts[..i]) + [ts[i]];
            forall k | 0 <= k < |tasks| ensures tasks[k] != q[i] {
              assert tasks[k] in tasks;
              var j :| 0 <= j < i && tasks[k] == q[j];
              assert queue[n][j] != queue[n][i];
            }
            tasks := tasks + [q[i]];
          } else {
            assert Pending(ts[..i]) + [] == Pending(ts[..i]);
          }
        }
        assert ts[..|q|] == ts;
      }
    }

    method SetSleepTime(n: Node)
      requires Valid()
      modifies Repr
      ensures Valid() && fresh(Repr - old(Repr))
      ensures view == Spec.SetSleepTime(old(view), n)
    {
      if legacy {
        if n !in configNodes {
          Schedule(n, DeleteOp(TASK_OP_CONF));
        }
        Schedule(n, New(TASK_OP_CONF, sleepTime));
      } else {
        Schedule(n, Change(TASK_OP_CONF, sleepTime));
      }
    }

    method SleepNode(n: Node)
      requires Valid() && !passive
      modifies Repr
      ensures Valid() && fresh(Repr - old(Repr))
      ensures view == Spec.SleepNode(old(view), n)
    {
      if !IsLowPower(n) {
        var alive := NewTask(n, Alive);
        SetQueue(n, [alive], [alive.Value()]);
        return;
      }
      var period := if n in sleepPeriod then sleepPeriod[n] else 0;
      if period != sleepTime {
        SetSleepTime(n);
        assert SameQueue(n);
        var sleep := NewTask(n, Sleep);
        SetQueue(n, queue[n] + [sleep], view.queue[n] + [sleep.Value()]);
      } else {
        var sleep := NewTask(n, Sleep);
        SetQueue(n, [sleep], [sleep.Value()]);
      }
    }

    // ---- Configuration slots

    method EnterConfiguration(n: Node)
      requires Valid()
      modifies Repr
      ensures Valid() && fresh(Repr - old(Repr))
      ensures view == old(view).(pool := Spec.EnterConfiguration(old(view.pool), n))
      ensures queue == old(queue) && forall u: TaskObject | old(allocated(u)) :: u.retries == old(u.retries)
    {
      assert |configNodes| == |view.pool.configNodes| by {
        assert |configNodes| == |configNodes.Keys| && |view.pool.configNodes| == |view.pool.configNodes.Keys|;
      }
      if |configNodes| < MAX_CONFIG_NODES && n !in configNodes {
        var timeout := new ConfigTimeout(n, clock);
        configNodes := configNodes[n := timeout];
        Repr := Repr + {timeout};
        view := view.(pool := Spec.EnterConfiguration(view.pool, n));
        KeepQueues();
      }
    }

    /** The queues do not change with the pool. */
    twostate lemma KeepQueues()
      requires old(QueuesValid()) && queue == old(queue) && old(Repr) <= Repr
      requires view.queue == old(view.queue)
      requires forall u: TaskObject | old(allocated(u)) :: u.retries == old(u.retries)
      ensures QueuesValid()
    {
      forall m | m in queue ensures SameQueue(m) {
        assert old(SameQueue(m));
      }
    }

    method RestartTimeout(n: Node)
      requires Valid() && n in configNodes
      modifies Repr
      ensures Valid() && Repr == old(Repr)
      ensures view == old(view).(pool := Spec.RestartTimer(old(view.pool), n))
      ensures queue == old(queue) && forall u: TaskObject | old(allocated(u)) :: u.retries == old(u.retries)
    {
      configNodes[n].Restart(clock);
      view := view.(pool := Spec.RestartTimer(view.pool, n));
      KeepQueues();
    }

    method LeaveConfiguration(n: Node)
      requires Valid()
      modifies Repr
      ensures Valid() && Repr == old(Repr)
      ensures view == old(view).(pool := Spec.LeaveConfiguration(old(view.pool), n))
      ensures queue == old(queue) && forall u: TaskObject | old(allocated(u)) :: u.retries == old(u.retries)
    {
      if n in configNodes {
        configNodes[n].Cancel(clock);
        configNodes := configNodes - {n};
        configuringNodes := configuringNodes - {n};
        view := view.(pool := Spec.LeaveConfiguration(view.pool, n));
        KeepQueues();
      }
    }

    // ---- Event callbacks

    method WakeResetCb(n: Node)
      requires Valid()
      modifies Repr
      ensures Valid() && fresh(Repr - old(Repr))
      ensures view == Spec.WakeResetCb(old(view), n)
    {
      EnterConfiguration(n);
      if n in configNodes {
        rec.Put(WakeResetAck(n));
        view := Note(view, WakeResetAck(n));
      }
    }

    method Configure(n: Node, cfg: seq<Kind>)
      requires Valid()
      modifies Repr
      ensures Valid() && old(Repr) <= Repr && fresh(Repr - old(Repr))
      ensures view == Spec.Configure(old(view), n, cfg)
      ensures forall u: TaskObject | old(allocated(u)) :: u.retries == old(u.retries)
      ensures forall u: TaskObject | old(allocated(u)) && u.node == n :: !Queued(u)
    {
      CancelTasks(n);
      sleepPeriod := sleepPeriod[n := 0];
      view := view.(sleepPeriod := view.sleepPeriod[n := 0]);
      ghost var v := view;
      for i := 0 to |cfg|
        invariant Valid() && old(Repr) <= Repr && fresh(Repr - old(Repr))
        invariant view == ScheduleAll(v, n, cfg[..i])
        invariant forall u: TaskObject | old(allocated(u)) :: u.retries == old(u.retries)
        invariant forall u: TaskObject | old(allocated(u)) && u.node == n :: !Queued(u)
      {
        assert cfg[..i + 1][..i] == cfg[..i];
        Schedule(n, cfg[i]);
      }
      assert cfg[..|cfg|] == cfg;
    }

    method AddTasks(n: Node, tasks: seq<TaskObject>, ghost ts: seq<Task>)
      requires Valid() && Holds(tasks, ts, n)
      requires forall t | t in tasks :: t in Repr && !Queued(t)
      modifies Repr
      ensures Valid() && fresh(Repr - old(Repr))
      ensures view == AddAll(old(view), n, ts)
    {
      ghost var v := view;
      for i := 0 to |tasks|
        invariant Valid() && fresh(Repr - old(Repr))
        invariant view == AddAll(v, n, ts[..i])
        invariant forall j | i <= j < |tasks| :: tasks[j].Value() == ts[j] && !Queued(tasks[j])
      {
        assert ts[..i + 1][..i] == ts[..i];
        assert tasks[i] in tasks;
        AddTask(tasks[i]);
      }
      assert ts[..|ts|] == ts;
    }

    method Reconfigure(n: Node, cfg: seq<Kind>)
      requires Valid()
      modifies Repr
      ensures Valid() && fresh(Repr - old(Repr))
      ensures view == Spec.Reconfigure(old(view), n, cfg)
    {
      hide Spec.Configure, AddAll, Pending;
      var pending := GetTasks(n);
      ghost var ts := Spec.GetTasks(view, n);
      Configure(n, cfg);
      AddTasks(n, pending, ts);
      MarkConfiguring(n);
    }

    method MarkConfiguring(n: Node)
      requires Valid()
      modifies this`configuringNodes, this`view
      ensures Valid()
      ensures view == old(view).(pool := old(view.pool).(configuring := old(view.pool.configuring) + {n}))
    {
      configuringNodes := configuringNodes + {n};
      view := view.(pool := view.pool.(configuring := view.pool.configuring + {n}));
      KeepQueues();
    }

    method NotifyCb(n: Node, conf: NotifyConf, cfg: seq<Kind>)
      requires Valid() && !passive
      modifies Repr
      ensures Valid() && fresh(Repr - old(Repr))
      ensures view == Spec.NotifyCb(old(view), n, conf, cfg)
    {
      match conf
      case Legacy =>
        if n in configNodes {
          Configure(n, cfg);
        } else if n !in queue {
          SleepNode(n);
        }
      case NotConfigured =>
        EnterConfiguration(n);
        if n in configNodes && n !in configuringNodes {
          Reconfigure(n, cfg);
        }
      case Configured =>
        if n !in queue {
          SleepNode(n);
        }
    }

    /** The callbacks and the restart of the configuration timeout. */
    method Notice(n: Node, e: EventType, cfg: seq<Kind>)
      requires Valid() && !passive
      modifies Repr
      ensures Valid() && fresh(Repr - old(Repr))
      ensures view == Spec.Notice(old(view), n, e, cfg)
    {
      if e.WakeReset? {
        WakeResetCb(n);
      } else if e.WakeNotify? {
        NotifyCb(n, e.conf, cfg);
      }
      if n in configNodes {
        RestartTimeout(n);
      }
    }

    /** The success method of the head. */
    method Success(n: Node, e: EventType)
      requires Valid() && HasHead(view, n) && Ready(Head(view, n))
      modifies Repr
      ensures Valid() && fresh(Repr - old(Repr))
      ensures view == Spec.OnSuccess(old(view), n, e)
    {
      hide Spec.Schedule;
      assert SameQueue(n) && queue[n][0].Value() == Head(view, n);
      match queue[n][0].kind
      case Wake => Log(Awaked(n));
      case Reset => Log(Forgotten(n));
      case New(op, period) => if op == TASK_OP_CONF { LearnSleepPeriod(n, period); }
      case Change(op, period) => if op == TASK_OP_CONF { LearnSleepPeriod(n, period); }
      case Ota(_) => if e.OtaAck? && e.status == 0 { Schedule(n, New(TASK_OP_UPDATE, 0)); }
      case _ =>
    }

    method Log(e: Entry)
      requires Valid()
      modifies rec, this`view
      ensures Valid() && view == Note(old(view), e)
    {
      rec.Put(e);
      view := Note(view, e);
    }

    method LearnSleepPeriod(n: Node, period: nat)
      requires Valid()
      modifies this`sleepPeriod, this`view
      ensures Valid() && view == old(view).(sleepPeriod := old(view.sleepPeriod)[n := period])
    {
      sleepPeriod := sleepPeriod[n := period];
      view := view.(sleepPeriod := view.sleepPeriod[n := period]);
    }

    /** The error method of the head. */
    method Error(n: Node)
      requires Valid() && HasHead(view, n)
      modifies Repr
      ensures Valid() && fresh(Repr - old(Repr))
      ensures view == Spec.OnError(old(view), n)
    {
      assert SameQueue(n) && queue[n][0].Value() == Head(view, n);
      var t := queue[n][0];
      if Retrying(t.kind) && t.retries >= MAX_RETRIES {
        RescheduleTasks(n);
      } else {
        Execute(n);
      }
    }

    /** Take the head, which has succeeded, off the queue and go on. */
    method Advance(n: Node)
      requires Valid() && !passive && HasHead(view, n)
      modifies Repr
      ensures Valid() && fresh(Repr - old(Repr))
      ensures view == Spec.Advance(old(view), n)
    {
      assert SameQueue(n) && queue[n][0].Value() == Head(view, n);
      var task := queue[n][0];
      PopHead(n);
      if Terminal(task.kind) {
        LeaveConfiguration(n);
        CancelTasks(n);
      } else if queue[n] != [] {
        Execute(n);
      } else if n in configNodes || IsLowPower(n) {
        SleepNode(n);
        Execute(n);
      } else {
        CancelTasks(n);
      }
    }

    method PopHead(n: Node)
      requires Valid() && HasHead(view, n)
      modifies this
      ensures Valid() && Repr == old(Repr)
      ensures n in queue && n in view.queue && |queue[n]| == |view.queue[n]|
      ensures view == Spec.SetQueue(old(view), n, old(view.queue[n])[1..])
    {
      assert SameQueue(n);
      var q := queue[n];
      SetQueue(n, q[1..], view.queue[n][1..]);
      assert (set t | t in q[1..]) <= old(Repr);
      assert Repr == old(Repr);
    }

    method TaskHandler(n: Node, e: EventType, cfg: seq<Kind>)
      requires Valid()
      requires !Ignored(view, n) ==> HeadFound(Spec.Notice(view, n, e, cfg), n)
      modifies Repr
      ensures Valid() && fresh(Repr - old(Repr))
      ensures view == Spec.TaskHandler(old(view), n, e, cfg)
    {
      hide Spec.Notice, Spec.OnSuccess, Spec.OnError, Spec.Advance;
      if passive || n !in whitelist {
        return;
      }
      Notice(n, e, cfg);
      if n in queue {
        assert SameQueue(n) && queue[n][0].Value() == Head(view, n);
        if Succeeds(queue[n][0].kind, e) {
          Success(n, e);
          Advance(n);
        } else if Fails(queue[n][0].kind, e) {
          Error(n);
        }
      }
    }

    // ---- The whitelist and the configuration timeouts

    method NodeCleanTasks(n: Node)
      requires Valid()
      modifies Repr
      ensures Valid() && Repr == old(Repr)
      ensures view == Spec.CleanTasks(old(view), n)
    {
      CancelTasks(n);
      LeaveConfiguration(n);
      label Left:
      configuringNodes := configuringNodes - {n};
      view := view.(pool := view.pool.(configuring := view.pool.configuring - {n}));
      KeepQueues@Left();
    }

    method WhitelistAdd(n: Node)
      requires Valid()
      modifies this`whitelist, this`view
      ensures Valid() && view == Spec.WhitelistAdd(old(view), n)
    {
      if n !in whitelist {
        whitelist := whitelist + [n];
        view := Spec.WhitelistAdd(view, n);
        KeepQueues();
      }
    }

    method WhitelistRemove(n: Node)
      requires Valid()
      modifies Repr
      ensures Valid() && Repr == old(Repr)
      ensures view == Spec.WhitelistRemove(old(view), n)
    {
      if n !in whitelist {
        return;
      }
      if n in queue || n in configNodes || n in configuringNodes {
        NodeCleanTasks(n);
      }
      DropFromWhitelist(n);
    }

    method DropFromWhitelist(n: Node)
      requires Valid()
      modifies this`whitelist, this`view
      ensures Valid()
      ensures view == old(view).(pool := old(view.pool).(whitelist := Without(old(view.pool.whitelist), n)))
    {
      whitelist := Without(whitelist, n);
      view := view.(pool := view.pool.(whitelist := Without(view.pool.whitelist, n)));
      KeepQueues();
    }

    method ConfigTimeoutHandler(n: Node)
      requires Valid()
      modifies Repr
      ensures Valid() && Repr == old(Repr)
      ensures view == Spec.ConfigTimeoutHandler(old(view), n)
    {
      WhitelistRemove(n);
      if n in configNodes {
        ForgetConfiguration(n);
      }
      CancelTasks(n);
    }

    method ForgetConfiguration(n: Node)
      requires Valid()
      modifies this`configNodes, this`configuringNodes, this`view
      ensures Valid()
      ensures view == old(view).(pool := old(view.pool).(configNodes := old(view.pool.configNodes) - {n},
                                                         configuring := old(view.pool.configuring) - {n}))
    {
      configNodes := configNodes - {n};
      configuringNodes := configuringNodes - {n};
      view := view.(pool := view.pool.(configNodes := view.pool.configNodes - {n},
                                       configuring := view.pool.configuring - {n}));
      KeepQueues();
    }

    /** A running timer expires and puts its event in the event queue. */
    method Expire(t: nat)
      requires Valid()
      modifies clock, this`view
      ensures Valid() && view == old(view).(pool := ExpireTimer(old(view.pool), t))
    {
      if t in clock.armed {
        clock.undelivered := clock.undelivered + multiset{clock.armed[t]};
        clock.armed := clock.armed - {t};
        view := view.(pool := ExpireTimer(view.pool, t));
        KeepQueues();
      }
    }

    /** Dispatch the event of an expired timer of `n` to the two handlers. */
    method Deliver(n: Node)
      requires Valid() && Inv(view)
      modifies Repr
      ensures Valid() && fresh(Repr - old(Repr))
      ensures view == Step(old(view), Label.Deliver(n))
    {
      if n !in clock.undelivered {
        return;
      }
      hide Spec.Notice, Spec.TaskHandler;
      LookupsSucceed(view, n, ConfigurationTimeout, []);
      TaskHandler(n, ConfigurationTimeout, []);
      ConfigTimeoutHandler(n);
      Settle(n);
    }

    method Settle(n: Node)
      requires Valid()
      modifies clock, this`view
      ensures Valid() && view == old(view).(pool := SchedulerRuns.Settle(old(view.pool), n))
    {
      clock.undelivered := clock.undelivered - multiset{n};
      view := view.(pool := SchedulerRuns.Settle(view.pool, n));
      KeepQueues();
    }

    /** Any step of a run: from a reachable state none of the lookups above can fail, and the
        objects are left standing for the next reachable state. */
    method Perform(l: Label)
      requires Valid() && Inv(view) && LabelOk(l)
      modifies Repr
      ensures Valid() && fresh(Repr - old(Repr))
      ensures view == Step(old(view), l) && Inv(view)
    {
      StepKeepsInv(view, l);
      match l
      case Add(n, k) => Schedule(n, k);
      case Cancel(n) => CancelTasks(n);
      case Permit(n) => WhitelistAdd(n);
      case Forbid(n) => WhitelistRemove(n);
      case WantSleepTime(v) => SetMode(passive, v);
      case SetListener(on) => SetMode(on, sleepTime);
      case Event(n, e, cfg) => Dispatch(n, e, cfg);
      case Expire(t) => Expire(t);
      case Deliver(n) => Deliver(n);
    }

    method Dispatch(n: Node, e: EventType, cfg: seq<Kind>)
      requires Valid() && Inv(view) && LabelOk(Event(n, e, cfg))
      modifies Repr
      ensures Valid() && fresh(Repr - old(Repr))
      ensures view == Step(old(view), Event(n, e, cfg))
    {
      hide Spec.Notice, Spec.TaskHandler;
      LookupsSucceed(view, n, e, cfg);
      TaskHandler(n, e, cfg);
    }

    method SetMode(passive: bool, sleepTime: nat)
      requires Valid()
      modifies this`passive, this`sleepTime, this`view
      ensures Valid()
      ensures view == old(view).(mode := old(view.mode).(passive := passive, sleepTime := sleepTime))
    {
      this.passive, this.sleepTime := passive, sleepTime;
      view := view.(mode := view.mode.(passive := passive, sleepTime := sleepTime));
      KeepQueues();
    }
  }
}
