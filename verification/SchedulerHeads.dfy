/** The task at the head of a queue has been told to its node, unless it waits for the node to wake
    up. */
module SchedulerHeads {
  import opened Options
  import opened Tasks
  import opened SchedulerSpec
  import opened SchedulerShape
  import opened SchedulerRuns
  import opened SchedulerProgress
  import opened SchedulerMessages
  import opened SchedulerWork

  /** The last command or signal sent to the node. */
  function LastTo(story: seq<Entry>, n: Node): Option<Entry>
    decreases |story|
  {
    if story == [] then None
    else
      var e := story[|story| - 1];
      if (e.Sent? || e.Signal?) && e.node == n then Some(e) else LastTo(story[..|story| - 1], n)
  }

  /** The last message to a node with a task at the head of its queue is the message of that task. A
      wake task may still wait for the next notification. */
  ghost predicate Announced(s: State, n: Node) {
    HasHead(s, n) && !Head(s, n).kind.Wake? ==>
      LastTo(Story(s.trace.log), n) == Some(Message(Head(s, n), n))
  }

  lemma {:induction false} LastToConcat(story: seq<Entry>, news: seq<Entry>, n: Node)
    ensures LastTo(story + news, n) == if LastTo(news, n).Some? then LastTo(news, n) else LastTo(story, n)
    decreases |news|
  {
    if news == [] {
      assert story + news == story;
    } else {
      var init := news[..|news| - 1];
      assert (story + news)[..|story + news| - 1] == story + init;
      LastToConcat(story, init, n);
    }
  }

  lemma LastToOne(e: Entry, n: Node)
    ensures LastTo([], n) == None
    ensures LastTo([e], n) == if (e.Sent? || e.Signal?) && e.node == n then Some(e) else None
  {
    assert [e][..0] == [];
  }

  /** The head is the same task, with as many tries or more, or a wake task, or there is none. */
  predicate SameHead(s: State, r: State, n: Node) {
    HasHead(r, n) && !Head(r, n).kind.Wake? ==>
      HasHead(s, n) && Head(s, n).id == Head(r, n).id && Head(s, n).kind == Head(r, n).kind
  }

  /** The news ends in the message of the head. */
  predicate EndsInHead(news: seq<Entry>, r: State, n: Node) {
    HasHead(r, n) ==> news != [] && news[|news| - 1] == Message(Head(r, n), n)
  }

  lemma EndKeepsAnnounced(s: State, r: State, news: seq<Entry>, n: Node)
    requires Tells(s, r, news) && EndsInHead(news, r, n)
    ensures Announced(r, n)
  {
    if HasHead(r, n) {
      var last := news[|news| - 1];
      assert Story(r.trace.log)[..|Story(r.trace.log)| - 1] + [last] == Story(r.trace.log);
    }
  }

  lemma SameKeepsAnnounced(s: State, r: State, news: seq<Entry>, n: Node)
    requires Tells(s, r, news) && SameHead(s, r, n) && Announced(s, n) && LastTo(news, n) == None
    ensures Announced(r, n)
  {
    LastToConcat(Story(s.trace.log), news, n);
  }

  /** The news of a step are about its node. */
  lemma NewsElsewhere(s: State, l: Label, r: State, n: Node)
    requires !About(l, n)
    ensures LastTo(News(s, l, r), n) == None
  {
    var news := News(s, l, r);
    if news != [] {
      assert forall e | e in news :: e.node == l.node;
      NoneTo(news, n);
    } else {
      LastToOne(Awaked(n), n);
    }
  }

  lemma {:induction false} NoneTo(news: seq<Entry>, n: Node)
    requires forall e | e in news :: e.node != n
    ensures LastTo(news, n) == None
    decreases |news|
  {
    if news != [] {
      NoneTo(news[..|news| - 1], n);
    }
  }

  lemma SuccessEnds(s: State, l: Label, n: Node)
    requires Inv(s) && LabelOk(l) && Advances(s, n, l)
    ensures EndsInHead(News(s, l, Step(s, l)), Step(s, l), n)
  {
    hide Step;
  }

  lemma TimeoutEnds(s: State, l: Label, n: Node)
    requires Inv(s) && LabelOk(l) && l.Event? && l.node == n && l.event.TaskTimeout? && !Ignored(s, n)
    requires HasHead(s, n) && Retrying(Head(s, n).kind)
    ensures var r, news := Step(s, l), News(s, l, Step(s, l));
      if Head(s, n).retries < MAX_RETRIES then EndsInHead(news, r, n) else SameHead(s, r, n) && news == []
  {
    if Head(s, n).retries >= MAX_RETRIES {
      ExhaustedStep(s, n, l.cfg);
    }
    hide Step;
  }

  lemma NotificationEnds(s: State, l: Label, n: Node)
    requires Inv(s) && LabelOk(l) && l.Event? && l.node == n && l.event.WakeNotify? && !Ignored(s, n)
    ensures var r, news := Step(s, l), News(s, l, Step(s, l));
      EndsInHead(news, r, n) || (SameHead(s, r, n) && news == [])
  {
    NotificationStep(s, l, n);
    var r := Step(s, l);
    if n !in s.queue && Settled(s, r, n) {
      PlannedHead(s, r.queue[n], n);
    }
    hide Step, Inv, CallbackTasks, GetTasks, LabelOk, Planned, SleepPlan;
  }

  lemma IdleEnds(s: State, l: Label, n: Node)
    requires Inv(s) && LabelOk(l) && l.Event? && l.node == n && !Advances(s, n, l)
    requires Ignored(s, n) || (!l.event.WakeNotify?
               && !(l.event.TaskTimeout? && HasHead(s, n) && Retrying(Head(s, n).kind)))
    ensures var r := Step(s, l); SameHead(s, r, n) && LastTo(News(s, l, r), n) == None
  {
    LastToOne(WakeResetAck(n), n);
    if Ignored(s, n) {
      EventIsHandled(s, n, l.event, l.cfg);
    } else {
      IdleStep(s, l, n);
    }
    hide Step, Inv, LabelOk;
  }

  lemma EventKeepsAnnounced(s: State, l: Label, n: Node)
    requires Inv(s) && LabelOk(l) && l.Event? && l.node == n && Announced(s, n)
    ensures Announced(Step(s, l), n)
  {
    StepTells(s, l);
    LastToOne(WakeResetAck(n), n);
    var r, news := Step(s, l), News(s, l, Step(s, l));
    hide Step, Inv, LabelOk, News, Announced, Tells, SameHead, EndsInHead;
    if Advances(s, n, l) {
      SuccessEnds(s, l, n);
      EndKeepsAnnounced(s, r, news, n);
    } else if !Ignored(s, n) && l.event.WakeNotify? {
      NotificationEnds(s, l, n);
      if EndsInHead(news, r, n) {
        EndKeepsAnnounced(s, r, news, n);
      } else {
        SameKeepsAnnounced(s, r, news, n);
      }
    } else if !Ignored(s, n) && l.event.TaskTimeout? && HasHead(s, n) && Retrying(Head(s, n).kind) {
      TimeoutEnds(s, l, n);
      if Head(s, n).retries < MAX_RETRIES {
        EndKeepsAnnounced(s, r, news, n);
      } else {
        SameKeepsAnnounced(s, r, news, n);
      }
    } else {
      IdleEnds(s, l, n);
      SameKeepsAnnounced(s, r, news, n);
    }
  }

  lemma AddKeepsAnnounced(s: State, n: Node, k: Kind)
    requires Inv(s) && LabelOk(Add(n, k)) && Announced(s, n)
    ensures Announced(Step(s, Add(n, k)), n)
  {
    var l := Add(n, k);
    StepTells(s, l);
    AddStep(s, n, k);
    LastToOne(Awaked(n), n);
    var r, news := Step(s, l), News(s, l, Step(s, l));
    hide Step, Announced, Tells, PoolOk, TimersOk;
    if GoesAtOnce(s, n) {
      EndKeepsAnnounced(s, r, news, n);
    } else {
      SameKeepsAnnounced(s, r, news, n);
    }
  }

  /** The calls and timeouts that take a node's queue or leave it alone. */
  lemma CallKeepsAnnounced(s: State, l: Label, n: Node)
    requires Inv(s) && LabelOk(l) && About(l, n) && !l.Event? && !l.Add? && Announced(s, n)
    ensures Announced(Step(s, l), n)
  {
    StepTells(s, l);
    LastToOne(Awaked(n), n);
    if l.Forbid? {
      WhitelistRemovePool(s, n);
    } else if l.Deliver? && n in s.pool.undelivered {
      DeliverRemoves(s, n);
    }
    hide QueuesOk, PoolOk, TimersOk, TaskHandler, ConfigTimeoutHandler, Announced, Tells;
    SameKeepsAnnounced(s, Step(s, l), News(s, l, Step(s, l)), n);
  }

  lemma StepKeepsAnnounced(s: State, l: Label, n: Node)
    requires Inv(s) && LabelOk(l) && Announced(s, n)
    ensures Announced(Step(s, l), n)
  {
    hide Step, Inv, LabelOk, Announced;
    if !About(l, n) {
      StepTells(s, l);
      StepOther(s, l, n);
      NewsElsewhere(s, l, Step(s, l), n);
      SameKeepsAnnounced(s, Step(s, l), News(s, l, Step(s, l)), n);
    } else if l.Event? {
      EventKeepsAnnounced(s, l, n);
    } else if l.Add? {
      AddKeepsAnnounced(s, n, l.kind);
    } else {
      CallKeepsAnnounced(s, l, n);
    }
  }

  /** Over every run: when a queue has a head that is no wake task, the last message to its node is
      the command, sleep, alive or reset message of that head. So no acknowledgement is waited for
      that the node has not been asked for. */
  lemma {:induction false} HeadsAreAnnounced(mode: Mode, sleepPeriod: map<Node, nat>, ls: seq<Label>, n: Node)
    requires RunOk(ls)
    ensures var s := RunFrom(mode, sleepPeriod, ls);
      n in s.queue && !Head(s, n).kind.Wake? ==>
        LastTo(Story(s.trace.log), n) == Some(Message(Head(s, n), n))
    decreases |ls|
  {
    if ls != [] {
      var init, l := ls[..|ls| - 1], ls[|ls| - 1];
      HeadsAreAnnounced(mode, sleepPeriod, init, n);
      StepKeepsAnnounced(RunFrom(mode, sleepPeriod, init), l, n);
    }
  }
}
