/** The protocol does not get stuck: whatever has been queued is sent, and the permits come back. */
module ProtocolProgress {
  import opened Protocol

  /** The steps with which thread, dispatcher, callers and device work off what there is to do. The
      others bring in something new. */
  predicate Works(l: Label) {
    !l.Enqueue? && !l.CallHandle? && !l.CallConfig? && !l.Post? && !l.Say?
  }

  function ThreadWork(t: Thread): nat {
    match t
    case Idle => 0
    case Sending(_) => 1
    case Acquired(_) => 7
    case Taken(_) => 8
  }

  /** How many steps of work there are at most. */
  function Work(s: State): nat {
    9 * (|s.sendQueue| + |s.lowQueue|) + ThreadWork(s.thread) + (if s.call.Some? then 1 else 0)
    + 4 * |s.toDevice| + |s.toHost| + 2 * |s.inFlight|
  }

  /** A step of work leaves less of it, and any other step adds a bounded amount. */
  lemma StepWorks(s: State, l: Label)
    requires Possible(s, l)
    ensures if Works(l) then Work(Step(s, l)) < Work(s) else Work(Step(s, l)) <= Work(s) + 9
  {
    hide Waited, RspHandler, SentHandler, DevEventHandler;
  }

  function Worked(ls: seq<Label>): nat {
    if ls == [] then 0 else (if Works(ls[0]) then 1 else 0) + Worked(ls[1..])
  }

  /** Over every run the steps of work are bounded by what there was to do and what was brought in. */
  lemma {:induction false} WorkIsBounded(s: State, ls: seq<Label>)
    requires RunOk(s, ls)
    ensures Worked(ls) + Work(Run(s, ls)) <= Work(s) + 9 * (|ls| - Worked(ls))
    decreases |ls|
  {
    if ls != [] {
      StepWorks(s, ls[0]);
      hide Step, Possible, Work, Works;
      WorkIsBounded(Step(s, ls[0]), ls[1..]);
    }
  }

  /** As long as there is work somebody can go on with it: the dispatcher, the device, the waiting
      caller or the thread. Nobody waits for a permit or a response that is not on its way. */
  lemma SomebodyCanWork(s: State) returns (l: Label)
    requires Inv(s) && Work(s) > 0
    ensures Works(l) && Possible(s, l) && Distinct(s, l)
  {
    hide Waited, MessagesOk, ReturnedOk;
    if s.toHost != [] {
      l := Dispatch;
    } else if s.toDevice != [] {
      l := Reply(1, 0);
    } else if s.inFlight != {} {
      var token :| token in s.inFlight;
      l := Complete(token);
    } else if s.call.Some? {
      l := Return;
    } else if s.thread.Acquired? {
      l := CallSend;
    } else if s.thread.Taken? {
      l := Acquire;
    } else {
      l := TakeNext;
    }
  }

  /** Without work the gateway has all its permits and has sent every message in order. */
  lemma WorkDone(s: State)
    requires Inv(s) && Work(s) == 0
    ensures s.tx == Tx(PERMITS, {}) && s.toDevice == [] && s.toHost == [] && s.call.None? && s.thread.Idle?
    ensures OfPriority(s.sent, false) == OfPriority(s.queued, false)
    ensures OfPriority(s.sent, true) == OfPriority(s.queued, true)
  {
    hide OfPriority, CallOk, ReturnedOk;
    assert Passed(s) == s.sent;
    assert s.sendQueue == [] && s.lowQueue == [];
    assert OfPriority(s.sent, false) + [] == OfPriority(s.sent, false);
    assert OfPriority(s.sent, true) + [] == OfPriority(s.sent, true);
  }

  /** From every reachable state there is a way to send everything: no longer than the work. */
  lemma {:induction false} EverythingCanBeSent(s: State) returns (ls: seq<Label>)
    requires Inv(s)
    ensures RunOk(s, ls) && AllDistinct(s, ls) && (forall l | l in ls :: Works(l)) && |ls| <= Work(s)
    ensures Work(Run(s, ls)) == 0
    decreases Work(s)
  {
    if Work(s) == 0 {
      ls := [];
    } else {
      hide Step, Possible, Distinct, Work, Works, Inv;
      var l := SomebodyCanWork(s);
      StepKeepsInv(s, l);
      StepWorks(s, l);
      var rest := EverythingCanBeSent(Step(s, l));
      ls := [l] + rest;
      RunOn(s, l, rest);
      assert ls[1..] == rest;
    }
  }

  /** Whatever has happened: working on comes to an end, whoever goes on with whatever answers and
      completions, and not before everything is sent and all permits are back. */
  lemma EverythingIsSent(before: seq<Label>, ls: seq<Label>)
    requires RunOk(INITIAL, before) && AllDistinct(INITIAL, before)
    requires RunOk(Run(INITIAL, before), ls) && AllDistinct(Run(INITIAL, before), ls)
    requires forall l | l in ls :: Works(l)
    ensures var s, t := Run(INITIAL, before), Run(Run(INITIAL, before), ls);
      && |ls| <= Work(s)
      && ((exists l :: Works(l) && Possible(t, l) && Distinct(t, l))
          || (t.tx == Tx(PERMITS, {}) && (forall low :: OfPriority(t.sent, low) == OfPriority(t.queued, low))))
  {
    var s := Run(INITIAL, before);
    hide Step, Possible, Distinct, Work, Works;
    RunKeepsInv(INITIAL, before);
    RunKeepsInv(s, ls);
    WorkIsBounded(s, ls);
    AllWorked(ls);
    var t := Run(s, ls);
    if Work(t) > 0 {
      var l := SomebodyCanWork(t);
    } else {
      WorkDone(t);
    }
  }

  lemma {:induction false} AllWorked(ls: seq<Label>)
    requires forall l | l in ls :: Works(l)
    ensures Worked(ls) == |ls|
  {
    if ls != [] {
      assert ls[0] in ls;
      AllWorked(ls[1..]);
    }
  }
}
