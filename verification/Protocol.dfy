/** The command protocol between the gateway and its radio device: the transmission thread, the
    thread that dispatches events, the device, and the two first-in first-out serial channels
    between them. */
module Protocol {
  import opened Options

  const PERMITS: nat := 3
  const PACKET_SEND: nat := 0xAB

  /** Opcodes of the commands whose sender waits for the response: state clear, unicast address,
      net state, subnet, application key and subscription of the device configuration; device
      key add and delete, publication add and remove, and packet send of a transmission. */
  predicate Waited(op: nat) {
    || op == 0xAC || op == 0x9F || op == 0xAE || op == 0x92 || op == 0x97 || op == 0xA1
    || op == 0x9C || op == 0x9D || op == 0xA4 || op == 0xA6 || op == PACKET_SEND
  }

  /** A message for a node or an address; the two queues of the transmission manager differ in
      priority. */
  datatype Item = Item(id: nat, low: bool)

  /** A command on the serial line. The tag tells commands with equal opcodes apart. */
  datatype Cmd = Cmd(opcode: nat, tag: nat)

  /** The response to the command `tag`. A packet that is sent gets a token. */
  datatype Response = Response(opcode: nat, tag: nat, result: nat, token: nat)

  datatype Evt = Rsp(r: Response) | TxComplete(token: nat) | Unrelated

  // ---- The gateway's handlers

  /** The semaphore of the transmission manager and its set of accepted packets. */
  datatype Tx = Tx(permits: nat, pending: set<nat>)

  /** The flags of a caller that waits for a response. */
  datatype Waiter = Waiter(opcode: Option<nat>, complete: bool, response: Option<Response>)

  function RspHandler(tx: Tx, e: Evt): Tx {
    if e.Rsp? && e.r.opcode == PACKET_SEND then
      if e.r.result == 0 then tx.(pending := tx.pending + {e.r.token})
      else tx.(permits := tx.permits + 1)
    else tx
  }

  function SentHandler(tx: Tx, e: Evt): Tx {
    if e.TxComplete? && e.token in tx.pending
    then Tx(tx.permits + 1, tx.pending - {e.token})
    else tx
  }

  function DevEventHandler(w: Waiter, e: Evt): Waiter {
    if !e.Rsp? then w
    else if e.r.opcode != PACKET_SEND then
      if w.opcode == Some(e.r.opcode) then w.(complete := true, response := Some(e.r)) else w
    else
      if w.opcode == Some(PACKET_SEND) then w.(complete := true, response := Some(e.r)) else w
  }

  // ---- The whole system

  /** Where the transmission thread is with the message it took from its queues. */
  datatype Thread = Idle | Taken(item: Item) | Acquired(item: Item) | Sending(item: Item)

  datatype Caller = TxThread | ConfigThread

  datatype Call = Call(cmd: Cmd, who: Caller)

  datatype State = State(
    sendQueue: seq<Item>,
    lowQueue: seq<Item>,
    tx: Tx,
    waiter: Waiter,
    thread: Thread,
    call: Option<Call>,          // the command somebody waits for
    toDevice: seq<Cmd>,
    toHost: seq<Evt>,
    inFlight: set<nat>,          // packets the device has accepted and not completed
    nextTag: nat,
    queued: seq<Item>,           // every message ever put in a queue
    sent: seq<Item>,             // every message handed to the device
    returned: seq<(Cmd, Response)>) // every command waited for, with what its caller got

  datatype Label =
    | Enqueue(item: Item)
    | TakeNext
    | Acquire
    | CallHandle(opcode: nat)    // a key or address command on behalf of the message in hand
    | CallSend
    | CallConfig(opcode: nat)    // the device configuration waits for a command
    | Return                     // the waiting caller sees that its command is complete
    | Post(opcode: nat)          // a command nobody waits for
    | Reply(result: nat, token: nat)
    | Consume                    // the device leaves a command nobody waits for unanswered
    | Complete(token: nat)
    | Say(evt: Evt)              // an event the device sends of its own accord
    | Dispatch

  const INITIAL: State :=
    State([], [], Tx(PERMITS, {}), Waiter(None, false, None), Idle, None, [], [], {}, 0, [], [], [])

  predicate Accepted(r: Response) {
    r.opcode == PACKET_SEND && r.result == 0
  }

  /** When a step can happen. The device answers every command somebody may wait for, answers in
      order, and completes only packets it works on; its own events are no responses. */
  predicate Possible(s: State, l: Label) {
    match l
    case TakeNext => s.thread.Idle? && (s.sendQueue != [] || s.lowQueue != [])
    case Acquire => s.thread.Taken? && s.tx.permits > 0
    case CallHandle(op) => s.thread.Acquired? && s.call.None? && Waited(op) && op != PACKET_SEND
    case CallSend => s.thread.Acquired? && s.call.None?
    case CallConfig(op) => s.call.None? && Waited(op) && op != PACKET_SEND
    case Return => s.call.Some? && s.waiter.complete
    case Post(op) => !Waited(op)
    case Reply(_, _) => s.toDevice != []
    case Consume => s.toDevice != [] && !Waited(s.toDevice[0].opcode)
    case Complete(token) => token in s.inFlight
    case Say(e) => !e.Rsp?
    case Dispatch => s.toHost != []
    case Enqueue(_) => true
  }

  /** The device tells the packets it works on apart: it accepts none under the token of another,
      and says that one is complete only when it is. */
  predicate Distinct(s: State, l: Label) {
    match l
    case Reply(result, token) =>
      s.toDevice != [] && Accepted(Response(s.toDevice[0].opcode, 0, result, token)) ==> token !in s.inFlight
    case Say(e) => e.TxComplete? ==> e.token !in s.inFlight
    case _ => true
  }

  function StartCall(s: State, op: nat, who: Caller): State {
    var cmd := Cmd(op, s.nextTag);
    s.(waiter := s.waiter.(opcode := Some(op), complete := false),
       call := Some(Call(cmd, who)), toDevice := s.toDevice + [cmd], nextTag := s.nextTag + 1)
  }

  function Step(s: State, l: Label): State
    requires Possible(s, l)
  {
    match l
    case Enqueue(item) =>
      if item.low then s.(lowQueue := s.lowQueue + [item], queued := s.queued + [item])
      else s.(sendQueue := s.sendQueue + [item], queued := s.queued + [item])
    case TakeNext =>
      if s.sendQueue != [] then s.(thread := Taken(s.sendQueue[0]), sendQueue := s.sendQueue[1..])
      else s.(thread := Taken(s.lowQueue[0]), lowQueue := s.lowQueue[1..])
    case Acquire =>
      s.(thread := Acquired(s.thread.item), tx := s.tx.(permits := s.tx.permits - 1))
    case CallHandle(op) => StartCall(s, op, TxThread)
    case CallSend =>
      StartCall(s, PACKET_SEND, TxThread).(thread := Sending(s.thread.item), sent := s.sent + [s.thread.item])
    case CallConfig(op) => StartCall(s, op, ConfigThread)
    case Return =>
      var r := match s.waiter.response case Some(r) => r case None => Response(0, 0, 0, 0);
      s.(call := None, returned := s.returned + [(s.call.value.cmd, r)],
         thread := if s.call.value.who.TxThread? && s.thread.Sending? then Idle else s.thread)
    case Post(op) =>
      s.(toDevice := s.toDevice + [Cmd(op, s.nextTag)], nextTag := s.nextTag + 1)
    case Reply(result, token) =>
      var cmd := s.toDevice[0];
      s.(toDevice := s.toDevice[1..],
         toHost := s.toHost + [Rsp(Response(cmd.opcode, cmd.tag, result, token))],
         inFlight := if cmd.opcode == PACKET_SEND && result == 0 then s.inFlight + {token} else s.inFlight)
    case Consume => s.(toDevice := s.toDevice[1..])
    case Complete(token) =>
      s.(inFlight := s.inFlight - {token}, toHost := s.toHost + [TxComplete(token)])
    case Say(e) => s.(toHost := s.toHost + [e])
    case Dispatch =>
      var e := s.toHost[0];
      s.(toHost := s.toHost[1..], tx := SentHandler(RspHandler(s.tx, e), e),
         waiter := DevEventHandler(s.waiter, e))
  }

  // ---- The invariant

  /** The commands on the line that somebody waits for, and the responses to such commands. */
  function Calls(cmds: seq<Cmd>): seq<Cmd> {
    if cmds == [] then []
    else (if Waited(cmds[0].opcode) then [cmds[0]] else []) + Calls(cmds[1..])
  }

  function Replies(evts: seq<Evt>): seq<Cmd> {
    if evts == [] then []
    else (if evts[0].Rsp? && Waited(evts[0].r.opcode) then [Cmd(evts[0].r.opcode, evts[0].r.tag)] else [])
         + Replies(evts[1..])
  }

  /** Exactly the command somebody waits for is on its way, as a command or as its response; a
      caller whose command is complete holds the response to that very command. */
  ghost predicate CallOk(s: State) {
    match s.call
    case None => !s.thread.Sending? && Replies(s.toHost) + Calls(s.toDevice) == []
    case Some(c) =>
      && s.waiter.opcode == Some(c.cmd.opcode) && Waited(c.cmd.opcode)
      && (c.cmd.opcode == PACKET_SEND <==> s.thread.Sending?)
      && (c.who.ConfigThread? ==> c.cmd.opcode != PACKET_SEND)
      && (if s.waiter.complete then
            && Replies(s.toHost) + Calls(s.toDevice) == []
            && s.waiter.response.Some?
            && s.waiter.response.value.tag == c.cmd.tag
            && s.waiter.response.value.opcode == c.cmd.opcode
          else
            Replies(s.toHost) + Calls(s.toDevice) == [c.cmd])
  }

  /** A permit has been acquired for a packet whose response has not been dispatched. */
  predicate Unanswered(s: State) {
    s.thread.Acquired? || (s.thread.Sending? && !s.waiter.complete)
  }

  /** The permits that are free, the one of a packet without its response, and those of the accepted
      packets. */
  function Sum(s: State): nat {
    s.tx.permits + (if Unanswered(s) then 1 else 0) + |s.tx.pending|
  }

  function After(tokens: set<nat>, e: Evt): Option<set<nat>> {
    match e
    case Rsp(r) => if !Accepted(r) then Some(tokens) else if r.token in tokens then None else Some(tokens + {r.token})
    case TxComplete(token) => Some(tokens - {token})
    case Unrelated => Some(tokens)
  }

  /** The packets under way after these events, if no two of them share a token. */
  function Working(tokens: set<nat>, evts: seq<Evt>): Option<set<nat>>
    decreases |evts|
  {
    if evts == [] then Some(tokens)
    else match After(tokens, evts[0]) case None => None case Some(t) => Working(t, evts[1..])
  }

  /** What the gateway holds for accepted and has yet to read is what the device works on. */
  ghost predicate TokensOk(s: State) {
    Working(s.tx.pending, s.toHost) == Some(s.inFlight)
  }

  function OfPriority(items: seq<Item>, low: bool): seq<Item>
    decreases |items|
  {
    if items == [] then []
    else
      var last := items[|items| - 1];
      OfPriority(items[..|items| - 1], low) + if last.low == low then [last] else []
  }

  /** The messages handed to the device, then the one in the thread's hands. */
  function Passed(s: State): seq<Item> {
    s.sent + if s.thread.Taken? || s.thread.Acquired? then [s.thread.item] else []
  }

  /** Of each priority, in order: passed on, and still queued. */
  ghost predicate MessagesOk(s: State) {
    && OfPriority(Passed(s), false) + s.sendQueue == OfPriority(s.queued, false)
    && OfPriority(Passed(s), true) + s.lowQueue == OfPriority(s.queued, true)
    && (forall i | i in s.sendQueue :: !i.low) && (forall i | i in s.lowQueue :: i.low)
  }

  ghost predicate ReturnedOk(s: State) {
    forall i | 0 <= i < |s.returned| ::
      s.returned[i].1.tag == s.returned[i].0.tag && s.returned[i].1.opcode == s.returned[i].0.opcode
  }

  /** Calls and messages are in order, whatever tokens the device gives. */
  ghost predicate TalkOk(s: State) {
    CallOk(s) && MessagesOk(s) && ReturnedOk(s)
  }

  ghost predicate Inv(s: State) {
    TalkOk(s) && Sum(s) == PERMITS && TokensOk(s)
  }

  // ---- Channels

  lemma {:induction false} CallsAppend(cmds: seq<Cmd>, c: Cmd)
    ensures Calls(cmds + [c]) == Calls(cmds) + if Waited(c.opcode) then [c] else []
  {
    hide Waited;
    if cmds == [] {
      assert [] + [c] == [c];
    } else {
      CallsAppend(cmds[1..], c);
      assert (cmds + [c])[1..] == cmds[1..] + [c];
      var first := if Waited(cmds[0].opcode) then [cmds[0]] else [];
      assert Calls(cmds + [c]) == first + Calls(cmds[1..] + [c]);
    }
  }

  lemma {:induction false} RepliesAppend(evts: seq<Evt>, e: Evt)
    ensures Replies(evts + [e]) ==
              Replies(evts) + if e.Rsp? && Waited(e.r.opcode) then [Cmd(e.r.opcode, e.r.tag)] else []
  {
    hide Waited;
    if evts == [] {
      assert [] + [e] == [e];
    } else {
      assert (evts + [e])[1..] == evts[1..] + [e];
      RepliesAppend(evts[1..], e);
    }
  }

  lemma {:induction false} WorkingAppend(tokens: set<nat>, evts: seq<Evt>, e: Evt)
    requires Working(tokens, evts).Some?
    ensures Working(tokens, evts + [e]) == After(Working(tokens, evts).value, e)
    decreases |evts|
  {
    if evts == [] {
      assert [] + [e] == [e];
    } else {
      assert (evts + [e])[1..] == evts[1..] + [e];
      WorkingAppend(After(tokens, evts[0]).value, evts[1..], e);
    }
  }

  /** A successful packet response on the line is one of the responses somebody waits for. */
  lemma {:induction false} WorkingFew(tokens: set<nat>, evts: seq<Evt>)
    requires Working(tokens, evts).Some?
    ensures |Working(tokens, evts).value| <= |tokens| + |Replies(evts)|
    ensures (forall c | c in Replies(evts) :: c.opcode != PACKET_SEND) ==> |Working(tokens, evts).value| <= |tokens|
    decreases |evts|
  {
    if evts != [] {
      WorkingFew(After(tokens, evts[0]).value, evts[1..]);
    }
  }

  lemma {:induction false} OfPriorityAppend(items: seq<Item>, i: Item, low: bool)
    ensures OfPriority(items + [i], low) == OfPriority(items, low) + if i.low == low then [i] else []
  {
    assert (items + [i])[..|items|] == items;
  }

  // ---- Each step keeps the invariant

  lemma StartKeepsCall(s: State, op: nat, who: Caller)
    requires CallOk(s) && s.call.None? && Waited(op)
    ensures var r := StartCall(s, op, who);
      Replies(r.toHost) + Calls(r.toDevice) == [Cmd(op, s.nextTag)]
  {
    hide Waited;
    CallsAppend(s.toDevice, Cmd(op, s.nextTag));
  }

  lemma ReplyKeepsCall(s: State, result: nat, token: nat)
    requires Possible(s, Reply(result, token))
    ensures var r := Step(s, Reply(result, token));
      Replies(r.toHost) + Calls(r.toDevice) == Replies(s.toHost) + Calls(s.toDevice)
  {
    hide Waited;
    var c := s.toDevice[0];
    RepliesAppend(s.toHost, Rsp(Response(c.opcode, c.tag, result, token)));
  }

  lemma DispatchKeepsCall(s: State)
    requires CallOk(s) && s.toHost != []
    ensures CallOk(Step(s, Dispatch))
  {
    var e := s.toHost[0];
    if e.Rsp? && Waited(e.r.opcode) {
      assert (Replies(s.toHost) + Calls(s.toDevice))[0] == Cmd(e.r.opcode, e.r.tag);
    }
  }

  lemma StepKeepsCall(s: State, l: Label)
    requires CallOk(s) && Possible(s, l)
    ensures CallOk(Step(s, l))
  {
    assert Waited(PACKET_SEND);
    hide Waited, RspHandler, SentHandler, DevEventHandler;
    match l
    case Dispatch => DispatchKeepsCall(s);
    case CallHandle(op) => StartKeepsCall(s, op, TxThread);
    case CallSend => StartKeepsCall(s, PACKET_SEND, TxThread);
    case CallConfig(op) => StartKeepsCall(s, op, ConfigThread);
    case Post(op) => CallsAppend(s.toDevice, Cmd(op, s.nextTag));
    case Reply(result, token) => ReplyKeepsCall(s, result, token);
    case Complete(token) => RepliesAppend(s.toHost, TxComplete(token));
    case Say(e) => RepliesAppend(s.toHost, e);
    case _ =>
  }

  /** A packet response at the front of the line answers the packet the thread is sending. */
  lemma PacketResponse(s: State)
    requires CallOk(s)
    requires s.toHost != [] && s.toHost[0].Rsp? && s.toHost[0].r.opcode == PACKET_SEND
    ensures s.thread.Sending? && !s.waiter.complete && s.waiter.opcode == Some(PACKET_SEND)
  {
    assert (Replies(s.toHost) + Calls(s.toDevice))[0] == Cmd(PACKET_SEND, s.toHost[0].r.tag);
  }

  /** The gateway reads that a packet was accepted, and holds another one under the same token. */
  predicate Loses(s: State, l: Label) {
    l.Dispatch? && s.toHost != [] && s.toHost[0].Rsp? && Accepted(s.toHost[0].r) && s.toHost[0].r.token in s.tx.pending
  }

  /** The handler of a packet's response gives its permit back or its token a place in `pending`,
      except when a packet is accepted under a token that waits there already. */
  lemma TokenReuseLosesAPermit(tx: Tx, e: Evt)
    requires e.Rsp? && e.r.opcode == PACKET_SEND
    ensures var r := RspHandler(tx, e);
      r.permits + |r.pending| ==
        tx.permits + |tx.pending| + if e.r.result == 0 && e.r.token in tx.pending then 0 else 1
  {
    if e.r.result == 0 && e.r.token in tx.pending {
      assert tx.pending + {e.r.token} == tx.pending;
    }
  }

  lemma StepCountsPermits(s: State, l: Label)
    requires CallOk(s) && Possible(s, l)
    ensures Sum(Step(s, l)) + (if Loses(s, l) then 1 else 0) == Sum(s)
  {
    hide Calls, Replies, Waited;
    if l.Dispatch? {
      var e := s.toHost[0];
      if e.Rsp? && e.r.opcode == PACKET_SEND {
        PacketResponse(s);
        TokenReuseLosesAPermit(s.tx, e);
        assert SentHandler(RspHandler(s.tx, e), e) == RspHandler(s.tx, e);
        assert Unanswered(s) && !Unanswered(Step(s, l));
      } else {
        assert Unanswered(Step(s, l)) == Unanswered(s);
      }
    } else {
      hide RspHandler, SentHandler, DevEventHandler;
    }
  }

  lemma StepKeepsTokens(s: State, l: Label)
    requires TokensOk(s) && Possible(s, l) && Distinct(s, l)
    ensures TokensOk(Step(s, l)) && !Loses(s, l)
  {
    hide Waited;
    match l
    case Reply(result, token) =>
      WorkingAppend(s.tx.pending, s.toHost, Rsp(Response(s.toDevice[0].opcode, s.toDevice[0].tag, result, token)));
    case Complete(token) => WorkingAppend(s.tx.pending, s.toHost, TxComplete(token));
    case Say(e) =>
      WorkingAppend(s.tx.pending, s.toHost, e);
      assert e.TxComplete? ==> s.inFlight - {e.token} == s.inFlight;
    case Dispatch =>
      var e := s.toHost[0];
      assert e.TxComplete? && e.token !in s.tx.pending ==> s.tx.pending - {e.token} == s.tx.pending;
    case _ =>
  }

  lemma TakeKeepsMessages(s: State)
    requires MessagesOk(s) && Possible(s, TakeNext)
    ensures MessagesOk(Step(s, TakeNext))
  {
    hide Waited;
    hide OfPriority;
    var q := if s.sendQueue != [] then s.sendQueue else s.lowQueue;
    assert q[0] in q;
    OfPriorityAppend(s.sent, q[0], false);
    OfPriorityAppend(s.sent, q[0], true);
    PassOn(OfPriority(s.sent, q[0].low), q);
    assert Passed(s) == s.sent;
    assert Passed(Step(s, TakeNext)) == s.sent + [q[0]];
    assert OfPriority(s.sent, !q[0].low) + [] == OfPriority(s.sent, !q[0].low);
  }

  lemma PassOn(passed: seq<Item>, q: seq<Item>)
    requires q != []
    ensures (passed + [q[0]]) + q[1..] == passed + q
  {
  }

  lemma StepKeepsMessages(s: State, l: Label)
    requires MessagesOk(s) && Possible(s, l) && (l.Return? ==> CallOk(s))
    ensures MessagesOk(Step(s, l))
  {
    hide Waited;
    hide OfPriority;
    match l
    case Enqueue(item) =>
      OfPriorityAppend(s.queued, item, false);
      OfPriorityAppend(s.queued, item, true);
      assert Passed(Step(s, l)) == Passed(s);
    case TakeNext => TakeKeepsMessages(s);
    case _ =>
      assert Passed(Step(s, l)) == Passed(s);
  }

  lemma StepKeepsReturned(s: State, l: Label)
    requires CallOk(s) && ReturnedOk(s) && Possible(s, l)
    ensures ReturnedOk(Step(s, l))
  {
    hide Waited;
  }

  lemma StepKeepsTalk(s: State, l: Label)
    requires TalkOk(s) && Possible(s, l)
    ensures TalkOk(Step(s, l))
  {
    StepKeepsCall(s, l);
    StepKeepsMessages(s, l);
    StepKeepsReturned(s, l);
  }

  lemma StepKeepsInv(s: State, l: Label)
    requires Inv(s) && Possible(s, l) && Distinct(s, l)
    ensures Inv(Step(s, l))
  {
    hide MessagesOk, ReturnedOk, Step;
    StepKeepsTalk(s, l);
    StepCountsPermits(s, l);
    StepKeepsTokens(s, l);
  }

  // ---- Runs

  ghost predicate RunOk(s: State, ls: seq<Label>)
    decreases |ls|
  {
    ls == [] || (Possible(s, ls[0]) && RunOk(Step(s, ls[0]), ls[1..]))
  }

  ghost function Run(s: State, ls: seq<Label>): State
    requires RunOk(s, ls)
    decreases |ls|
  {
    if ls == [] then s else Run(Step(s, ls[0]), ls[1..])
  }

  /** The device tells its packets apart in every step. */
  ghost predicate AllDistinct(s: State, ls: seq<Label>)
    requires RunOk(s, ls)
    decreases |ls|
  {
    ls == [] || (Distinct(s, ls[0]) && AllDistinct(Step(s, ls[0]), ls[1..]))
  }

  ghost function Losses(s: State, ls: seq<Label>): nat
    requires RunOk(s, ls)
    decreases |ls|
  {
    if ls == [] then 0 else (if Loses(s, ls[0]) then 1 else 0) + Losses(Step(s, ls[0]), ls[1..])
  }

  lemma {:induction false} RunKeepsTalk(s: State, ls: seq<Label>)
    requires TalkOk(s) && RunOk(s, ls)
    ensures TalkOk(Run(s, ls)) && Sum(Run(s, ls)) + Losses(s, ls) == Sum(s)
    decreases |ls|
  {
    if ls != [] {
      StepKeepsTalk(s, ls[0]);
      StepCountsPermits(s, ls[0]);
      hide Step, Possible, Sum, Loses, MessagesOk, ReturnedOk;
      RunKeepsTalk(Step(s, ls[0]), ls[1..]);
    }
  }

  lemma {:induction false} RunKeepsInv(s: State, ls: seq<Label>)
    requires Inv(s) && RunOk(s, ls) && AllDistinct(s, ls)
    ensures Inv(Run(s, ls)) && Losses(s, ls) == 0
    decreases |ls|
  {
    if ls != [] {
      StepKeepsInv(s, ls[0]);
      StepKeepsTokens(s, ls[0]);
      hide Step, Possible, Distinct, Loses, TalkOk, TokensOk, Sum;
      RunKeepsInv(Step(s, ls[0]), ls[1..]);
    }
  }

  /** Over every interleaving, and whatever tokens the device gives: a permit is lost exactly each
      time the gateway reads that a packet was accepted under a token it still holds. */
  lemma PermitsAreCounted(ls: seq<Label>)
    requires RunOk(INITIAL, ls)
    ensures Sum(Run(INITIAL, ls)) + Losses(INITIAL, ls) == PERMITS
  {
    RunKeepsTalk(INITIAL, ls);
  }

  /** So permits are conserved when the device tells its packets apart: those that are free, the one
      of a packet whose response has not been dispatched, and those of the packets waiting for
      completion are always three. And the device never works on more than three packets. */
  lemma PermitsAreConserved(ls: seq<Label>)
    requires RunOk(INITIAL, ls) && AllDistinct(INITIAL, ls)
    ensures var s := Run(INITIAL, ls);
      && s.tx.permits + (if Unanswered(s) then 1 else 0) + |s.tx.pending| == PERMITS
      && |s.inFlight| + s.tx.permits <= PERMITS
  {
    RunKeepsInv(INITIAL, ls);
    InFlightBound(Run(INITIAL, ls));
  }

  lemma InFlightBound(s: State)
    requires Inv(s)
    ensures |s.inFlight| + s.tx.permits <= PERMITS
  {
    hide Waited, MessagesOk, ReturnedOk;
    WorkingFew(s.tx.pending, s.toHost);
    if c :| c in Replies(s.toHost) && c.opcode == PACKET_SEND {
      assert c in Replies(s.toHost) + Calls(s.toDevice);
      assert Unanswered(s);
    }
  }

  /** When nothing is on the lines, the device has finished and the thread rests, every permit
      is back: no sequence of failures and completions loses one. */
  lemma PermitsComeBack(ls: seq<Label>)
    requires RunOk(INITIAL, ls) && AllDistinct(INITIAL, ls)
    requires var s := Run(INITIAL, ls); s.toHost == [] && s.inFlight == {} && s.thread.Idle?
    ensures Run(INITIAL, ls).tx == Tx(PERMITS, {})
  {
    hide Waited;
    RunKeepsInv(INITIAL, ls);
  }

  /** Every caller gets the response to exactly the command it sent, whatever other responses,
      completions and unsolicited events come in between. */
  lemma CallersGetTheirResponse(ls: seq<Label>)
    requires RunOk(INITIAL, ls)
    ensures forall i | 0 <= i < |Run(INITIAL, ls).returned| ::
              var (cmd, r) := Run(INITIAL, ls).returned[i];
              r.tag == cmd.tag && r.opcode == cmd.opcode
  {
    RunKeepsTalk(INITIAL, ls);
  }

  /** Messages of each priority reach the device in the order they were queued, none twice and
      none lost: what has been passed on and what is still queued is what was queued. */
  lemma MessagesKeepTheirOrder(ls: seq<Label>)
    requires RunOk(INITIAL, ls)
    ensures var s := Run(INITIAL, ls);
      && OfPriority(Passed(s), false) + s.sendQueue == OfPriority(s.queued, false)
      && OfPriority(Passed(s), true) + s.lowQueue == OfPriority(s.queued, true)
  {
    hide Waited;
    RunKeepsTalk(INITIAL, ls);
  }

  // ---- What reuse of a token costs

  lemma RunOn(s: State, l: Label, rest: seq<Label>)
    requires Possible(s, l) && RunOk(Step(s, l), rest)
    ensures RunOk(s, [l] + rest) && Run(s, [l] + rest) == Run(Step(s, l), rest)
  {
    assert ([l] + rest)[1..] == rest;
  }

  lemma RunThree(s: State, a: Label, b: Label, c: Label)
    requires Possible(s, a) && Possible(Step(s, a), b) && Possible(Step(Step(s, a), b), c)
    ensures RunOk(s, [a, b, c]) && Run(s, [a, b, c]) == Step(Step(Step(s, a), b), c)
  {
    hide Step, Possible;
    RunOn(Step(Step(s, a), b), c, []);
    RunOn(Step(s, a), b, [c]);
    RunOn(s, a, [b, c]);
    assert [a] + [b, c] == [a, b, c] && [b] + [c] == [b, c] && [c] + [] == [c];
  }

  lemma {:induction false} RunBoth(s: State, front: seq<Label>, back: seq<Label>)
    requires RunOk(s, front) && RunOk(Run(s, front), back)
    ensures RunOk(s, front + back) && Run(s, front + back) == Run(Run(s, front), back)
    decreases |front|
  {
    hide Step, Possible;
    if front == [] {
      assert [] + back == back;
    } else {
      assert (front + back)[1..] == front[1..] + back;
      RunBoth(Step(s, front[0]), front[1..], back);
    }
  }

  /** Nothing is under way. */
  predicate Quiet(s: State) {
    s.thread.Idle? && s.call.None? && s.toDevice == [] && s.toHost == []
  }

  /** What is left of a state when nothing is under way. */
  datatype Rest = Rest(sendQueue: seq<Item>, lowQueue: seq<Item>, tx: Tx, inFlight: set<nat>)

  function RestOf(s: State): Rest {
    Rest(s.sendQueue, s.lowQueue, s.tx, s.inFlight)
  }

  /** The thread has sent a packet. */
  predicate Waiting(s: State) {
    && s.thread.Sending? && s.toHost == []
    && s.call.Some? && s.call.value.cmd.opcode == PACKET_SEND && s.call.value.who.TxThread?
    && s.toDevice == [s.call.value.cmd]
    && s.waiter.opcode == Some(PACKET_SEND) && !s.waiter.complete
  }

  const HAND_OVER: seq<Label> := [TakeNext, Acquire, CallSend]

  function Answer(token: nat): seq<Label> {
    [Reply(0, token), Dispatch, Return]
  }

  lemma HandOverRuns(s: State)
    requires Quiet(s) && s.sendQueue != [] && s.tx.permits > 0
    ensures RunOk(s, HAND_OVER)
    ensures var t := Run(s, HAND_OVER);
      Waiting(t) && RestOf(t) == RestOf(s).(sendQueue := s.sendQueue[1..], tx := s.tx.(permits := s.tx.permits - 1))
  {
    hide RunOk, Run;
    var t := Step(Step(Step(s, TakeNext), Acquire), CallSend);
    assert t.toDevice == [Cmd(PACKET_SEND, s.nextTag)];
    RunThree(s, TakeNext, Acquire, CallSend);
  }

  lemma AnswerRuns(s: State, token: nat)
    requires Waiting(s)
    ensures RunOk(s, Answer(token))
    ensures var t := Run(s, Answer(token));
      && Quiet(t)
      && RestOf(t) ==
           RestOf(s).(tx := s.tx.(pending := s.tx.pending + {token}), inFlight := s.inFlight + {token})
  {
    hide RunOk, Run;
    RunThree(s, Reply(0, token), Dispatch, Return);
  }

  /** The thread sends a packet, and the device accepts it under the token. */
  function OnePacket(token: nat): seq<Label> {
    HAND_OVER + Answer(token)
  }

  lemma OnePacketRuns(s: State, token: nat)
    requires Quiet(s) && s.sendQueue != [] && s.tx.permits > 0
    ensures RunOk(s, OnePacket(token))
    ensures var t := Run(s, OnePacket(token));
      && Quiet(t)
      && RestOf(t) ==
           Rest(s.sendQueue[1..], s.lowQueue, Tx(s.tx.permits - 1, s.tx.pending + {token}), s.inFlight + {token})
  {
    hide RunOk, Run, Quiet, Waiting;
    HandOverRuns(s);
    AnswerRuns(Run(s, HAND_OVER), token);
    RunBoth(s, HAND_OVER, Answer(token));
  }

  const TWO_MESSAGES: seq<Label> := [Enqueue(Item(1, false)), Enqueue(Item(2, false))]

  /** Two packets under the token 7, the second while the device works on the first. */
  function EarlyReuse(): seq<Label> {
    TWO_MESSAGES + (OnePacket(7) + (OnePacket(7) + [Complete(7), Dispatch]))
  }

  lemma TwoMessagesRun()
    ensures RunOk(INITIAL, TWO_MESSAGES)
    ensures var s := Run(INITIAL, TWO_MESSAGES);
      Quiet(s) && RestOf(s) == Rest([Item(1, false), Item(2, false)], [], Tx(PERMITS, {}), {})
  {
    var s := Step(INITIAL, Enqueue(Item(1, false)));
    RunOn(s, Enqueue(Item(2, false)), []);
    RunOn(INITIAL, Enqueue(Item(1, false)), [Enqueue(Item(2, false))]);
    assert [Enqueue(Item(1, false))] + [Enqueue(Item(2, false))] == TWO_MESSAGES;
  }

  lemma CompletionRuns(s: State, token: nat)
    requires Quiet(s) && token in s.inFlight && token in s.tx.pending
    ensures RunOk(s, [Complete(token), Dispatch])
    ensures var t := Run(s, [Complete(token), Dispatch]);
      && Quiet(t)
      && RestOf(t) ==
           RestOf(s).(tx := Tx(s.tx.permits + 1, s.tx.pending - {token}), inFlight := s.inFlight - {token})
  {
    var t := Step(s, Complete(token));
    RunOn(t, Dispatch, []);
    RunOn(s, Complete(token), [Dispatch]);
    assert [Complete(token)] + [Dispatch] == [Complete(token), Dispatch];
  }

  /** The gateway comes to rest with both packets sent and completed, and holds two permits. */
  lemma EarlyReuseLosesAPermit()
    ensures RunOk(INITIAL, EarlyReuse())
    ensures var s := Run(INITIAL, EarlyReuse());
      Quiet(s) && RestOf(s) == Rest([], [], Tx(PERMITS - 1, {}), {})
  {
    hide RunOk, Run, Quiet, OnePacket;
    TwoMessagesRun();
    var a := Run(INITIAL, TWO_MESSAGES);
    OnePacketRuns(a, 7);
    var b := Run(a, OnePacket(7));
    OnePacketRuns(b, 7);
    var c := Run(b, OnePacket(7));
    assert RestOf(c) == Rest([], [], Tx(PERMITS - 2, {7}), {7});
    CompletionRuns(c, 7);
    RunBoth(b, OnePacket(7), [Complete(7), Dispatch]);
    RunBoth(a, OnePacket(7), OnePacket(7) + [Complete(7), Dispatch]);
    RunBoth(INITIAL, TWO_MESSAGES, OnePacket(7) + (OnePacket(7) + [Complete(7), Dispatch]));
  }
}
