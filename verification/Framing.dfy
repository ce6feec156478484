/** The serial framing: commands are sent as length-prefixed frames, and the receiver hunts for
    the start frame of the device before it trusts the length bytes. */
module Framing {
  import opened Options
  import opened Bytes

  // ---- Sending

  datatype CommandPacket = CommandPacket(opcode: Byte, data: seq<Byte>) {
    function Length(): nat {
      |data| + 1
    }
  }

  datatype SerializeError = LengthDoesNotFit

  /** A length byte holds at most 255. */
  function Serialize(p: CommandPacket): (r: Result<seq<Byte>, SerializeError>) {
    if p.Length() < 256 then Ok([p.Length() as Byte, p.opcode] + p.data) else Err(LengthDoesNotFit)
  }

  // ---- Frames in a stream of bytes

  function FrameSize(length: Byte): nat {
    length as int + 1
  }

  /** A frame as it travels: its first byte counts the others. */
  predicate IsFrame(f: seq<Byte>) {
    f != [] && |f| == FrameSize(f[0])
  }

  /** The complete frames at the front of a stream. */
  function Frames(bs: seq<Byte>): seq<seq<Byte>>
    decreases |bs|
  {
    if bs == [] || |bs| < FrameSize(bs[0]) then []
    else [bs[..FrameSize(bs[0])]] + Frames(bs[FrameSize(bs[0])..])
  }

  lemma SerializedIsFrame(p: CommandPacket)
    requires p.Length() < 256
    ensures var f := Serialize(p).value;
      IsFrame(f) && |f| >= 2 && f[0] == 1 + |p.data| && f[1] == p.opcode && f[2..] == p.data
  {
  }

  lemma FirstFrame(f: seq<Byte>, rest: seq<Byte>)
    requires IsFrame(f)
    ensures Frames(f + rest) == [f] + Frames(rest)
  {
    assert (f + rest)[..|f|] == f && (f + rest)[|f|..] == rest;
  }

  /** Whole frames at the front of a stream are its first frames. */
  lemma {:induction false} FramesPrefix(fs: seq<seq<Byte>>, rest: seq<Byte>)
    requires forall f | f in fs :: IsFrame(f)
    ensures Frames(Concat(fs) + rest) == fs + Frames(rest)
  {
    hide Frames;
    if fs == [] {
      assert Concat(fs) + rest == rest;
    } else {
      assert fs[0] in fs;
      assert Concat(fs) + rest == fs[0] + (Concat(fs[1..]) + rest);
      FirstFrame(fs[0], Concat(fs[1..]) + rest);
      FramesPrefix(fs[1..], rest);
    }
  }

  // ---- Receiving

  const START: seq<Byte> := [0x04, 0x81, 0x02]

  predicate PatternAt(bs: seq<Byte>, i: nat) {
    i + 3 <= |bs| && bs[i..i + 3] == START
  }

  /** The start pattern with the two bytes that complete the start frame. */
  predicate StartAt(bs: seq<Byte>, i: nat) {
    i + 5 <= |bs| && PatternAt(bs, i)
  }

  /** Where the start frame begins, or the length of the stream. */
  function FindStart(bs: seq<Byte>, from: nat): (i: nat)
    requires from <= |bs|
    ensures from <= i <= |bs|
    ensures i < |bs| ==> StartAt(bs, i)
    ensures forall j | from <= j < i :: !StartAt(bs, j)
    decreases |bs| - from
  {
    if from == |bs| || StartAt(bs, from) then from else FindStart(bs, from + 1)
  }

  /** Whether the deserialization of a packet raises an error. That depends on the packets before
      it: a model message is dropped unread when the replay cache has seen its number. */
  type Raises = (seq<seq<Byte>>, seq<Byte>) -> bool

  /** The packets up to the first whose deserialization, behind those before, raises an error; that
      ends reception. A frame without an opcode always does. */
  function Accepted(before: seq<seq<Byte>>, ps: seq<seq<Byte>>, raises: Raises): seq<seq<Byte>>
    decreases |ps|
  {
    if ps == [] || |ps[0]| < 2 || raises(before, ps[0]) then []
    else [ps[0]] + Accepted(before + [ps[0]], ps[1..], raises)
  }

  /** None of the packets raises an error. */
  ghost predicate Calm(before: seq<seq<Byte>>, ps: seq<seq<Byte>>, raises: Raises) {
    forall i | 0 <= i < |ps| :: |ps[i]| >= 2 && !raises(before + ps[..i], ps[i])
  }

  /** What reception makes of a stream: the start frame and the frames behind it. */
  function Received(bs: seq<Byte>, raises: Raises): seq<seq<Byte>> {
    var i := FindStart(bs, 0);
    if i == |bs| then [] else Accepted([], [bs[i..i + 5]] + Frames(bs[i + 5..]), raises)
  }

  /** The bytes among the results of the read calls; one that times out gives none. */
  function Arrived(input: seq<Option<Byte>>): seq<Byte>
    decreases |input|
  {
    if input == [] then []
    else
      var r := input[|input| - 1];
      Arrived(input[..|input| - 1]) + if r.Some? then [r.value] else []
  }

  lemma ArrivedNext(input: seq<Option<Byte>>, k: nat)
    requires k < |input|
    ensures Arrived(input[..k + 1]) == Arrived(input[..k]) + if input[k].Some? then [input[k].value] else []
  {
    assert input[..k + 1][..k] == input[..k];
  }

  lemma {:induction false} ArrivedGrows(input: seq<Option<Byte>>, k: nat)
    requires k <= |input|
    ensures Arrived(input[..k]) <= Arrived(input)
    decreases |input| - k
  {
    if k < |input| {
      ArrivedNext(input, k);
      ArrivedGrows(input, k + 1);
    } else {
      assert input[..k] == input;
    }
  }

  lemma AcceptedFirst(before: seq<seq<Byte>>, f: seq<Byte>, more: seq<seq<Byte>>, raises: Raises)
    requires |f| >= 2 && !raises(before, f)
    ensures Accepted(before, [f] + more, raises) == [f] + Accepted(before + [f], more, raises)
  {
    assert ([f] + more)[1..] == more;
  }

  lemma CalmFirst(before: seq<seq<Byte>>, fs: seq<seq<Byte>>, raises: Raises)
    requires Calm(before, fs, raises) && fs != []
    ensures |fs[0]| >= 2 && !raises(before, fs[0]) && Calm(before + [fs[0]], fs[1..], raises)
  {
    assert before + fs[..0] == before;
    forall i | 0 <= i < |fs| - 1 ensures !raises(before + [fs[0]] + fs[1..][..i], fs[1..][i]) {
      assert before + fs[..i + 1] == before + [fs[0]] + fs[1..][..i];
    }
  }

  lemma CalmSnoc(fs: seq<seq<Byte>>, f: seq<Byte>, raises: Raises)
    requires Calm([], fs, raises) && |f| >= 2 && !raises(fs, f)
    ensures Calm([], fs + [f], raises)
  {
    var all := fs + [f];
    forall i | 0 <= i < |all| ensures |all[i]| >= 2 && !raises([] + all[..i], all[i]) {
      if i < |fs| {
        assert all[..i] == fs[..i] && [] + fs[..i] == all[..i];
      } else {
        assert [] + all[..i] == fs;
      }
    }
  }

  /** Reception ends at the first packet that raises an error behind those before it, and not before. */
  lemma {:induction false} AcceptedExactly(before: seq<seq<Byte>>, ps: seq<seq<Byte>>, raises: Raises)
    ensures var k := |Accepted(before, ps, raises)|;
      && k <= |ps| && Accepted(before, ps, raises) == ps[..k]
      && Calm(before, ps[..k], raises)
      && (k < |ps| ==> |ps[k]| < 2 || raises(before + ps[..k], ps[k]))
    decreases |ps|
  {
    if ps == [] || |ps[0]| < 2 || raises(before, ps[0]) {
      assert ps[..0] == [] && before + [] == before;
    } else {
      AcceptedExactly(before + [ps[0]], ps[1..], raises);
      var k := |Accepted(before + [ps[0]], ps[1..], raises)|;
      hide Accepted;
      FrontTaken(before, ps, k + 1);
      CalmCons(before, ps[0], ps[1..][..k], raises);
    }
  }

  lemma FrontTaken(before: seq<seq<Byte>>, ps: seq<seq<Byte>>, k: nat)
    requires 0 < k <= |ps|
    ensures ps[..k] == [ps[0]] + ps[1..][..k - 1] && before + [ps[0]] + ps[1..][..k - 1] == before + ps[..k]
  {
  }

  lemma CalmCons(before: seq<seq<Byte>>, f: seq<Byte>, fs: seq<seq<Byte>>, raises: Raises)
    requires |f| >= 2 && !raises(before, f) && Calm(before + [f], fs, raises)
    ensures Calm(before, [f] + fs, raises)
  {
    var all := [f] + fs;
    forall i | 0 <= i < |all| ensures |all[i]| >= 2 && !raises(before + all[..i], all[i]) {
      if i == 0 {
        assert before + all[..0] == before;
      } else {
        assert before + all[..i] == before + [f] + fs[..i - 1] && all[i] == fs[i - 1];
      }
    }
  }

  lemma {:induction false} AcceptedPrefix(before: seq<seq<Byte>>, fs: seq<seq<Byte>>, more: seq<seq<Byte>>,
                                          raises: Raises)
    requires Calm(before, fs, raises)
    ensures Accepted(before, fs + more, raises) == fs + Accepted(before + fs, more, raises)
    decreases |fs|
  {
    hide Accepted, Calm;
    if fs == [] {
      assert fs + more == more && before + fs == before;
    } else {
      CalmFirst(before, fs, raises);
      assert fs + more == [fs[0]] + (fs[1..] + more) && before + [fs[0]] + fs[1..] == before + fs;
      AcceptedFirst(before, fs[0], fs[1..] + more, raises);
      AcceptedPrefix(before + [fs[0]], fs[1..], more, raises);
    }
  }

  lemma FirstStart(bs: seq<Byte>, i: nat)
    requires StartAt(bs, i) && forall j | 0 <= j < i :: !StartAt(bs, j)
    ensures FindStart(bs, 0) == i
  {
    var f := FindStart(bs, 0);
    assert StartAt(bs, f);
  }

  /** The state of reception after the start frame: `pre` came before it, `fs` are the frames
      read since, and none of them has raised an error. */
  ghost predicate Reading(bs: seq<Byte>, pre: seq<Byte>, start: seq<Byte>, fs: seq<seq<Byte>>,
                          raises: Raises) {
    && |start| == 5 && start[..3] == START
    && bs == pre + start + Concat(fs)
    && (forall j | 0 <= j < |pre| :: !StartAt(pre + start, j))
    && Calm([], [start] + fs, raises)
    && (forall f | f in fs :: IsFrame(f))
  }

  /** What is received of a stream that goes on with `rest`. */
  lemma ReadingReceived(bs: seq<Byte>, pre: seq<Byte>, start: seq<Byte>, fs: seq<seq<Byte>>,
                        rest: seq<Byte>, raises: Raises)
    requires Reading(bs, pre, start, fs, raises)
    ensures Received(bs + rest, raises) == [start] + fs + Accepted([start] + fs, Frames(rest), raises)
  {
    var tail := Frames(rest);
    assert Received(bs + rest, raises) == Accepted([], [start] + (fs + tail), raises) by {
      hide Frames, Accepted, Concat, Calm;
      ReadingStart(bs, pre, start, fs, rest, raises);
      FramesPrefix(fs, rest);
    }
    hide Frames, Accepted, Concat, Received, Calm;
    assert [start] + (fs + tail) == ([start] + fs) + tail && [] + ([start] + fs) == [start] + fs;
    AcceptedPrefix([], [start] + fs, tail, raises);
  }

  lemma ReadingStart(bs: seq<Byte>, pre: seq<Byte>, start: seq<Byte>, fs: seq<seq<Byte>>,
                     rest: seq<Byte>, raises: Raises)
    requires Reading(bs, pre, start, fs, raises)
    ensures var all := bs + rest; var i := |pre|;
      i + 5 <= |all| && FindStart(all, 0) == i && all[i..i + 5] == start && all[i + 5..] == Concat(fs) + rest
  {
    var all := bs + rest;
    var i := |pre|;
    assert all == pre + start + (Concat(fs) + rest);
    assert all[i..i + 5] == start && all[i + 5..] == Concat(fs) + rest;
    assert all[i..i + 3] == start[..3];
    forall j | 0 <= j < i ensures !StartAt(all, j) {
      assert !StartAt(pre + start, j);
      assert all[j..j + 3] == (pre + start)[j..j + 3];
    }
    FirstStart(all, i);
  }

  /** The hunt for the start frame: the last five bytes, zeros before there are any. */
  function Window(bs: seq<Byte>): seq<Byte> {
    ([0, 0, 0, 0, 0] + bs)[|bs|..]
  }

  lemma WindowStart(bs: seq<Byte>)
    ensures Window(bs)[..3] == START <==> |bs| >= 5 && StartAt(bs, |bs| - 5)
    ensures |bs| >= 5 ==> Window(bs) == bs[|bs| - 5..]
  {
    var w := Window(bs);
    assert w[..3][0] == w[0] && START[0] == 4;
    if |bs| < 5 {
      assert w[0] == 0;
    } else {
      assert w == bs[|bs| - 5..];
      assert w[..3] == bs[|bs| - 5..|bs| - 2];
    }
  }

  lemma WindowNext(bs: seq<Byte>, b: Byte)
    ensures Window(bs + [b]) == Window(bs)[1..] + [b]
  {
  }

  /** The start frame is the last to have arrived, and no other has. */
  ghost predicate JustStarted(bs: seq<Byte>) {
    && |bs| >= 5 && StartAt(bs, |bs| - 5)
    && forall j: nat :: StartAt(bs, j) ==> j + 5 == |bs|
  }

  /** Read up to the start frame. */
  method Hunt(input: seq<Option<Byte>>) returns (k: nat, start: Option<seq<Byte>>)
    ensures k <= |input|
    ensures start.None? ==> FindStart(Arrived(input), 0) == |Arrived(input)|
    ensures start.Some? ==>
              var bs := Arrived(input[..k]); JustStarted(bs) && start.value == bs[|bs| - 5..]
  {
    k := 0;
    var msg: seq<Byte> := [0, 0, 0, 0, 0];
    ghost var bs: seq<Byte> := [];
    while msg[..3] != START
      invariant k <= |input| && bs == Arrived(input[..k])
      invariant |msg| == 5 && msg == Window(bs)
      invariant forall j: nat :: StartAt(bs, j) ==> j + 5 == |bs|
      decreases |input| - k
    {
      WindowStart(bs);
      if k == |input| {
        assert input[..k] == input;
        return k, None;
      }
      ArrivedNext(input, k);
      if input[k].Some? {
        WindowNext(bs, input[k].value);
        EarlierStarts(bs, input[k].value);
        msg := msg[1..] + [input[k].value];
        bs := bs + [input[k].value];
      }
      k := k + 1;
    }
    WindowStart(bs);
    start := Some(msg);
  }

  /** Read one frame whose first byte has been read. */
  method ReadFrame(input: seq<Option<Byte>>, from: nat, first: Byte) returns (k: nat, msg: seq<Byte>)
    requires from <= |input|
    ensures from <= k <= |input| && msg != [] && msg[0] == first
    ensures [first] + Arrived(input[from..k]) == msg
    ensures IsFrame(msg) || (k == |input| && |msg| < FrameSize(first))
  {
    k := from;
    msg := [first];
    while |msg| < FrameSize(msg[0]) && k < |input|
      invariant from <= k <= |input| && msg != [] && msg[0] == first && |msg| <= FrameSize(first)
      invariant [first] + Arrived(input[from..k]) == msg
    {
      assert input[from..k + 1] == input[from..][..k - from + 1] && input[from..k] == input[from..][..k - from];
      ArrivedNext(input[from..], k - from);
      if input[k].Some? {
        msg := msg + [input[k].value];
      }
      k := k + 1;
    }
  }

  lemma {:induction false} ArrivedSplit(input: seq<Option<Byte>>, i: nat, k: nat)
    requires i <= k <= |input|
    ensures Arrived(input[..k]) == Arrived(input[..i]) + Arrived(input[i..k])
    decreases k
  {
    if i == k {
      assert input[i..k] == [];
    } else {
      ArrivedSplit(input, i, k - 1);
      ArrivedNext(input, k - 1);
      assert input[i..k][..k - i - 1] == input[i..k - 1];
    }
  }

  /** Read to the start frame, then frame after frame, until the input ends or a packet raises an
      error. Wherever the line falls silent, the packets are those of the bytes that arrived. */
  method RxProcess(input: seq<Option<Byte>>, raises: Raises) returns (packets: seq<seq<Byte>>)
    ensures packets == Received(Arrived(input), raises)
  {
    var k, found := Hunt(input);
    if found.None? {
      return [];
    }
    var start := found.value;
    ghost var bs := Arrived(input[..k]);
    ghost var pre := bs[..|bs| - 5];
    ArrivedGrows(input, k);
    if raises([], start) {
      BadStart(bs, Arrived(input), raises);
      return [];
    }
    StartReading(bs, raises);
    packets := ReadFrames(input, k, pre, start, raises);
  }

  /** Read frame after frame behind the start frame. */
  method ReadFrames(input: seq<Option<Byte>>, from: nat, ghost pre: seq<Byte>, start: seq<Byte>,
                    raises: Raises)
    returns (packets: seq<seq<Byte>>)
    requires from <= |input| && Reading(Arrived(input[..from]), pre, start, [], raises)
    ensures packets == Received(Arrived(input), raises)
  {
    hide Reading, Received, Arrived;
    var k := from;
    packets := [start];
    ghost var bs := Arrived(input[..k]);
    ghost var fs: seq<seq<Byte>> := [];
    while k < |input|
      invariant k <= |input| && bs == Arrived(input[..k])
      invariant Reading(bs, pre, start, fs, raises)
      invariant packets == [start] + fs
    {
      var r := input[k];
      ArrivedNext(input, k);
      k := k + 1;
      if r.Some? {
        var next, msg := ReadFrame(input, k, r.value);
        ArrivedSplit(input, k, next);
        assert Arrived(input[..next]) == bs + msg;
        ArrivedGrows(input, next);
        k := next;
        if |msg| < FrameSize(msg[0]) {
          assert input[..k] == input;
          CutFrame(bs, pre, start, fs, msg, raises);
          return;
        }
        if |msg| < 2 || raises(packets, msg) {
          BadFrame(bs, pre, start, fs, msg, Arrived(input), raises);
          return;
        }
        NextFrame(bs, pre, start, fs, msg, raises);
        bs := bs + msg;
        fs := fs + [msg];
        packets := packets + [msg];
      }
    }
    assert input[..k] == input;
    EndOfInput(bs, pre, start, fs, raises);
  }

  lemma StartReading(bs: seq<Byte>, raises: Raises)
    requires JustStarted(bs) && !raises([], bs[|bs| - 5..])
    ensures Reading(bs, bs[..|bs| - 5], bs[|bs| - 5..], [], raises)
  {
    assert bs == bs[..|bs| - 5] + bs[|bs| - 5..];
    assert bs[|bs| - 5..][..3] == bs[|bs| - 5..|bs| - 2];
  }

  lemma NextFrame(bs: seq<Byte>, pre: seq<Byte>, start: seq<Byte>, fs: seq<seq<Byte>>,
                  msg: seq<Byte>, raises: Raises)
    requires Reading(bs, pre, start, fs, raises) && IsFrame(msg) && |msg| >= 2
    requires !raises([start] + fs, msg)
    ensures Reading(bs + msg, pre, start, fs + [msg], raises)
  {
    ConcatSnoc(fs, msg);
    CalmSnoc([start] + fs, msg, raises);
    assert [start] + fs + [msg] == [start] + (fs + [msg]);
  }

  lemma CutFrame(bs: seq<Byte>, pre: seq<Byte>, start: seq<Byte>, fs: seq<seq<Byte>>,
                 cut: seq<Byte>, raises: Raises)
    requires Reading(bs, pre, start, fs, raises) && cut != [] && |cut| < FrameSize(cut[0])
    ensures Received(bs + cut, raises) == [start] + fs
  {
    ReadingReceived(bs, pre, start, fs, cut, raises);
    assert [start] + fs + [] == [start] + fs;
  }

  lemma EndOfInput(bs: seq<Byte>, pre: seq<Byte>, start: seq<Byte>, fs: seq<seq<Byte>>, raises: Raises)
    requires Reading(bs, pre, start, fs, raises)
    ensures Received(bs, raises) == [start] + fs
  {
    ReadingReceived(bs, pre, start, fs, [], raises);
    assert bs + [] == bs && [start] + fs + [] == [start] + fs;
  }

  lemma EarlierStarts(bs: seq<Byte>, b: Byte)
    requires forall j: nat :: !StartAt(bs, j)
    ensures forall j: nat :: StartAt(bs + [b], j) ==> j + 5 == |bs| + 1
  {
    forall j: nat | StartAt(bs + [b], j) ensures j + 5 == |bs| + 1 {
      if j + 5 <= |bs| {
        assert (bs + [b])[j..j + 3] == bs[j..j + 3];
        assert StartAt(bs, j);
      }
    }
  }

  lemma BadStart(bs: seq<Byte>, all: seq<Byte>, raises: Raises)
    requires JustStarted(bs) && bs <= all && raises([], bs[|bs| - 5..])
    ensures Received(all, raises) == []
  {
    var i := |bs| - 5;
    assert all[i..i + 5] == bs[i..] && all[i..i + 3] == bs[i..i + 3];
    forall j | 0 <= j < i ensures !StartAt(all, j) {
      assert all[j..j + 3] == bs[j..j + 3];
      assert !StartAt(bs, j);
    }
    FirstStart(all, i);
  }

  lemma BadFrame(bs: seq<Byte>, pre: seq<Byte>, start: seq<Byte>, fs: seq<seq<Byte>>,
                 bad: seq<Byte>, all: seq<Byte>, raises: Raises)
    requires Reading(bs, pre, start, fs, raises) && IsFrame(bad) && (|bad| < 2 || raises([start] + fs, bad))
    requires bs + bad <= all
    ensures Received(all, raises) == [start] + fs
  {
    var rest := all[|bs + bad|..];
    assert all == bs + (bad + rest);
    ReadingReceived(bs, pre, start, fs, bad + rest, raises);
    FramesPrefix([bad], rest);
    assert Concat([bad]) == bad;
    assert [start] + fs + [] == [start] + fs;
  }

  /** The round trip: whatever garbage precedes the start frame, as long as the start pattern does
      not occur earlier, and wherever reads come back empty, reception gives the start frame and
      then exactly the packets that were serialized, in order. */
  lemma PacketsArrive(input: seq<Option<Byte>>, garbage: seq<Byte>, x: Byte, y: Byte,
                      sent: seq<CommandPacket>, fs: seq<seq<Byte>>, raises: Raises)
    requires |fs| == |sent| && forall i | 0 <= i < |sent| :: Serialize(sent[i]) == Ok(fs[i])
    requires Arrived(input) == garbage + (START + [x, y]) + Concat(fs)
    requires forall j | 0 <= j < |garbage| :: !PatternAt(garbage + START, j)
    requires forall i | 0 <= i <= |fs| ::
               var all := [START + [x, y]] + fs; !raises(all[..i], all[i])
    ensures Received(Arrived(input), raises) == [START + [x, y]] + fs
  {
    var start := START + [x, y];
    forall f | f in fs ensures IsFrame(f) && |f| >= 2 {
      var i :| 0 <= i < |fs| && fs[i] == f;
      SerializedIsFrame(sent[i]);
    }
    var all := [start] + fs;
    forall i | 0 <= i < |all| ensures |all[i]| >= 2 && !raises([] + all[..i], all[i]) {
      assert [] + all[..i] == all[..i];
      assert i > 0 ==> all[i] in fs;
    }
    forall j | 0 <= j < |garbage| ensures !StartAt(garbage + start, j) {
      assert (garbage + start)[j..j + 3] == (garbage + START)[j..j + 3];
      assert !PatternAt(garbage + START, j);
    }
    EndOfInput(Arrived(input), garbage, start, fs, raises);
  }
}
