/** The receive path of the transport: every message passes the replay cache before it reaches the
    packets under reassembly. */
module ReceivePath {
  import opened Options
  import opened Bytes
  import opened TransportSpec
  import opened ReplayProtection

  /** A message as it comes in: its source, its sequence number and what it carries. */
  type Arrival = (nat, (nat, Event))

  function Noted(ms: seq<Arrival>): seq<CacheEvent> {
    seq(|ms|, i requires 0 <= i < |ms| => Message(ms[i].0, ms[i].1.0))
  }

  /** The messages the cache lets through, behind what it has seen before. */
  function Through(history: seq<CacheEvent>, ms: seq<Arrival>): seq<(nat, Event)> {
    if ms == [] then []
    else
      var init, (src, (number, e)) := ms[..|ms| - 1], ms[|ms| - 1];
      Through(history, init) + if Newest(history + Noted(init), src, number) then [(src, e)] else []
  }

  // ---- What passes of a stream with rising numbers

  /** Of messages named by their position in the stream, those that come before no later one. */
  function Passing(arrived: seq<nat>): seq<nat> {
    if arrived == [] then []
    else
      var init, k := arrived[..|arrived| - 1], arrived[|arrived| - 1];
      Passing(init) + if forall j | j in init :: j < k then [k] else []
  }

  /** The message has come in before every later one. */
  ghost predicate InTime(arrived: seq<nat>, k: nat) {
    exists i :: 0 <= i < |arrived| && FirstUpTo(arrived, i, k)
  }

  predicate FirstUpTo(arrived: seq<nat>, i: nat, k: nat)
    requires i < |arrived|
  {
    arrived[i] == k && forall j | j in arrived[..i] :: j < k
  }

  lemma PassingSnoc(arrived: seq<nat>, k: nat)
    ensures Passing(arrived + [k]) == Passing(arrived) + if forall j | j in arrived :: j < k then [k] else []
  {
    assert (arrived + [k])[..|arrived|] == arrived;
  }

  lemma {:induction false} PassingIsInTime(arrived: seq<nat>, k: nat)
    ensures k in Passing(arrived) <==> InTime(arrived, k)
  {
    if arrived != [] {
      var n := |arrived| - 1;
      var init := arrived[..n];
      PassingIsInTime(init, k);
      if i :| 0 <= i < |init| && FirstUpTo(init, i, k) {
        assert arrived[..i] == init[..i] && FirstUpTo(arrived, i, k);
      }
      if k in Passing(arrived) && k !in Passing(init) {
        assert FirstUpTo(arrived, n, k);
      }
      if i :| 0 <= i < |arrived| && FirstUpTo(arrived, i, k) {
        if i < n {
          assert arrived[..i] == init[..i] && FirstUpTo(init, i, k);
        }
      }
    }
  }

  /** Some of the messages in rising order, from the first that comes in to the last of the stream
      that does. */
  ghost predicate RisesOver(arrived: seq<nat>, ks: seq<nat>) {
    && Increasing(ks) && (forall k | k in ks :: k in arrived)
    && (arrived != [] ==> ks != [] && ks[0] == arrived[0] && forall j | j in arrived :: j <= ks[|ks| - 1])
  }

  lemma {:induction false} PassingRises(arrived: seq<nat>)
    ensures RisesOver(arrived, Passing(arrived))
  {
    if arrived != [] {
      var init, k := arrived[..|arrived| - 1], arrived[|arrived| - 1];
      PassingRises(init);
      PassingSnoc(init, k);
      hide Passing, RisesOver;
      RisesSnoc(init, Passing(init), k);
      assert init + [k] == arrived;
    }
  }

  lemma RisesSnoc(arrived: seq<nat>, ks: seq<nat>, k: nat)
    requires RisesOver(arrived, ks)
    ensures RisesOver(arrived + [k], ks + if forall j | j in arrived :: j < k then [k] else [])
  {
    assert ks != [] ==> ks[0] in arrived;
    if forall j | j in arrived :: j < k {
      IncreasingSnoc(ks, k);
    } else {
      var j :| j in arrived && j >= k;
      assert ks + [] == ks && arrived != [] && (arrived + [k])[0] == arrived[0];
    }
  }

  // ---- The cache lets exactly those through

  /** Positions in the stream. */
  predicate Within(ks: seq<nat>, stream: seq<Event>) {
    forall i | 0 <= i < |ks| :: ks[i] < |stream|
  }

  function Carried(numbers: seq<nat>, stream: seq<Event>, arrived: seq<nat>): seq<(nat, Event)>
    requires |numbers| == |stream| && Within(arrived, stream)
  {
    seq(|arrived|, i requires 0 <= i < |arrived| => (numbers[arrived[i]], stream[arrived[i]]))
  }

  function Pick(stream: seq<Event>, ks: seq<nat>): seq<Event>
    requires Within(ks, stream)
  {
    seq(|ks|, i requires 0 <= i < |ks| => stream[ks[i]])
  }

  lemma {:induction false} ReceivedNoted(history: seq<CacheEvent>, ms: seq<Arrival>, src: nat)
    ensures Received(history + Noted(ms), src) == Received(history, src) + Numbers(Of(ms, src))
  {
    if ms == [] {
      assert history + Noted(ms) == history;
    } else {
      var init, m := ms[..|ms| - 1], ms[|ms| - 1];
      ReceivedNoted(history, init, src);
      assert history + Noted(ms) == history + Noted(init) + [Message(m.0, m.1.0)];
      NumbersSnoc(ms, src);
      hide Received, Of, Numbers, Noted;
      ReceivedSnoc(history + Noted(init), Message(m.0, m.1.0), src);
    }
  }

  function Numbers(ms: seq<(nat, Event)>): seq<nat> {
    seq(|ms|, i requires 0 <= i < |ms| => ms[i].0)
  }

  lemma NumbersSnoc(ms: seq<Arrival>, src: nat)
    requires ms != []
    ensures var m := ms[|ms| - 1];
      Numbers(Of(ms, src)) == Numbers(Of(ms[..|ms| - 1], src)) + if m.0 == src then [m.1.0] else []
  {
  }

  /** Behind a history of lower numbers, a message is newest exactly if no later one, nor itself, has
      come in. */
  lemma NewestIs(history: seq<CacheEvent>, ms: seq<Arrival>, src: nat, numbers: seq<nat>, stream: seq<Event>,
                 arrived: seq<nat>, k: nat)
    requires |numbers| == |stream| && Increasing(numbers) && k < |stream|
    requires Within(arrived, stream)
    requires forall n | n in Received(history, src) :: n < numbers[0]
    requires Of(ms, src) == Carried(numbers, stream, arrived)
    ensures Newest(history + Noted(ms), src, numbers[k]) <==> forall j | j in arrived :: j < k
  {
    ReceivedNoted(history, ms, src);
    hide Received, Of;
    var old_, new_ := Received(history, src), Numbers(Carried(numbers, stream, arrived));
    assert forall i | 0 <= i < |arrived| :: new_[i] == numbers[arrived[i]];
    if Newest(history + Noted(ms), src, numbers[k]) {
      forall j | j in arrived ensures j < k {
        var i :| 0 <= i < |arrived| && arrived[i] == j;
        assert new_[i] in old_ + new_;
      }
    }
    if forall j | j in arrived :: j < k {
      forall n | n in old_ + new_ ensures n < numbers[k] {
        if n in new_ {
          var i :| 0 <= i < |new_| && new_[i] == n;
          assert arrived[i] in arrived;
        } else {
          assert numbers[0] <= numbers[k];
        }
      }
    }
  }

  lemma PickNext(stream: seq<Event>, front: seq<nat>, k: nat)
    requires k < |stream| && Within(Passing(front), stream)
    ensures Within(Passing(front + [k]), stream)
    ensures Pick(stream, Passing(front + [k])) ==
              Pick(stream, Passing(front)) + if forall j | j in front :: j < k then [stream[k]] else []
  {
    hide Passing, Pick;
    PassingSnoc(front, k);
    if forall j | j in front :: j < k {
      PickSnoc(stream, Passing(front), k);
    } else {
      assert Passing(front) + [] == Passing(front);
    }
  }

  lemma {:induction false} ThroughIs(history: seq<CacheEvent>, ms: seq<Arrival>, src: nat,
                                     numbers: seq<nat>, stream: seq<Event>, arrived: seq<nat>)
    requires |numbers| == |stream| > 0 && Increasing(numbers) && Within(arrived, stream)
    requires forall n | n in Received(history, src) :: n < numbers[0]
    requires Of(ms, src) == Carried(numbers, stream, arrived)
    ensures Within(Passing(arrived), stream) && Of(Through(history, ms), src) == Pick(stream, Passing(arrived))
    decreases |ms|
  {
    if ms == [] {
      NothingThrough(history, src, numbers, stream, arrived);
    } else {
      var init, m := ms[..|ms| - 1], ms[|ms| - 1];
      assert Of(ms, src) == Of(init, src) + (if m.0 == src then [m.1] else []);
      hide Through, Received, Newest, Passing, Of, Pick, Carried, Within, Increasing;
      ThroughNext(history, ms, src);
      if m.0 == src {
        LastArrival(Of(init, src), m.1, numbers, stream, arrived);
        var front, k := arrived[..|arrived| - 1], arrived[|arrived| - 1];
        ThroughIs(history, init, src, numbers, stream, front);
        NewestIs(history, init, src, numbers, stream, front, k);
        PickNext(stream, front, k);
        assert front + [k] == arrived;
      } else {
        assert Of(init, src) + [] == Of(init, src);
        ThroughIs(history, init, src, numbers, stream, arrived);
        assert Of(Through(history, init), src) + [] == Of(Through(history, init), src);
      }
    }
  }

  lemma NothingThrough(history: seq<CacheEvent>, src: nat, numbers: seq<nat>, stream: seq<Event>, arrived: seq<nat>)
    requires |numbers| == |stream| && Within(arrived, stream)
    requires [] == Carried(numbers, stream, arrived)
    ensures Passing(arrived) == [] && Of(Through(history, []), src) == Pick(stream, [])
  {
    assert |Carried(numbers, stream, arrived)| == |arrived|;
  }

  lemma ThroughNext(history: seq<CacheEvent>, ms: seq<Arrival>, src: nat)
    requires ms != []
    ensures var init, m := ms[..|ms| - 1], ms[|ms| - 1];
      Of(Through(history, ms), src) ==
        Of(Through(history, init), src)
        + if m.0 == src && Newest(history + Noted(init), src, m.1.0) then [m.1.1] else []
  {
    var init, m := ms[..|ms| - 1], ms[|ms| - 1];
    var out := Through(history, init);
    if Newest(history + Noted(init), m.0, m.1.0) {
      OfSnoc(out, (m.0, m.1.1), src);
    } else {
      assert Through(history, ms) == out;
    }
  }

  lemma PickSnoc(stream: seq<Event>, ks: seq<nat>, k: nat)
    requires k < |stream| && Within(ks, stream)
    ensures Pick(stream, ks + [k]) == Pick(stream, ks) + [stream[k]] && Pick(stream, ks + []) == Pick(stream, ks)
  {
    assert ks + [] == ks;
  }

  lemma LastArrival(front: seq<(nat, Event)>, m: (nat, Event), numbers: seq<nat>, stream: seq<Event>, arrived: seq<nat>)
    requires |numbers| == |stream| && Within(arrived, stream)
    requires front + [m] == Carried(numbers, stream, arrived)
    ensures arrived != [] && front == Carried(numbers, stream, arrived[..|arrived| - 1])
    ensures Within(arrived[..|arrived| - 1], stream)
    ensures var k := arrived[|arrived| - 1]; k < |stream| && m == (numbers[k], stream[k])
  {
    var all := Carried(numbers, stream, arrived);
    assert |all| == |arrived| && |all| == |front| + 1;
    assert front == all[..|front|] && m == all[|front|];
  }

  // ---- Which payloads come out

  /** The events of a stream. */
  function Stream(data: seq<Byte>, sum: seq<Byte>): (es: seq<Event>)
    ensures |es| == SlotCount(|data|) + 2
  {
    [Start(|data|)] + Fragments(data, FirstNumbers(SlotCount(|data|))) + [End(sum)]
  }

  /** The messages of a payload come in with rising numbers, in any order, with losses and repeats
      and among any other traffic, the end at some time. */
  ghost predicate ComesIn(history: seq<CacheEvent>, ms: seq<Arrival>, src: nat, numbers: seq<nat>,
                          data: seq<Byte>, sum: seq<Byte>, arrived: seq<nat>) {
    && |numbers| == SlotCount(|data|) + 2 && Increasing(numbers)
    && (forall n | n in Received(history, src) :: n < numbers[0])
    && (forall i | 0 <= i < |arrived| :: arrived[i] < |numbers|)
    && Of(ms, src) == Carried(numbers, Stream(data, sum), arrived)
    && |numbers| - 1 in arrived
  }

  /** If the start comes first, the payload comes out exactly if every message has come in before
      every later one. The cache drops an overtaken fragment, and the packet stays incomplete. */
  lemma StartFirst(ps: Packets, history: seq<CacheEvent>, ms: seq<Arrival>, src: nat, numbers: seq<nat>,
                   data: seq<Byte>, sum: seq<Byte>, arrived: seq<nat>)
    requires ComesIn(history, ms, src, numbers, data, sum, arrived) && arrived[0] == 0
    ensures var log := Of(Run(ps, Through(history, ms)).1, src);
      log != [] && log[|log| - 1] ==
        if forall k: nat | k < |numbers| :: InTime(arrived, k) then Delivered(data) else Incomplete
  {
    var n := SlotCount(|data|);
    var ks := Passing(arrived);
    hide Through, Received, Of, Run, Passing, Piece, Carried;
    ThroughIs(history, ms, src, numbers, Stream(data, sum), arrived);
    PassingRises(arrived);
    assert ks[|ks| - 1] in ks;
    assert ks[0] == 0 && ks[|ks| - 1] == n + 1;
    var parts := Middle(ks, n);
    PickIs(data, sum, ks, parts);
    Reassembly(ps, Through(history, ms), src, [], data, parts, sum);
    InTimeParts(arrived, ks, parts, n);
  }

  /** The fragments among the messages that pass, by their numbers. */
  function Middle(ks: seq<nat>, n: nat): (parts: seq<nat>)
    requires |ks| >= 2 && Increasing(ks) && ks[0] == 0 && ks[|ks| - 1] == n + 1
    ensures |parts| == |ks| - 2 && forall i | 0 <= i < |parts| :: parts[i] + 1 == ks[i + 1] && parts[i] < n
  {
    seq(|ks| - 2, i requires 0 <= i < |ks| - 2 => ks[i + 1] - 1)
  }

  lemma PickIs(data: seq<Byte>, sum: seq<Byte>, ks: seq<nat>, parts: seq<nat>)
    requires forall i | 0 <= i < |ks| :: ks[i] < SlotCount(|data|) + 2
    requires |ks| >= 2 && ks[0] == 0 && ks[|ks| - 1] == SlotCount(|data|) + 1 && |parts| == |ks| - 2
    requires forall i | 0 <= i < |parts| :: parts[i] + 1 == ks[i + 1] && parts[i] < SlotCount(|data|)
    ensures Pick(Stream(data, sum), ks) == [] + [Start(|data|)] + Fragments(data, parts) + [End(sum)]
  {
    hide Piece, FirstNumbers;
    var n := SlotCount(|data|);
    var stream := Stream(data, sum);
    var picked, want := Pick(stream, ks), [] + [Start(|data|)] + Fragments(data, parts) + [End(sum)];
    assert |picked| == |want|;
    forall j | 0 <= j < |picked| ensures picked[j] == want[j] {
      if 0 < j < |picked| - 1 {
        assert parts[j - 1] + 1 == ks[j];
        PartOf(data, sum, parts[j - 1]);
        assert want[j] == Fragments(data, parts)[j - 1];
      }
    }
  }

  lemma PartOf(data: seq<Byte>, sum: seq<Byte>, i: nat)
    requires i < SlotCount(|data|)
    ensures Stream(data, sum)[i + 1] == Fragment(i, Piece(data, i))
  {
    assert Stream(data, sum)[i + 1] == Fragments(data, FirstNumbers(SlotCount(|data|)))[i];
  }

  lemma InTimeParts(arrived: seq<nat>, ks: seq<nat>, parts: seq<nat>, n: nat)
    requires ks == Passing(arrived) && |ks| >= 2 && ks[0] == 0 && ks[|ks| - 1] == n + 1 && |parts| == |ks| - 2
    requires forall i | 0 <= i < |parts| :: parts[i] + 1 == ks[i + 1] && parts[i] < n
    ensures (forall i: nat | i < n :: i in parts) <==> forall k: nat | k < n + 2 :: InTime(arrived, k)
  {
    hide Passing, InTime;
    forall k: nat ensures k in ks <==> InTime(arrived, k) {
      PassingIsInTime(arrived, k);
    }
    assert ks[0] in ks && ks[|ks| - 1] in ks;
    forall i: nat | i < n ensures i in parts <==> i + 1 in ks {
      if i in parts {
        var j :| 0 <= j < |parts| && parts[j] == i;
        assert ks[j + 1] == i + 1;
      }
      if i + 1 in ks {
        var j :| 0 <= j < |ks| && ks[j] == i + 1;
        assert parts[j - 1] == i;
      }
    }
    if forall i: nat | i < n :: i in parts {
      forall k: nat | k < n + 2 ensures InTime(arrived, k) {
        if 0 < k <= n {
          assert k - 1 in parts;
        }
      }
    }
    if forall k: nat | k < n + 2 :: InTime(arrived, k) {
      forall i: nat | i < n ensures i in parts {
        assert InTime(arrived, i + 1);
      }
    }
  }

  // ---- Streams whose start does not come first

  /** The packet of the source from before, its empty slots filled with the fragments that come in
      before every later message. */
  ghost function Mixed(p: Packet, data: seq<Byte>, arrived: seq<nat>): Packet {
    p.(slots := seq(|p.slots|, i requires 0 <= i < |p.slots| =>
      if p.slots[i] != [] || i >= p.length then p.slots[i]
      else if i < SlotCount(|data|) && InTime(arrived, i + 1) then Piece(data, i)
      else []))
  }

  lemma {:induction false} FirstPiece(data: seq<Byte>, parts: seq<nat>, i: nat)
    requires forall j | 0 <= j < |parts| :: parts[j] < SlotCount(|data|)
    ensures FirstData(Fragments(data, parts), i) == if i in parts then Piece(data, i) else []
  {
    if parts != [] {
      var init, n := parts[..|parts| - 1], parts[|parts| - 1];
      FirstPiece(data, init, i);
      FragmentsSnoc(data, init, n);
      assert parts == init + [n];
      hide FirstData, Fragments, Piece;
      FirstDataSnoc(Fragments(data, init), Fragment(n, Piece(data, n)), i);
    }
  }

  /** The numbers of the fragments among the messages that pass. */
  function Parts(ks: seq<nat>, n: nat): (parts: seq<nat>)
    requires ks != [] && Increasing(ks) && ks[0] > 0 && ks[|ks| - 1] == n + 1
    ensures |parts| == |ks| - 1 && forall i | 0 <= i < |parts| :: parts[i] + 1 == ks[i] && parts[i] < n
  {
    seq(|ks| - 1, i requires 0 <= i < |ks| - 1 => ks[i] - 1)
  }

  lemma PickParts(data: seq<Byte>, sum: seq<Byte>, ks: seq<nat>, parts: seq<nat>)
    requires forall i | 0 <= i < |ks| :: ks[i] < SlotCount(|data|) + 2
    requires ks != [] && ks[|ks| - 1] == SlotCount(|data|) + 1 && |parts| == |ks| - 1
    requires forall i | 0 <= i < |parts| :: parts[i] + 1 == ks[i] && parts[i] < SlotCount(|data|)
    ensures Pick(Stream(data, sum), ks) == Fragments(data, parts) + [End(sum)]
  {
    hide Piece, FirstNumbers;
    var picked, want := Pick(Stream(data, sum), ks), Fragments(data, parts) + [End(sum)];
    assert |picked| == |want|;
    forall j | 0 <= j < |picked| ensures picked[j] == want[j] {
      if j < |parts| {
        PartOf(data, sum, parts[j]);
        assert want[j] == Fragments(data, parts)[j];
      }
    }
  }

  lemma PartsInTime(arrived: seq<nat>, ks: seq<nat>, parts: seq<nat>, n: nat, i: nat)
    requires ks == Passing(arrived) && ks != [] && ks[|ks| - 1] == n + 1 && |parts| == |ks| - 1
    requires forall j | 0 <= j < |parts| :: parts[j] + 1 == ks[j] && parts[j] < n
    ensures i in parts <==> i < n && InTime(arrived, i + 1)
  {
    PassingIsInTime(arrived, i + 1);
    hide Passing, InTime;
    if i in parts {
      var j :| 0 <= j < |parts| && parts[j] == i;
      assert ks[j] in ks;
    }
    if i < n && i + 1 in ks {
      var j :| 0 <= j < |ks| && ks[j] == i + 1;
      assert parts[j] == i;
    }
  }

  /** If another message comes before the start, the cache drops the start, and the fragments that
      pass go to the packet of the source from before, if there is one. */
  lemma StartOvertaken(ps: Packets, history: seq<CacheEvent>, ms: seq<Arrival>, src: nat, numbers: seq<nat>,
                       data: seq<Byte>, sum: seq<Byte>, arrived: seq<nat>)
    requires ComesIn(history, ms, src, numbers, data, sum, arrived) && arrived[0] != 0
    ensures var log := Of(Run(ps, Through(history, ms)).1, src);
      log != [] && log[|log| - 1] ==
        if src !in ps then Raised(NoStart)
        else if Complete(Mixed(ps[src], data, arrived)) then Delivered(Concat(Mixed(ps[src], data, arrived).slots))
        else Incomplete
  {
    var n, ks := SlotCount(|data|), Passing(arrived);
    hide Through, Received, Of, Run, Passing, Piece, Carried, Complete, Filled, Mixed;
    ThroughIs(history, ms, src, numbers, Stream(data, sum), arrived);
    PassingRises(arrived);
    assert ks[|ks| - 1] in ks;
    var parts := Parts(ks, n);
    PickParts(data, sum, ks, parts);
    EndWithoutStart(ps, Through(history, ms), src, Fragments(data, parts), sum);
    if src in ps {
      FilledIsMixed(ps[src], data, arrived, ks, parts);
    }
  }

  lemma FilledIsMixed(p: Packet, data: seq<Byte>, arrived: seq<nat>, ks: seq<nat>, parts: seq<nat>)
    requires ks == Passing(arrived) && ks != [] && ks[|ks| - 1] == SlotCount(|data|) + 1 && |parts| == |ks| - 1
    requires forall j | 0 <= j < |parts| :: parts[j] + 1 == ks[j] && parts[j] < SlotCount(|data|)
    ensures Filled(p, Fragments(data, parts)) == Mixed(p, data, arrived)
  {
    hide FirstData, Fragments, Passing, InTime, Piece;
    var a, b := Filled(p, Fragments(data, parts)).slots, Mixed(p, data, arrived).slots;
    forall i | 0 <= i < |p.slots| ensures a[i] == b[i] {
      FirstPiece(data, parts, i);
      PartsInTime(arrived, ks, parts, SlotCount(|data|), i);
    }
    assert a == b;
  }

  /** Which payload comes out behind the replay cache when the end of a stream comes in. */
  lemma OrderDecides(ps: Packets, history: seq<CacheEvent>, ms: seq<Arrival>, src: nat, numbers: seq<nat>,
                     data: seq<Byte>, sum: seq<Byte>, arrived: seq<nat>)
    requires ComesIn(history, ms, src, numbers, data, sum, arrived)
    ensures var log := Of(Run(ps, Through(history, ms)).1, src);
      log != [] && log[|log| - 1] ==
        if arrived[0] == 0 then
          if forall k: nat | k < |numbers| :: InTime(arrived, k) then Delivered(data) else Incomplete
        else if src !in ps then Raised(NoStart)
        else if Complete(Mixed(ps[src], data, arrived)) then Delivered(Concat(Mixed(ps[src], data, arrived).slots))
        else Incomplete
  {
    hide Through, Of, Run, Complete, Mixed, InTime, Received, Carried;
    if arrived[0] == 0 {
      StartFirst(ps, history, ms, src, numbers, data, sum, arrived);
    } else {
      StartOvertaken(ps, history, ms, src, numbers, data, sum, arrived);
    }
  }

  // ---- A fragment that is overtaken

  /** A payload of two fragments whose second one comes in before the first. */
  lemma OvertakenFragment(a: seq<Byte>, b: seq<Byte>)
    requires |a| == |b| == FRAG_SIZE
    ensures var ms := [(7, (0, Start(10))), (7, (2, Fragment(1, b))), (7, (1, Fragment(0, a))), (7, (3, End([])))];
      var log := Of(Run(map[], Through([], ms)).1, 7); log != [] && log[|log| - 1] == Incomplete
  {
    var ms := [(7, (0, Start(10))), (7, (2, Fragment(1, b))), (7, (1, Fragment(0, a))), (7, (3, End([])))];
    var numbers, arrived := [0, 1, 2, 3], [0, 2, 1, 3];
    OvertakenArrivals(a, b, ms);
    OneIsOvertaken();
    hide Of, Run, Through, ComesIn, InTime, Complete, Mixed;
    assert |a + b| == 10 && SlotCount(10) == 2;
    OrderDecides(map[], [], ms, 7, numbers, a + b, [], arrived);
  }

  lemma OvertakenArrivals(a: seq<Byte>, b: seq<Byte>, ms: seq<Arrival>)
    requires |a| == |b| == FRAG_SIZE
    requires ms == [(7, (0, Start(10))), (7, (2, Fragment(1, b))), (7, (1, Fragment(0, a))), (7, (3, End([])))]
    ensures ComesIn([], ms, 7, [0, 1, 2, 3], a + b, [], [0, 2, 1, 3])
  {
    var numbers, arrived := [0, 1, 2, 3], [0, 2, 1, 3];
    TwoPieces(a, b);
    OfAll(ms, 7);
    hide Of, Stream;
    assert Carried(numbers, Stream(a + b, []), arrived)
        == [(0, Start(10)), (2, Fragment(1, b)), (1, Fragment(0, a)), (3, End([]))];
    assert Of(ms, 7) == [(0, Start(10)), (2, Fragment(1, b)), (1, Fragment(0, a)), (3, End([]))];
    assert |numbers| - 1 == arrived[3] && Received([], 7) == [];
  }

  lemma OneIsOvertaken()
    ensures !InTime([0, 2, 1, 3], 1)
  {
    var arrived := [0, 2, 1, 3];
    assert arrived[..2][1] == 2 && 2 in arrived[..2];
    assert !FirstUpTo(arrived, 2, 1);
  }

  lemma TwoPieces(a: seq<Byte>, b: seq<Byte>)
    requires |a| == |b| == FRAG_SIZE
    ensures Stream(a + b, []) == [Start(10), Fragment(0, a), Fragment(1, b), End([])]
  {
    var data := a + b;
    assert Piece(data, 0) == a && Piece(data, 1) == b;
    var numbers := FirstNumbers(2);
    assert numbers[0] == 0 && numbers[1] == 1;
    hide FirstNumbers, Piece;
    assert Fragments(data, numbers) == [Fragment(0, a), Fragment(1, b)];
  }

  lemma {:induction false} OfAll<T>(xs: seq<(nat, T)>, src: nat)
    requires forall i | 0 <= i < |xs| :: xs[i].0 == src
    ensures Of(xs, src) == seq(|xs|, i requires 0 <= i < |xs| => xs[i].1)
  {
    if xs != [] {
      OfAll(xs[..|xs| - 1], src);
    }
  }

  // ---- Streams whose end is lost

  /** No payload comes out of a stream whose end does not come in. */
  lemma {:induction false} NoEndNoPayload(p: Option<Packet>, es: seq<Event>)
    requires forall i | 0 <= i < |es| :: !es[i].End?
    ensures forall i | 0 <= i < |RunOne(p, es).1| :: !RunOne(p, es).1[i].Delivered?
  {
    if es != [] {
      NoEndNoPayload(p, es[..|es| - 1]);
    }
  }

  /** Behind the cache, a source of which no end comes in delivers nothing. */
  lemma EndLost(ps: Packets, history: seq<CacheEvent>, ms: seq<Arrival>, src: nat)
    requires forall i | 0 <= i < |ms| :: ms[i].0 == src ==> !ms[i].1.1.End?
    ensures forall o | o in Of(Run(ps, Through(history, ms)).1, src) :: !o.Delivered?
  {
    ThroughWithoutEnd(history, ms, src);
    hide Through, Of, Run, RunOne;
    SourcesAreIndependent(ps, Through(history, ms), src);
    NoEndNoPayload(Lookup(ps, src), Of(Through(history, ms), src));
  }

  lemma {:induction false} ThroughWithoutEnd(history: seq<CacheEvent>, ms: seq<Arrival>, src: nat)
    requires forall i | 0 <= i < |ms| :: ms[i].0 == src ==> !ms[i].1.1.End?
    ensures forall i | 0 <= i < |Of(Through(history, ms), src)| :: !Of(Through(history, ms), src)[i].End?
  {
    if ms != [] {
      ThroughWithoutEnd(history, ms[..|ms| - 1], src);
      hide Through, Of, Newest;
      ThroughNext(history, ms, src);
    }
  }
}
