/** Gateway-to-gateway messages: fragments, their wire form, and reassembly per source. */
module TransportSpec {
  import opened Options
  import opened Bytes

  const FRAG_SIZE := 5

  // ---- One fragmented packet

  /** A packet under reassembly. A slot that has received nothing is empty. */
  datatype Packet = Packet(length: nat, slots: seq<seq<Byte>>)

  datatype Fault = OutsideRange | NoSlot | NoStart

  function SlotCount(length: nat): nat {
    (length + FRAG_SIZE - 1) / FRAG_SIZE
  }

  function NewPacket(length: nat): Packet {
    Packet(length, seq(SlotCount(length), _ => []))
  }

  /** The first data of a slot stay. A number from the slot count up to the length passes the range
      check and only then fails. */
  function Add(p: Packet, n: nat, data: seq<Byte>): Result<Packet, Fault> {
    if n >= p.length then Err(OutsideRange)
    else if n >= |p.slots| then Err(NoSlot)
    else if p.slots[n] != [] then Ok(p)
    else Ok(p.(slots := p.slots[n := data]))
  }

  predicate Complete(p: Packet) {
    forall i | 0 <= i < |p.slots| :: p.slots[i] != []
  }

  function Payload(p: Packet): Option<seq<Byte>> {
    if Complete(p) then Some(Concat(p.slots)) else None
  }

  // ---- The handler, for one source and for all

  datatype Event = Start(length: nat) | Fragment(number: nat, data: seq<Byte>) | End(sum: seq<Byte>) | Other

  datatype Outcome = Quiet | Delivered(data: seq<Byte>) | Incomplete | Raised(fault: Fault)

  /** What an event does to the packet of its source. */
  function HandleOne(p: Option<Packet>, e: Event): (Option<Packet>, Outcome) {
    match e
    case Start(length) => (Some(NewPacket(length)), Quiet)
    case Fragment(number, data) =>
      if p.None? then (p, Raised(NoStart))
      else (match Add(p.value, number, data)
            case Ok(q) => (Some(q), Quiet)
            case Err(f) => (p, Raised(f)))
    case End(_) =>
      if p.None? then (p, Raised(NoStart))
      else (match Payload(p.value)
            case Some(data) => (p, Delivered(data))
            case None => (p, Incomplete))
    case Other => (p, Quiet)
  }

  type Packets = map<nat, Packet>

  function Lookup(ps: Packets, src: nat): Option<Packet> {
    if src in ps then Some(ps[src]) else None
  }

  function Handle(ps: Packets, src: nat, e: Event): (Packets, Outcome) {
    var (p, o) := HandleOne(Lookup(ps, src), e);
    (if p.Some? then ps[src := p.value] else ps, o)
  }

  /** A run from any packets, with what came of each event. */
  function RunOne(p: Option<Packet>, es: seq<Event>): (Option<Packet>, seq<Outcome>) {
    if es == [] then (p, [])
    else
      var (q, log) := RunOne(p, es[..|es| - 1]);
      var (q', o) := HandleOne(q, es[|es| - 1]);
      (q', log + [o])
  }

  function Run(ps: Packets, es: seq<(nat, Event)>): (Packets, seq<(nat, Outcome)>) {
    if es == [] then (ps, [])
    else
      var (qs, log) := Run(ps, es[..|es| - 1]);
      var (src, e) := es[|es| - 1];
      var (qs', o) := Handle(qs, src, e);
      (qs', log + [(src, o)])
  }

  /** The part of a sequence that belongs to one source. */
  function Of<T>(xs: seq<(nat, T)>, src: nat): seq<T> {
    if xs == [] then []
    else Of(xs[..|xs| - 1], src) + (if xs[|xs| - 1].0 == src then [xs[|xs| - 1].1] else [])
  }

  lemma OfSnoc<T>(xs: seq<(nat, T)>, x: (nat, T), src: nat)
    ensures Of(xs + [x], src) == Of(xs, src) + (if x.0 == src then [x.1] else [])
  {
    assert (xs + [x])[..|xs|] == xs;
  }

  lemma RunOneSnoc(p: Option<Packet>, es: seq<Event>, e: Event)
    ensures RunOne(p, es + [e]) ==
              (HandleOne(RunOne(p, es).0, e).0, RunOne(p, es).1 + [HandleOne(RunOne(p, es).0, e).1])
  {
    assert (es + [e])[..|es|] == es;
  }

  lemma RunSnoc(ps: Packets, es: seq<(nat, Event)>)
    requires es != []
    ensures var (qs, log) := Run(ps, es[..|es| - 1]); var (src, e) := es[|es| - 1];
      Run(ps, es) == (Handle(qs, src, e).0, log + [(src, HandleOne(Lookup(qs, src), e).1)])
  {
  }

  lemma HandleLookup(ps: Packets, at: nat, e: Event, src: nat)
    ensures Lookup(Handle(ps, at, e).0, src) == if at == src then HandleOne(Lookup(ps, src), e).0 else Lookup(ps, src)
  {
  }

  /** Streams of different sources do not meet: whatever the interleaving, each source sees the
      packet and the outcomes of its own events. */
  lemma {:induction false} SourcesAreIndependent(ps: Packets, es: seq<(nat, Event)>, src: nat)
    ensures var (qs, log) := Run(ps, es);
      (Lookup(qs, src), Of(log, src)) == RunOne(Lookup(ps, src), Of(es, src))
  {
    if es != [] {
      var init, last := es[..|es| - 1], es[|es| - 1];
      SourcesAreIndependent(ps, init, src);
      RunSnoc(ps, es);
      var (qs, log) := Run(ps, init);
      var o := HandleOne(Lookup(qs, last.0), last.1).1;
      OfSnoc(log, (last.0, o), src);
      hide Run, RunOne, Handle, HandleOne, Lookup;
      HandleLookup(qs, last.0, last.1, src);
      if last.0 == src {
        RunOneSnoc(Lookup(ps, src), Of(init, src), last.1);
      } else {
        assert Of(es, src) == Of(init, src) && Of(log + [(last.0, o)], src) == Of(log, src);
      }
    }
  }

  // ---- Reassembly

  /** The i-th fragment of a payload. */
  function Piece(data: seq<Byte>, i: nat): (piece: seq<Byte>)
    requires i < SlotCount(|data|)
    ensures piece != []
  {
    data[i * FRAG_SIZE..if (i + 1) * FRAG_SIZE <= |data| then (i + 1) * FRAG_SIZE else |data|]
  }

  /** Fragments of a payload, in any order and with any repeats. */
  function Fragments(data: seq<Byte>, numbers: seq<nat>): seq<Event>
    requires forall i | 0 <= i < |numbers| :: numbers[i] < SlotCount(|data|)
  {
    seq(|numbers|, i requires 0 <= i < |numbers| => Fragment(numbers[i], Piece(data, numbers[i])))
  }

  /** The packet that has received these fragments. */
  function Having(data: seq<Byte>, numbers: seq<nat>): Packet {
    Packet(|data|, seq(SlotCount(|data|), i requires 0 <= i < SlotCount(|data|) =>
      if i in numbers then Piece(data, i) else []))
  }

  lemma HavingMore(data: seq<Byte>, numbers: seq<nat>, n: nat)
    requires n < SlotCount(|data|)
    ensures Add(Having(data, numbers), n, Piece(data, n)) == Ok(Having(data, numbers + [n]))
  {
    var p, q := Having(data, numbers), Having(data, numbers + [n]);
    assert forall i :: i in numbers + [n] <==> i in numbers || i == n;
    if n in numbers {
      assert p.slots[n] == Piece(data, n);
      assert p.slots == q.slots;
    } else {
      assert p.slots[n := Piece(data, n)] == q.slots;
    }
  }

  lemma FragmentsSnoc(data: seq<Byte>, numbers: seq<nat>, n: nat)
    requires n < SlotCount(|data|) && forall i | 0 <= i < |numbers| :: numbers[i] < SlotCount(|data|)
    ensures Fragments(data, numbers + [n]) == Fragments(data, numbers) + [Fragment(n, Piece(data, n))]
  {
    hide Piece;
  }

  lemma Started(p: Option<Packet>, before: seq<Event>, data: seq<Byte>)
    ensures RunOne(p, before + [Start(|data|)]).0 == Some(Having(data, []))
  {
    RunOneSnoc(p, before, Start(|data|));
    assert NewPacket(|data|).slots == Having(data, []).slots;
  }

  lemma {:induction false} FragmentsAdd(p: Option<Packet>, before: seq<Event>, data: seq<Byte>, numbers: seq<nat>)
    requires forall i | 0 <= i < |numbers| :: numbers[i] < SlotCount(|data|)
    ensures RunOne(p, before + [Start(|data|)] + Fragments(data, numbers)).0 == Some(Having(data, numbers))
  {
    var begun := before + [Start(|data|)];
    if numbers == [] {
      Started(p, before, data);
      assert begun + [] == begun;
    } else {
      var init, n := numbers[..|numbers| - 1], numbers[|numbers| - 1];
      assert numbers == init + [n];
      FragmentsAdd(p, before, data, init);
      hide RunOne, Having, Add, Piece, Fragments;
      FragmentsSnoc(data, init, n);
      var e := Fragment(n, Piece(data, n));
      assert begun + Fragments(data, numbers) == begun + Fragments(data, init) + [e];
      RunOneSnoc(p, begun + Fragments(data, init), e);
      HavingMore(data, init, n);
    }
  }

  lemma {:induction false} PiecesConcat(data: seq<Byte>, k: nat)
    requires k <= SlotCount(|data|)
    ensures Concat(Pieces(data, k)) == data[..if k * FRAG_SIZE <= |data| then k * FRAG_SIZE else |data|]
  {
    if k > 0 {
      PiecesConcat(data, k - 1);
      assert Pieces(data, k) == Pieces(data, k - 1) + [Piece(data, k - 1)];
      ConcatSnoc(Pieces(data, k - 1), Piece(data, k - 1));
    }
  }

  function Pieces(data: seq<Byte>, k: nat): seq<seq<Byte>>
    requires k <= SlotCount(|data|)
  {
    seq(k, i requires 0 <= i < k => Piece(data, i))
  }

  /** The payload comes out exactly when every fragment has arrived. */
  lemma HavingAll(data: seq<Byte>, numbers: seq<nat>)
    ensures Payload(Having(data, numbers)) ==
              if forall i: nat | i < SlotCount(|data|) :: i in numbers then Some(data) else None
  {
    var p := Having(data, numbers);
    if forall i: nat | i < SlotCount(|data|) :: i in numbers {
      assert p.slots == Pieces(data, SlotCount(|data|));
      PiecesConcat(data, SlotCount(|data|));
      assert data[..|data|] == data;
    } else {
      var i: nat :| i < SlotCount(|data|) && i !in numbers;
      assert p.slots[i] == [];
    }
  }

  /** The round trip, among any other traffic: behind a start, the end of a stream delivers the
      payload when every fragment has arrived, in whatever order and however often, and otherwise
      reports the packet incomplete. */
  lemma Reassembly(ps: Packets, es: seq<(nat, Event)>, src: nat, before: seq<Event>,
                   data: seq<Byte>, numbers: seq<nat>, sum: seq<Byte>)
    requires forall i | 0 <= i < |numbers| :: numbers[i] < SlotCount(|data|)
    requires Of(es, src) == before + [Start(|data|)] + Fragments(data, numbers) + [End(sum)]
    ensures var log := Of(Run(ps, es).1, src);
      log != [] && log[|log| - 1] ==
        if forall i: nat | i < SlotCount(|data|) :: i in numbers then Delivered(data) else Incomplete
  {
    hide Run, RunOne, Payload, Having, Add;
    var stream := before + [Start(|data|)] + Fragments(data, numbers);
    SourcesAreIndependent(ps, es, src);
    RunOneSnoc(Lookup(ps, src), stream, End(sum));
    FragmentsAdd(Lookup(ps, src), before, data, numbers);
    HavingAll(data, numbers);
  }

  // ---- Streams whose start is lost

  /** The first data, other than none, that the events bring for a slot. */
  function FirstData(es: seq<Event>, i: nat): seq<Byte> {
    if es == [] then []
    else
      var before, last := FirstData(es[..|es| - 1], i), es[|es| - 1];
      if before == [] && last.Fragment? && last.number == i then last.data else before
  }

  /** The packet with its empty slots filled, as far as the events bring data for them. */
  function Filled(p: Packet, es: seq<Event>): Packet {
    p.(slots := seq(|p.slots|, i requires 0 <= i < |p.slots| =>
      if p.slots[i] != [] || i >= p.length then p.slots[i] else FirstData(es, i)))
  }

  /** The slot has data, or the events bring some. */
  ghost predicate GetsData(p: Packet, es: seq<Event>, i: nat)
    requires i < |p.slots|
  {
    p.slots[i] != [] || (i < p.length && exists e :: e in es && e.Fragment? && e.number == i && e.data != [])
  }

  lemma FirstDataSnoc(es: seq<Event>, e: Event, i: nat)
    ensures FirstData(es + [e], i) ==
              if FirstData(es, i) == [] && e.Fragment? && e.number == i then e.data else FirstData(es, i)
  {
    assert (es + [e])[..|es|] == es;
  }

  lemma {:induction false} FirstDataIs(es: seq<Event>, i: nat)
    ensures FirstData(es, i) != [] <==> exists e :: e in es && e.Fragment? && e.number == i && e.data != []
  {
    if es != [] {
      FirstDataIs(es[..|es| - 1], i);
    }
  }

  lemma FilledNext(p: Packet, es: seq<Event>, e: Event)
    requires !e.Start?
    ensures HandleOne(Some(Filled(p, es)), e).0 == Some(Filled(p, es + [e]))
  {
    var q, r := Filled(p, es), Filled(p, es + [e]);
    forall i | 0 <= i < |p.slots|
      ensures FirstData(es + [e], i) ==
                if FirstData(es, i) == [] && e.Fragment? && e.number == i then e.data else FirstData(es, i)
    {
      FirstDataSnoc(es, e, i);
    }
    hide FirstData;
    if e.Fragment? && e.number < q.length && e.number < |q.slots| && q.slots[e.number] == [] {
      assert q.slots[e.number := e.data] == r.slots;
    } else {
      assert q.slots == r.slots;
    }
  }

  lemma {:induction false} FilledRun(p: Packet, es: seq<Event>)
    requires forall i | 0 <= i < |es| :: !es[i].Start?
    ensures RunOne(Some(p), es).0 == Some(Filled(p, es))
  {
    if es == [] {
      assert Filled(p, []).slots == p.slots;
    } else {
      FilledRun(p, es[..|es| - 1]);
      hide HandleOne, Filled;
      FilledNext(p, es[..|es| - 1], es[|es| - 1]);
      assert es[..|es| - 1] + [es[|es| - 1]] == es;
    }
  }

  lemma FilledComplete(p: Packet, es: seq<Event>)
    ensures Complete(Filled(p, es)) <==> forall i | 0 <= i < |p.slots| :: GetsData(p, es, i)
  {
    forall i | 0 <= i < |p.slots| ensures Filled(p, es).slots[i] != [] <==> GetsData(p, es, i) {
      FirstDataIs(es, i);
    }
    hide FirstData, GetsData, Filled;
    if Complete(Filled(p, es)) {
      FilledSize(p, es);
      assert forall i | 0 <= i < |p.slots| :: GetsData(p, es, i);
    } else {
      FilledSize(p, es);
    }
  }

  lemma FilledSize(p: Packet, es: seq<Event>)
    ensures Filled(p, es).length == p.length && |Filled(p, es).slots| == |p.slots|
  {
  }

  /** The end of a stream whose start is lost finds the packet the source sent before, with its
      empty slots filled. */
  lemma EndWithoutStart(ps: Packets, es: seq<(nat, Event)>, src: nat, between: seq<Event>, sum: seq<Byte>)
    requires forall i | 0 <= i < |between| :: !between[i].Start?
    requires Of(es, src) == between + [End(sum)]
    ensures var log := Of(Run(ps, es).1, src);
      log != [] && log[|log| - 1] ==
        if src !in ps then Raised(NoStart)
        else if Complete(Filled(ps[src], between)) then Delivered(Concat(Filled(ps[src], between).slots))
        else Incomplete
  {
    hide Run, RunOne, Of, Filled, Complete;
    SourcesAreIndependent(ps, es, src);
    RunOneSnoc(Lookup(ps, src), between, End(sum));
    if src in ps {
      FilledRun(ps[src], between);
    } else {
      NoPacket(between);
    }
  }

  /** What the end of a stream delivers whose start is lost, among any other traffic: the fragments
      go to the packet the source sent before, whose own data stay. It comes out exactly if each of
      its slots has data or gets some, slot by slot the old data first; without a packet from before
      the end fails. */
  lemma LostStart(ps: Packets, es: seq<(nat, Event)>, src: nat, between: seq<Event>, sum: seq<Byte>)
    requires forall i | 0 <= i < |between| :: !between[i].Start?
    requires Of(es, src) == between + [End(sum)]
    ensures var log := Of(Run(ps, es).1, src);
      log != [] && log[|log| - 1] ==
        if src !in ps then Raised(NoStart)
        else if forall i | 0 <= i < |ps[src].slots| :: GetsData(ps[src], between, i)
        then Delivered(Concat(Filled(ps[src], between).slots))
        else Incomplete
  {
    hide Run, Of, Filled, Complete, GetsData;
    EndWithoutStart(ps, es, src, between, sum);
    if src in ps {
      FilledComplete(ps[src], between);
    }
  }

  /** What comes of a fragment, among any other traffic: it fails without a start, and otherwise exactly
      if its number is none of the slots of the packet, in one way up to the length of the payload and
      in another beyond it. */
  lemma FragmentOutcome(ps: Packets, es: seq<(nat, Event)>, src: nat, between: seq<Event>, n: nat, data: seq<Byte>)
    requires forall i | 0 <= i < |between| :: !between[i].Start?
    requires Of(es, src) == between + [Fragment(n, data)]
    requires src in ps ==> |ps[src].slots| == SlotCount(ps[src].length)
    ensures var log := Of(Run(ps, es).1, src);
      log != [] && log[|log| - 1] ==
        if src !in ps then Raised(NoStart)
        else if n < SlotCount(ps[src].length) then Quiet
        else if n < ps[src].length then Raised(NoSlot)
        else Raised(OutsideRange)
  {
    hide Run, RunOne, Of, Filled;
    SourcesAreIndependent(ps, es, src);
    RunOneSnoc(Lookup(ps, src), between, Fragment(n, data));
    if src in ps {
      FilledRun(ps[src], between);
      FilledSize(ps[src], between);
    } else {
      NoPacket(between);
    }
  }

  lemma {:induction false} NoPacket(es: seq<Event>)
    requires forall i | 0 <= i < |es| :: !es[i].Start?
    ensures RunOne(None, es).0 == None
  {
    if es != [] {
      NoPacket(es[..|es| - 1]);
    }
  }

  const FIVE_ONES: seq<Byte> := [1, 1, 1, 1, 1]
  const FIVE_TWOS: seq<Byte> := [2, 2, 2, 2, 2]

  /** Of a first payload only the first fragment comes in, and of a second one all but the start:
      what is delivered is the front of the first and the back of the second, which nobody sent. */
  lemma MixedPayload()
    ensures var es := [Start(10), Fragment(0, FIVE_ONES), Fragment(0, FIVE_TWOS), Fragment(1, FIVE_TWOS), End([])];
      RunOne(None, es).1 == [Quiet, Quiet, Quiet, Quiet, Delivered(FIVE_ONES + FIVE_TWOS)]
  {
    var a, b := FIVE_ONES, FIVE_TWOS;
    var p0, p1, p2 := NewPacket(10), Packet(10, [a, []]), Packet(10, [a, b]);
    assert p0.slots == [[], []] && p0.slots[0 := a] == p1.slots && p1.slots[1 := b] == p2.slots;
    TwoSlots(a, b);
    var e1, e2, e3, e4, e5 := Start(10), Fragment(0, a), Fragment(0, b), Fragment(1, b), End([]);
    assert HandleOne(None, e1) == (Some(p0), Quiet) && HandleOne(Some(p0), e2) == (Some(p1), Quiet);
    assert HandleOne(Some(p1), e3) == (Some(p1), Quiet) && HandleOne(Some(p1), e4) == (Some(p2), Quiet);
    assert HandleOne(Some(p2), e5) == (Some(p2), Delivered(a + b));
    assert RunOne(None, []) == (None, []);
    hide HandleOne, RunOne;
    var es, log := [], [];
    Follows(es, None, log, e1, Some(p0), Quiet);
    es, log := es + [e1], log + [Quiet];
    Follows(es, Some(p0), log, e2, Some(p1), Quiet);
    es, log := es + [e2], log + [Quiet];
    Follows(es, Some(p1), log, e3, Some(p1), Quiet);
    es, log := es + [e3], log + [Quiet];
    Follows(es, Some(p1), log, e4, Some(p2), Quiet);
    es, log := es + [e4], log + [Quiet];
    Follows(es, Some(p2), log, e5, Some(p2), Delivered(a + b));
    es, log := es + [e5], log + [Delivered(a + b)];
    assert es == [e1, e2, e3, e4, e5];
  }

  lemma Follows(es: seq<Event>, p: Option<Packet>, log: seq<Outcome>, e: Event, q: Option<Packet>, o: Outcome)
    requires RunOne(None, es) == (p, log)
    requires HandleOne(p, e) == (q, o)
    ensures RunOne(None, es + [e]) == (q, log + [o])
  {
    hide HandleOne, RunOne;
    RunOneSnoc(None, es, e);
  }

  lemma TwoSlots(a: seq<Byte>, b: seq<Byte>)
    ensures Concat([a, b]) == a + b
  {
    assert [a, b][1..] == [b] && [b][1..] == [];
    assert Concat([b]) == b + Concat([]) == b;
  }

  // ---- The wire form

  /** The vendor opcodes of the model. */
  const SEND: seq<Byte> := [0xC2, 0x1A, 0x00]
  const FRAGMENT_START: seq<Byte> := [0xC3, 0x1A, 0x00]
  const FRAGMENT_DATA: seq<Byte> := [0xC4, 0x1A, 0x00]
  const FRAGMENT_END: seq<Byte> := [0xC5, 0x1A, 0x00]

  /** The placeholder the sender puts in the end message, as the receiver unpacks it. */
  const SUM: seq<Byte> := [1, 2, 3, 4, 5]

  function FromBigEndian(bs: seq<Byte>): nat {
    if bs == [] then 0 else 256 * FromBigEndian(bs[..|bs| - 1]) + bs[|bs| - 1]
  }

  /** The two highest bits of a model message tell the size of its opcode. */
  function ModelGetOpcode(data: seq<Byte>): (nat, seq<Byte>)
    requires data != []
  {
    var size := if data[0] < 0x80 then 1 else if data[0] < 0xC0 then 2 else 3;
    var n := if size <= |data| then size else |data|;
    (FromBigEndian(data[..n]), data[n..])
  }

  datatype Message = Single(data: seq<Byte>) | Part(event: Event) | Foreign | Unreadable

  /** What the receiver makes of a model message. */
  function Deserialize(msg: seq<Byte>): Message {
    if msg == [] then Unreadable else
    var (opcode, data) := ModelGetOpcode(msg);
    if opcode == 0xC21A00 then Single(data)
    else if opcode == 0xC31A00 then
      if |data| == 2 then Part(Start(FromLe16(data))) else Unreadable
    else if opcode == 0xC41A00 then
      if |data| >= 2 then Part(Fragment(FromLe16(data[..2]), data[2..])) else Unreadable
    else if opcode == 0xC51A00 then
      if |data| == 6 then Part(End(data[1..if data[0] < 5 then 1 + data[0] else 6])) else Unreadable
    else Foreign
  }

  /** An opcode of one byte, or of two. */
  lemma ShortOpcodes(a: Byte, b: Byte, rest: seq<Byte>)
    ensures a < 0x80 ==> ModelGetOpcode([a] + rest) == (a, rest)
    ensures 0x80 <= a < 0xC0 ==> ModelGetOpcode([a, b] + rest) == (0x100 * a + b, rest)
  {
    assert ([a] + rest)[..1] == [a] && ([a] + rest)[1..] == rest && [a][..0] == [];
    assert ([a, b] + rest)[..2] == [a, b] && ([a, b] + rest)[2..] == rest && [a, b][..1] == [a];
    assert FromBigEndian([a]) == a;
  }

  lemma VendorOpcode(opcode: Byte, rest: seq<Byte>)
    requires opcode >= 0xC0
    ensures ModelGetOpcode([opcode, 0x1A, 0x00] + rest) == (opcode * 0x1_0000 + 0x1A00, rest)
  {
    var msg := [opcode, 0x1A, 0x00] + rest;
    var head: seq<Byte> := [opcode, 0x1A, 0x00];
    assert msg[..3] == head && msg[3..] == rest;
    assert head[..2] == [opcode, 0x1A] && head[..2][..1] == [opcode] && head[..2][..1][..0] == [];
    assert FromBigEndian(head[..2][..1]) == opcode;
    assert FromBigEndian(head[..2]) == 256 * opcode + 0x1A;
  }

  /** The messages of a payload too long for one. */
  ghost predicate IsStream(msgs: seq<seq<Byte>>, data: seq<Byte>) {
    && |msgs| == SlotCount(|data|) + 2
    && Deserialize(msgs[0]) == Part(Start(|data|))
    && (forall i: nat | i < SlotCount(|data|) :: Deserialize(msgs[i + 1]) == Part(Fragment(i, Piece(data, i))))
    && Deserialize(msgs[|msgs| - 1]) == Part(End(SUM))
  }

  lemma StartMessage(length: nat)
    requires length < 0x1_0000
    ensures Deserialize(FRAGMENT_START + Le16(length)) == Part(Start(length))
  {
    VendorOpcode(0xC3, Le16(length));
    Le16RoundTrip(length);
  }

  lemma DataMessage(number: nat, data: seq<Byte>)
    requires number < 0x1_0000
    ensures Deserialize(FRAGMENT_DATA + Le16(number) + data) == Part(Fragment(number, data))
  {
    assert FRAGMENT_DATA + Le16(number) + data == FRAGMENT_DATA + (Le16(number) + data);
    VendorOpcode(0xC4, Le16(number) + data);
    assert (Le16(number) + data)[..2] == Le16(number) && (Le16(number) + data)[2..] == data;
    Le16RoundTrip(number);
  }

  lemma EndMessage()
    ensures Deserialize(FRAGMENT_END + [5, 1, 2, 3, 4, 5]) == Part(End(SUM))
  {
    VendorOpcode(0xC5, [5, 1, 2, 3, 4, 5]);
    var data: seq<Byte> := [5, 1, 2, 3, 4, 5];
    assert data[1..6] == SUM;
  }

  /** What the receiver makes of the messages of a stream. */
  function Events(msgs: seq<seq<Byte>>): seq<Event> {
    seq(|msgs|, i requires 0 <= i < |msgs| =>
      var m := Deserialize(msgs[i]); if m.Part? then m.event else Other)
  }

  function FirstNumbers(n: nat): (r: seq<nat>)
    ensures |r| == n && forall i | 0 <= i < n :: r[i] == i
  {
    if n == 0 then [] else FirstNumbers(n - 1) + [n - 1]
  }

  /** Sending and receiving: once the messages of a payload have come in, among any other traffic,
      the last of them delivers the payload. */
  lemma SendAndReceive(ps: Packets, es: seq<(nat, Event)>, src: nat, before: seq<Event>,
                       msgs: seq<seq<Byte>>, data: seq<Byte>)
    requires IsStream(msgs, data) && Of(es, src) == before + Events(msgs)
    ensures var log := Of(Run(ps, es).1, src); log != [] && log[|log| - 1] == Delivered(data)
  {
    var numbers := FirstNumbers(SlotCount(|data|));
    hide Run, Of, Events, Fragments, Piece;
    StreamEvents(msgs, data);
    var parts := Fragments(data, numbers);
    assert before + ([Start(|data|)] + parts + [End(SUM)]) == before + [Start(|data|)] + parts + [End(SUM)];
    Reassembly(ps, es, src, before, data, numbers, SUM);
    forall i: nat | i < SlotCount(|data|) ensures i in numbers {
      assert numbers[i] == i;
    }
  }

  lemma StreamEvents(msgs: seq<seq<Byte>>, data: seq<Byte>)
    requires IsStream(msgs, data)
    ensures Events(msgs) == [Start(|data|)] + Fragments(data, FirstNumbers(SlotCount(|data|))) + [End(SUM)]
  {
    hide Deserialize, Piece, FirstNumbers;
    var es, parts := Events(msgs), Fragments(data, FirstNumbers(SlotCount(|data|)));
    forall i | 0 <= i < SlotCount(|data|) ensures es[i + 1] == parts[i] {
      assert Deserialize(msgs[i + 1]) == Part(Fragment(i, Piece(data, i)));
    }
  }
}
