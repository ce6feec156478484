/** Loading an Intel HEX file: the loader's loops, and the flash contents they stand for. */
module OtaImage {
  import opened Options
  import opened Bytes
  import opened HexText

  /** A flash image, the addresses that hold a byte. An erased byte of flash reads 0xFF. */
  type Image = map<nat, Byte>

  function Content(m: Image, a: nat): Byte {
    if a in m then m[a] else 0xFF
  }

  /** The image that holds `bytes` from `base` on. */
  function Block(base: nat, bytes: seq<Byte>): Image {
    if bytes == [] then map[]
    else Block(base, bytes[..|bytes| - 1])[base + |bytes| - 1 := bytes[|bytes| - 1]]
  }

  lemma {:induction false} BlockAt(base: nat, bytes: seq<Byte>, a: nat)
    ensures a in Block(base, bytes) <==> base <= a < base + |bytes|
    ensures base <= a < base + |bytes| ==> Block(base, bytes)[a] == bytes[a - base]
  {
    if bytes != [] {
      BlockAt(base, bytes[..|bytes| - 1], a);
    }
  }

  lemma BlockSnoc(base: nat, bytes: seq<Byte>, b: Byte)
    ensures Block(base, bytes + [b]) == Block(base, bytes)[base + |bytes| := b]
  {
    assert (bytes + [b])[..|bytes|] == bytes;
  }

  // ---- The data of a file: its records up to the first address gap

  datatype Chunk = Chunk(address: nat, bytes: seq<Byte>) {
    function End(): nat { address + |bytes| }
  }

  datatype LoadError = MalformedLine

  /** The data records of a file up to the first gap, or nothing when a line up to there is
      malformed. A data record that starts elsewhere than the previous one ended is a gap; after
      an end at address 0 every start will do. */
  function Chunks(rs: seq<Record>, prefix: nat, next: nat): Option<seq<Chunk>> {
    if rs == [] then Some([])
    else
      match rs[0]
      case Malformed => None
      case Ignored => Chunks(rs[1..], prefix, next)
      case Extended(p) => Chunks(rs[1..], p, next)
      case Data(offset, payload) =>
        var address := prefix + offset;
        if next != address && next != 0 then Some([])
        else if payload.None? then None
        else Prepend([Chunk(address, payload.value)], Chunks(rs[1..], prefix, address + |payload.value|))
  }

  function Prepend<T>(xs: seq<T>, ys: Option<seq<T>>): Option<seq<T>> {
    match ys case None => None case Some(zs) => Some(xs + zs)
  }

  /** The flash contents the chunks mean, a later chunk over an earlier one. */
  function Flash(cs: seq<Chunk>, a: nat): Byte {
    if cs == [] then 0xFF
    else
      var c := cs[|cs| - 1];
      if c.address <= a < c.End() then c.bytes[a - c.address] else Flash(cs[..|cs| - 1], a)
  }

  /** Each chunk starts where the one before ended, except behind an end at address 0. */
  ghost predicate Linked(cs: seq<Chunk>) {
    forall i | 0 <= i < |cs| - 1 :: cs[i].End() == 0 || cs[i + 1].address == cs[i].End()
  }

  function EndOf(cs: seq<Chunk>): nat {
    if cs == [] then 0 else cs[|cs| - 1].End()
  }

  /** The bytes of the chunks, one after the other. */
  function Flat(cs: seq<Chunk>): seq<Byte> {
    if cs == [] then [] else Flat(cs[..|cs| - 1]) + cs[|cs| - 1].bytes
  }

  /** Where the first byte goes. */
  function Base(cs: seq<Chunk>): nat {
    if cs == [] then 0
    else if Flat(cs[..|cs| - 1]) == [] then cs[|cs| - 1].address
    else Base(cs[..|cs| - 1])
  }

  lemma {:induction false} LinkedEnd(cs: seq<Chunk>)
    requires Linked(cs) && Flat(cs) != []
    ensures EndOf(cs) == Base(cs) + |Flat(cs)| > 0
  {
    var init := cs[..|cs| - 1];
    if Flat(init) != [] {
      LinkedEnd(init);
      assert cs[|cs| - 2].End() == EndOf(init);
    }
  }

  lemma SnocChunk(done: seq<Chunk>, c: Chunk)
    requires Linked(done) && (EndOf(done) == 0 || c.address == EndOf(done))
    ensures var cs := done + [c];
      && Linked(cs) && EndOf(cs) == c.End() && Flat(cs) == Flat(done) + c.bytes
      && (Flat(cs) != [] ==> c.address == Base(cs) + |Flat(done)|)
      && (Flat(done) != [] ==> Base(cs) == Base(done))
  {
    var cs := done + [c];
    assert cs[..|cs| - 1] == done;
    if Flat(done) != [] {
      LinkedEnd(done);
    }
  }

  /** Linked chunks lie side by side, so none hides another. */
  lemma {:induction false} LinkedFlash(cs: seq<Chunk>, a: nat)
    requires Linked(cs)
    ensures Flash(cs, a) == Content(Block(Base(cs), Flat(cs)), a)
  {
    BlockAt(Base(cs), Flat(cs), a);
    if cs != [] {
      var init := cs[..|cs| - 1];
      LinkedFlash(init, a);
      BlockAt(Base(init), Flat(init), a);
      hide Block, Linked;
      SnocChunk(init, cs[|cs| - 1]);
      assert init + [cs[|cs| - 1]] == cs;
    }
  }

  // ---- Trimming the trailing 0xFF bytes

  /** The address of the last byte other than 0xFF, or 0. */
  function Trailing(base: nat, flat: seq<Byte>): nat {
    if flat == [] then 0
    else if flat[|flat| - 1] != 0xFF then base + |flat| - 1
    else Trailing(base, flat[..|flat| - 1])
  }

  /** The bytes that stay: those up to the last other than 0xFF, or, of a blank image, the byte at
      address 0. */
  function Kept(base: nat, flat: seq<Byte>): (kept: seq<Byte>)
    ensures kept <= flat
    ensures forall i | |kept| <= i < |flat| :: flat[i] == 0xFF
    ensures kept == [] || kept[|kept| - 1] != 0xFF || (base == 0 && kept == flat[..1])
    ensures base == 0 && flat != [] ==> kept != []
  {
    if flat == [] || flat[|flat| - 1] != 0xFF || (base == 0 && |flat| == 1) then flat
    else Kept(base, flat[..|flat| - 1])
  }

  lemma TrailingSnoc(base: nat, flat: seq<Byte>, b: Byte)
    ensures Trailing(base, flat + [b]) == if b != 0xFF then base + |flat| else Trailing(base, flat)
  {
    assert (flat + [b])[..|flat|] == flat;
  }

  lemma {:induction false} KeptAddresses(base: nat, flat: seq<Byte>, i: nat)
    requires i < |flat|
    ensures base + i <= Trailing(base, flat) <==> i < |Kept(base, flat)|
  {
    if flat[|flat| - 1] == 0xFF {
      var init := flat[..|flat| - 1];
      if i < |init| {
        KeptAddresses(base, init, i);
      } else {
        LowTrailing(base, init);
      }
    }
  }

  lemma {:induction false} LowTrailing(base: nat, flat: seq<Byte>)
    ensures Trailing(base, flat) < base + |flat| || Trailing(base, flat) == 0
  {
    if flat != [] && flat[|flat| - 1] == 0xFF {
      LowTrailing(base, flat[..|flat| - 1]);
    }
  }

  lemma TrimIsKept(base: nat, flat: seq<Byte>, m: Image)
    requires m == map a | a in Block(base, flat) && a <= Trailing(base, flat) :: Block(base, flat)[a]
    ensures m == Block(base, Kept(base, flat))
  {
    hide Block, Trailing, Kept;
    var kept := Block(base, Kept(base, flat));
    forall a: nat ensures (a in m <==> a in kept) && (a in m ==> m[a] == kept[a]) {
      BlockAt(base, flat, a);
      BlockAt(base, Kept(base, flat), a);
      if base <= a < base + |flat| {
        KeptAddresses(base, flat, a - base);
      }
    }
    assert m.Keys == kept.Keys;
  }

  /** What loading a file gives. */
  function Loaded(lines: seq<string>): Result<Image, LoadError> {
    match Chunks(Records(lines), 0, 0)
    case None => Err(MalformedLine)
    case Some(cs) => Ok(Block(Base(cs), Kept(Base(cs), Flat(cs))))
  }

  // ---- The loader

  /** The loader's state after some lines: `done` are the chunks so far. */
  ghost predicate Loading(rs: seq<Record>, k: nat, done: seq<Chunk>, prefix: nat, next: nat,
                          data: Image, trailing: nat) {
    && k <= |rs|
    && Chunks(rs, 0, 0) == Prepend(done, Chunks(rs[k..], prefix, next))
    && Linked(done) && next == EndOf(done)
    && data == Block(Base(done), Flat(done))
    && trailing == Trailing(Base(done), Flat(done))
  }

  lemma NextRecord(rs: seq<Record>, k: nat)
    requires k < |rs|
    ensures rs[k..] == [rs[k]] + rs[k + 1..] && rs[k..][1..] == rs[k + 1..] && rs[k..][0] == rs[k]
  {
  }

  lemma PrependSnoc<T>(xs: seq<T>, x: T, ys: Option<seq<T>>)
    ensures Prepend(xs, Prepend([x], ys)) == Prepend(xs + [x], ys)
  {
    if ys.Some? {
      assert xs + ([x] + ys.value) == xs + [x] + ys.value;
    }
  }

  /** Copy the bytes of a data record into the image. */
  method CopyBytes(data: Image, trailing: nat, address: nat, bytes: seq<Byte>, ghost base: nat, ghost flat: seq<Byte>)
    returns (image: Image, last: nat)
    requires data == Block(base, flat) && trailing == Trailing(base, flat)
    requires bytes != [] ==> address == base + |flat|
    ensures image == Block(base, flat + bytes) && last == Trailing(base, flat + bytes)
  {
    hide Block, Trailing;
    image, last := data, trailing;
    assert flat + bytes[..0] == flat;
    for i := 0 to |bytes|
      invariant image == Block(base, flat + bytes[..i])
      invariant last == Trailing(base, flat + bytes[..i])
    {
      BlockSnoc(base, flat + bytes[..i], bytes[i]);
      TrailingSnoc(base, flat + bytes[..i], bytes[i]);
      assert flat + bytes[..i] + [bytes[i]] == flat + bytes[..i + 1];
      image := image[address + i := bytes[i]];
      if bytes[i] != 0xFF {
        last := address + i;
      }
    }
    assert bytes[..|bytes|] == bytes;
  }

  /** Delete the addresses above the last byte other than 0xFF. */
  method Trim(data: Image, trailing: nat) returns (image: Image)
    ensures image == map a | a in data && a <= trailing :: data[a]
  {
    image := data;
    var keys := data.Keys;
    while keys != {}
      invariant keys <= data.Keys
      invariant forall a :: a in image <==> a in data && (a in keys || a <= trailing)
      invariant forall a | a in image :: image[a] == data[a]
      decreases |keys|
    {
      var key :| key in keys;
      keys := keys - {key};
      if key > trailing {
        image := image - {key};
      }
    }
  }

  method HexLoad(lines: seq<string>) returns (r: Result<Image, LoadError>)
    ensures r == Loaded(lines)
  {
    hide Chunks, Base, Flat, Trailing, Kept, Linked, EndOf, ParseLine, Block, Prepend;
    ghost var rs := Records(lines);
    var data: Image := map[];
    var prefix: nat, next: nat, trailing: nat := 0, 0, 0;
    var k := 0;
    ghost var done: seq<Chunk> := [];
    StartLoading(rs);
    while k < |lines|
      invariant k <= |lines|
      invariant Loading(rs, k, done, prefix, next, data, trailing)
    {
      var record := ParseLine(lines[k]);
      match record {
        case Malformed =>
          LoadMalformed(rs, k, done, prefix, next, data, trailing);
          return Err(MalformedLine);
        case Ignored =>
          LoadOther(rs, k, done, prefix, next, data, trailing);
        case Extended(p) =>
          LoadOther(rs, k, done, prefix, next, data, trailing);
          prefix := p;
        case Data(offset, payload) =>
          var address := prefix + offset;
          if next != address && next != 0 {
            LoadGap(rs, k, done, prefix, next, data, trailing);
            break;
          }
          if payload.None? {
            LoadMalformed(rs, k, done, prefix, next, data, trailing);
            return Err(MalformedLine);
          }
          LoadData(rs, k, done, prefix, next, data, trailing);
          ghost var base := Base(done + [Chunk(address, payload.value)]);
          data, trailing := CopyBytes(data, trailing, address, payload.value, base, Flat(done));
          done := done + [Chunk(address, payload.value)];
          next := address + |payload.value|;
      }
      k := k + 1;
    }
    if k == |lines| {
      LoadEnd(rs, k, done, prefix, next, data, trailing);
    }
    data := Trim(data, trailing);
    TrimIsKept(Base(done), Flat(done), data);
    r := Ok(data);
  }

  lemma StartLoading(rs: seq<Record>)
    ensures Loading(rs, 0, [], 0, 0, map[], 0)
  {
    assert rs[0..] == rs;
    var cs := Chunks(rs, 0, 0);
    assert cs.Some? ==> [] + cs.value == cs.value;
  }

  lemma LoadOther(rs: seq<Record>, k: nat, done: seq<Chunk>, prefix: nat, next: nat, data: Image, trailing: nat)
    requires Loading(rs, k, done, prefix, next, data, trailing) && k < |rs| && (rs[k].Ignored? || rs[k].Extended?)
    ensures Loading(rs, k + 1, done, if rs[k].Extended? then rs[k].prefix else prefix, next, data, trailing)
  {
    NextRecord(rs, k);
  }

  lemma LoadMalformed(rs: seq<Record>, k: nat, done: seq<Chunk>, prefix: nat, next: nat, data: Image, trailing: nat)
    requires Loading(rs, k, done, prefix, next, data, trailing) && k < |rs|
    requires rs[k].Malformed? ||
             (rs[k].Data? && rs[k].payload.None? && (next == 0 || next == prefix + rs[k].offset))
    ensures Chunks(rs, 0, 0) == None
  {
    NextRecord(rs, k);
  }

  lemma LoadGap(rs: seq<Record>, k: nat, done: seq<Chunk>, prefix: nat, next: nat, data: Image, trailing: nat)
    requires Loading(rs, k, done, prefix, next, data, trailing) && k < |rs|
    requires rs[k].Data? && next != prefix + rs[k].offset && next != 0
    ensures Chunks(rs, 0, 0) == Some(done)
  {
    NextRecord(rs, k);
    assert done + [] == done;
  }

  lemma LoadEnd(rs: seq<Record>, k: nat, done: seq<Chunk>, prefix: nat, next: nat, data: Image, trailing: nat)
    requires Loading(rs, k, done, prefix, next, data, trailing) && k == |rs|
    ensures Chunks(rs, 0, 0) == Some(done)
  {
    assert done + [] == done;
  }

  lemma LoadData(rs: seq<Record>, k: nat, done: seq<Chunk>, prefix: nat, next: nat, data: Image, trailing: nat)
    requires Loading(rs, k, done, prefix, next, data, trailing) && k < |rs|
    requires rs[k].Data? && rs[k].payload.Some? && (next == 0 || next == prefix + rs[k].offset)
    ensures var c := Chunk(prefix + rs[k].offset, rs[k].payload.value); var cs := done + [c];
      && Chunks(rs, 0, 0) == Prepend(cs, Chunks(rs[k + 1..], prefix, c.End()))
      && Linked(cs) && EndOf(cs) == c.End() && Flat(cs) == Flat(done) + c.bytes
      && data == Block(Base(cs), Flat(done)) && trailing == Trailing(Base(cs), Flat(done))
      && (c.bytes != [] ==> c.address == Base(cs) + |Flat(done)|)
  {
    var c := Chunk(prefix + rs[k].offset, rs[k].payload.value);
    NextRecord(rs, k);
    PrependSnoc(done, c, Chunks(rs[k + 1..], prefix, c.End()));
    hide Chunks, Linked, Flat, EndOf, Base, Prepend;
    SnocChunk(done, c);
  }
}
