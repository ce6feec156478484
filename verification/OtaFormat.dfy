/** Files by the rules of the Intel Hexadecimal Object File Format Specification, and exactly when
    the loader makes of a file what the format says. */
module OtaFormat {
  import opened Options
  import opened Bytes
  import opened HexText
  import opened OtaImage

  // ---- What a file writes

  /** The address mode, from the last extended address record. */
  datatype Mode = SegmentBase(base: nat) | LinearBase(base: nat)

  predicate ModeOk(mode: Mode) {
    mode.LinearBase? ==> mode.base <= 0xFFFF_0000
  }

  /** Where the i-th byte of a data record goes: section "Data Record" of the specification. A
      record wraps at the end of its segment, or of the 4 GB of linear addresses. */
  function Address(mode: Mode, offset: nat, i: nat): nat {
    match mode
    case SegmentBase(sba) => sba + (offset + i) % 0x1_0000
    case LinearBase(lba) => (lba + offset + i) % 0x1_0000_0000
  }

  /** The writes of a data record, in order. */
  function RecordWrites(mode: Mode, offset: nat, bytes: seq<Byte>): seq<(nat, Byte)> {
    seq(|bytes|, i requires 0 <= i < |bytes| => (Address(mode, offset, i), bytes[i]))
  }

  function Next(mode: Mode, r: Source): Mode {
    match r
    case Segment(v) => SegmentBase(v * 0x10)
    case Linear(v) => LinearBase(v * 0x1_0000)
    case _ => mode
  }

  /** The writes of a file, up to its end-of-file record. */
  function Writes(rs: seq<Source>, mode: Mode): seq<(nat, Byte)> {
    if rs == [] || rs[0].EndOfFile? then []
    else (if rs[0].Bytes? then RecordWrites(mode, rs[0].offset, rs[0].bytes) else [])
         + Writes(rs[1..], Next(mode, rs[0]))
  }

  /** Writing `bytes` from `at` upwards. */
  function Ascending(at: nat, bytes: seq<Byte>): seq<(nat, Byte)> {
    seq(|bytes|, i requires 0 <= i < |bytes| => (at + i, bytes[i]))
  }

  predicate SourcesOk(rs: seq<Source>) {
    forall i | 0 <= i < |rs| :: SourceOk(rs[i])
  }

  function Texts(rs: seq<Source>): seq<string>
    requires SourcesOk(rs)
  {
    seq(|rs|, i requires 0 <= i < |rs| => Text(rs[i]))
  }

  function Meanings(rs: seq<Source>): seq<Record> {
    seq(|rs|, i requires 0 <= i < |rs| => Meaning(rs[i]))
  }

  /** The loader adds base, offset and index, which is what the format says exactly when the record
      stays inside its segment or the linear addresses. */
  lemma AddressingAgrees(mode: Mode, offset: nat, length: nat)
    requires ModeOk(mode) && offset < 0x1_0000 && 0 < length
    ensures (forall i: nat | i < length :: Address(mode, offset, i) == mode.base + offset + i)
       <==> offset + length <= (if mode.SegmentBase? then 0x1_0000 else 0x1_0000_0000 - mode.base)
  {
    var last := length - 1;
    assert Address(mode, offset, last) == mode.base + offset + last ==>
        offset + last < (if mode.SegmentBase? then 0x1_0000 else 0x1_0000_0000 - mode.base);
  }

  // ---- What the loader reads

  /** A data record, with data or without, that starts elsewhere than the one before it ended; any
      start will do behind an end at address 0. */
  predicate IsGap(mode: Mode, offset: nat, next: nat) {
    next != 0 && mode.base + offset != next
  }

  /** The data up to the first gap. The loader does not stop at an end-of-file record. */
  function Intact(rs: seq<Source>, mode: Mode, next: nat): seq<Byte> {
    if rs == [] then []
    else if !rs[0].Bytes? then Intact(rs[1..], Next(mode, rs[0]), next)
    else if IsGap(mode, rs[0].offset, next) then []
    else rs[0].bytes + Intact(rs[1..], mode, mode.base + rs[0].offset + |rs[0].bytes|)
  }

  /** Where the first byte of the file goes. */
  function FirstByte(rs: seq<Source>, mode: Mode): nat {
    if rs == [] then 0
    else if rs[0].Bytes? && rs[0].bytes != [] then mode.base + rs[0].offset
    else FirstByte(rs[1..], Next(mode, rs[0]))
  }

  lemma {:induction false} FlatCons(c: Chunk, cs: seq<Chunk>)
    ensures Flat([c] + cs) == c.bytes + Flat(cs)
  {
    var all := [c] + cs;
    if cs == [] {
      assert all == [c] && all[..0] == [];
    } else {
      assert all[..|all| - 1] == [c] + cs[..|cs| - 1];
      FlatCons(c, cs[..|cs| - 1]);
    }
  }

  lemma {:induction false} BaseCons(c: Chunk, cs: seq<Chunk>)
    requires Flat([c] + cs) != []
    ensures Base([c] + cs) == if c.bytes != [] then c.address else Base(cs)
  {
    var all := [c] + cs;
    if cs == [] {
      assert all == [c] && all[..0] == [];
    } else {
      var init := cs[..|cs| - 1];
      assert all[..|all| - 1] == [c] + init;
      FlatCons(c, init);
      if Flat([c] + init) != [] {
        BaseCons(c, init);
      }
    }
  }

  lemma FirstChunk(rs: seq<Source>, mode: Mode, next: nat, tail: seq<Chunk>)
    requires rs != [] && rs[0].Bytes? && !IsGap(mode, rs[0].offset, next)
    requires var r := rs[0]; Chunks(Meanings(rs[1..]), mode.base, mode.base + r.offset + |r.bytes|) == Some(tail)
    ensures Chunks(Meanings(rs), mode.base, next) == Some([Chunk(mode.base + rs[0].offset, rs[0].bytes)] + tail)
  {
    assert Meanings(rs)[1..] == Meanings(rs[1..]);
  }

  lemma OtherChunk(rs: seq<Source>, mode: Mode, next: nat)
    requires rs != [] && !rs[0].Bytes?
    ensures Chunks(Meanings(rs), mode.base, next) == Chunks(Meanings(rs[1..]), Next(mode, rs[0]).base, next)
  {
    assert Meanings(rs)[1..] == Meanings(rs[1..]);
  }

  lemma ConsChunk(c: Chunk, tail: seq<Chunk>, rest: seq<Byte>, first: nat)
    requires Flat(tail) == rest && (rest != [] ==> Base(tail) == first)
    ensures Flat([c] + tail) == c.bytes + rest
    ensures c.bytes + rest != [] ==> Base([c] + tail) == if c.bytes != [] then c.address else first
  {
    hide Flat, Base;
    FlatCons(c, tail);
    if c.bytes + rest != [] {
      BaseCons(c, tail);
    }
  }

  /** The chunks of a printed file. */
  lemma {:induction false} PrintedChunks(rs: seq<Source>, mode: Mode, next: nat) returns (cs: seq<Chunk>)
    ensures Chunks(Meanings(rs), mode.base, next) == Some(cs)
    ensures Flat(cs) == Intact(rs, mode, next)
    ensures Intact(rs, mode, next) != [] ==> Base(cs) == FirstByte(rs, mode)
    decreases |rs|
  {
    cs := [];
    if rs == [] {
    } else if !rs[0].Bytes? {
      hide Chunks, Meanings, Flat, Base;
      OtherChunk(rs, mode, next);
      cs := PrintedChunks(rs[1..], Next(mode, rs[0]), next);
    } else if IsGap(mode, rs[0].offset, next) {
      NoChunks(rs, mode, next);
    } else {
      hide Chunks, Meanings, Flat, Base;
      var c := Chunk(mode.base + rs[0].offset, rs[0].bytes);
      var tail := PrintedChunks(rs[1..], mode, c.End());
      FirstChunk(rs, mode, next, tail);
      ConsChunk(c, tail, Intact(rs[1..], mode, c.End()), FirstByte(rs[1..], mode));
      cs := [c] + tail;
    }
  }

  lemma NoChunks(rs: seq<Source>, mode: Mode, next: nat)
    requires rs != [] && rs[0].Bytes? && IsGap(mode, rs[0].offset, next)
    ensures Chunks(Meanings(rs), mode.base, next) == Some([]) && Flat([]) == []
  {
  }

  lemma TextsMean(rs: seq<Source>)
    requires SourcesOk(rs)
    ensures Records(Texts(rs)) == Meanings(rs)
  {
    hide ParseLine, Text, Meaning;
    forall i | 0 <= i < |rs| ensures Records(Texts(rs))[i] == Meanings(rs)[i] {
      ReadsWhatIsPrinted(rs[i]);
    }
  }

  /** Loading the text of any file. */
  lemma LoadsIntact(rs: seq<Source>)
    requires SourcesOk(rs)
    ensures var read := Intact(rs, LinearBase(0), 0); var first := FirstByte(rs, LinearBase(0));
      Loaded(Texts(rs)) == Ok(Block(first, Kept(first, read)))
  {
    hide Intact, FirstByte, Texts, Meanings, Chunks, Flat, Base;
    TextsMean(rs);
    var cs := PrintedChunks(rs, LinearBase(0), 0);
    var first := FirstByte(rs, LinearBase(0));
    if Flat(cs) == [] {
      assert Block(Base(cs), Kept(Base(cs), [])) == map[] == Block(first, Kept(first, []));
    }
  }

  // ---- The trailing bytes

  predicate Blank(bs: seq<Byte>) {
    forall i | 0 <= i < |bs| :: bs[i] == 0xFF
  }

  /** What `Kept` promises settles it. */
  lemma KeptUnique(base: nat, flat: seq<Byte>, kept: seq<Byte>)
    requires kept <= flat && forall i | |kept| <= i < |flat| :: flat[i] == 0xFF
    requires kept == [] || kept[|kept| - 1] != 0xFF || (base == 0 && kept == flat[..1])
    requires base == 0 && flat != [] ==> kept != []
    ensures kept == Kept(base, flat)
  {
    var k := Kept(base, flat);
    hide Kept;
    assert |kept| == |k|;
  }

  /** More bytes change nothing exactly when they are all 0xFF and do not bring in address 0. */
  lemma KeptExtend(base: nat, a: seq<Byte>, b: seq<Byte>)
    ensures Kept(base, a + b) == Kept(base, a) <==> Blank(b) && (base == 0 && a == [] ==> b == [])
  {
    var k, all := Kept(base, a), Kept(base, a + b);
    hide Kept;
    if Blank(b) && (base == 0 && a == [] ==> b == []) {
      forall i | |k| <= i < |a + b| ensures (a + b)[i] == 0xFF {
        assert i < |a| ==> (a + b)[i] == a[i];
      }
      KeptUnique(base, a + b, k);
    } else if !Blank(b) {
      var i :| 0 <= i < |b| && b[i] != 0xFF;
      assert (a + b)[|a| + i] != 0xFF;
    }
  }

  lemma BlockSize(base: nat, a: seq<Byte>, b: seq<Byte>)
    requires Block(base, a) == Block(base, b)
    ensures |a| == |b|
  {
    BlockAt(base, a, base + |a|);
    BlockAt(base, b, base + |a|);
    BlockAt(base, a, base + |b|);
    BlockAt(base, b, base + |b|);
  }

  lemma BlockKept(base: nat, a: seq<Byte>, b: seq<Byte>)
    requires a <= b
    ensures Block(base, Kept(base, a)) == Block(base, Kept(base, b)) <==> Kept(base, a) == Kept(base, b)
  {
    var j, k := Kept(base, a), Kept(base, b);
    hide Kept, Block;
    if Block(base, j) == Block(base, k) {
      BlockSize(base, j, k);
    }
  }

  // ---- When a file loads as the format says

  /** The data up to the first gap or the end-of-file record. */
  function Read(rs: seq<Source>, mode: Mode, next: nat): seq<Byte> {
    if rs == [] || rs[0].EndOfFile? then []
    else if !rs[0].Bytes? then Read(rs[1..], Next(mode, rs[0]), next)
    else if IsGap(mode, rs[0].offset, next) then []
    else rs[0].bytes + Read(rs[1..], mode, mode.base + rs[0].offset + |rs[0].bytes|)
  }

  /** The data behind the end-of-file record that follow on the data before it. */
  function Over(rs: seq<Source>, mode: Mode, next: nat): seq<Byte> {
    if rs == [] then []
    else if rs[0].EndOfFile? then Intact(rs[1..], mode, next)
    else if !rs[0].Bytes? then Over(rs[1..], Next(mode, rs[0]), next)
    else if IsGap(mode, rs[0].offset, next) then []
    else Over(rs[1..], mode, mode.base + rs[0].offset + |rs[0].bytes|)
  }

  lemma {:induction false} IntactIs(rs: seq<Source>, mode: Mode, next: nat)
    ensures Intact(rs, mode, next) == Read(rs, mode, next) + Over(rs, mode, next)
  {
    if rs != [] && !rs[0].EndOfFile? {
      if !rs[0].Bytes? {
        IntactIs(rs[1..], Next(mode, rs[0]), next);
      } else if !IsGap(mode, rs[0].offset, next) {
        IntactIs(rs[1..], mode, mode.base + rs[0].offset + |rs[0].bytes|);
      }
    }
  }

  /** The rest of a file in a mode, which writes `bytes` from `at` upwards. */
  ghost predicate Printing(rs: seq<Source>, mode: Mode, at: nat, bytes: seq<Byte>) {
    ModeOk(mode) && SourcesOk(rs) && Writes(rs, mode) == Ascending(at, bytes)
  }

  /** An address record only changes the mode. */
  lemma AddressRecord(rs: seq<Source>, mode: Mode, at: nat, bytes: seq<Byte>)
    requires Printing(rs, mode, at, bytes) && rs != [] && (rs[0].Segment? || rs[0].Linear?)
    ensures Printing(rs[1..], Next(mode, rs[0]), at, bytes)
  {
    hide Ascending;
    assert SourceOk(rs[0]);
    assert Writes(rs, mode) == [] + Writes(rs[1..], Next(mode, rs[0]));
  }

  lemma SplitWrites(run: seq<(nat, Byte)>, first: seq<(nat, Byte)>, rest: seq<(nat, Byte)>, at: nat, bytes: seq<Byte>)
    requires run == Ascending(at, bytes) == first + rest
    ensures |first| <= |bytes| && first == Ascending(at, bytes[..|first|])
    ensures rest == Ascending(at + |first|, bytes[|first|..])
  {
    assert |run| == |bytes|;
    assert first == run[..|first|] && rest == run[|first|..];
  }

  lemma SameWrites(mode: Mode, offset: nat, data: seq<Byte>, at: nat, bytes: seq<Byte>)
    requires ModeOk(mode) && offset < 0x1_0000 && RecordWrites(mode, offset, data) == Ascending(at, bytes)
    ensures data == bytes && (data != [] ==> mode.base + offset == at)
  {
    var ws := RecordWrites(mode, offset, data);
    assert |ws| == |data| && |ws| == |bytes|;
    forall i | 0 <= i < |data| ensures data[i] == bytes[i] {
      assert ws[i].1 == data[i] && ws[i].1 == bytes[i];
    }
    if data != [] {
      assert ws[0].0 == Address(mode, offset, 0) && ws[0].0 == at;
    }
  }

  /** A data record writes the first of the bytes, where the loader puts them. */
  lemma DataRecord(rs: seq<Source>, mode: Mode, at: nat, bytes: seq<Byte>)
    requires Printing(rs, mode, at, bytes) && rs != [] && rs[0].Bytes?
    ensures var n := |rs[0].bytes|;
      && n <= |bytes| && rs[0].bytes == bytes[..n] && (n > 0 ==> mode.base + rs[0].offset == at)
      && Printing(rs[1..], mode, at + n, bytes[n..])
  {
    hide Ascending, RecordWrites;
    assert SourceOk(rs[0]);
    var n, offset := |rs[0].bytes|, rs[0].offset;
    var first, rest := RecordWrites(mode, offset, rs[0].bytes), Writes(rs[1..], mode);
    assert |first| == n by { RecordLength(mode, offset, rs[0].bytes); }
    SplitWrites(Writes(rs, mode), first, rest, at, bytes);
    SameWrites(mode, offset, rs[0].bytes, at, bytes[..n]);
  }

  lemma RecordLength(mode: Mode, offset: nat, bytes: seq<Byte>)
    ensures |RecordWrites(mode, offset, bytes)| == |bytes|
  {
  }

  lemma NothingPrinted(rs: seq<Source>, mode: Mode, at: nat, bytes: seq<Byte>)
    requires Printing(rs, mode, at, bytes) && (rs == [] || rs[0].EndOfFile?)
    ensures bytes == []
  {
    assert |Ascending(at, bytes)| == |bytes|;
  }

  /** What is read is the front of what is written, all of it when data behind the end-of-file
      record are read too. */
  lemma {:induction false} ReadIsPrefix(rs: seq<Source>, mode: Mode, at: nat, bytes: seq<Byte>, next: nat)
    requires Printing(rs, mode, at, bytes)
    ensures Read(rs, mode, next) <= bytes
    ensures Over(rs, mode, next) != [] ==> Read(rs, mode, next) == bytes
    ensures bytes != [] ==> FirstByte(rs, mode) == at
    decreases |rs|
  {
    hide Printing, Intact, Next;
    if rs == [] || rs[0].EndOfFile? {
      NothingPrinted(rs, mode, at, bytes);
    } else if rs[0].Bytes? {
      DataRecord(rs, mode, at, bytes);
      var n := |rs[0].bytes|;
      ReadIsPrefix(rs[1..], mode, at + n, bytes[n..], mode.base + rs[0].offset + n);
      assert rs[0].bytes + bytes[n..] == bytes;
      assert Next(mode, rs[0]) == mode by { SameMode(mode, rs[0]); }
    } else {
      AddressRecord(rs, mode, at, bytes);
      ReadIsPrefix(rs[1..], Next(mode, rs[0]), at, bytes, next);
    }
  }

  lemma SameMode(mode: Mode, r: Source)
    requires r.Bytes?
    ensures Next(mode, r) == mode
  {
  }

  /** The data behind the first gap are all 0xFF, and so are the data behind the end-of-file record
      that follow on; and neither decides whether a blank image has its byte at address 0. */
  predicate Harmless(first: nat, read: seq<Byte>, over: seq<Byte>, bytes: seq<Byte>)
    requires read <= bytes
  {
    && Blank(bytes[|read|..]) && Blank(over)
    && (first == 0 && read == [] ==> bytes == [] && over == [])
  }

  /** When a file that writes `bytes` from `base` upwards, in any records and any address modes, is
      loaded as that image without its trailing 0xFF bytes: exactly if what is not read, and what is
      read beyond the end of the file, is harmless. */
  lemma ImageLoadsExactlyWhen(rs: seq<Source>, base: nat, bytes: seq<Byte>)
    requires SourcesOk(rs) && Writes(rs, LinearBase(0)) == Ascending(base, bytes)
    ensures var read, over := Read(rs, LinearBase(0), 0), Over(rs, LinearBase(0), 0);
      && read <= bytes
      && (Loaded(Texts(rs)) == Ok(Block(base, Kept(base, bytes))) <==>
            Harmless(FirstByte(rs, LinearBase(0)), read, over, bytes))
  {
    var mode := LinearBase(0);
    assert Printing(rs, mode, base, bytes);
    hide Printing, Writes, Ascending, Texts, Loaded, Intact, Read, Over, FirstByte, Block, Kept, Harmless;
    LoadsIntact(rs);
    IntactIs(rs, mode, 0);
    ReadIsPrefix(rs, mode, base, bytes, 0);
    SameImage(base, FirstByte(rs, mode), Read(rs, mode, 0), Over(rs, mode, 0), bytes);
  }

  lemma SameImage(base: nat, first: nat, read: seq<Byte>, over: seq<Byte>, bytes: seq<Byte>)
    requires read <= bytes && (over != [] ==> read == bytes) && (bytes != [] ==> first == base)
    ensures Block(first, Kept(first, read + over)) == Block(base, Kept(base, bytes)) <==>
              Harmless(first, read, over, bytes)
  {
    if over == [] {
      assert read + over == read;
      NoMore(base, first, read, bytes);
    } else {
      assert bytes[|read|..] == [];
      More(base, first, bytes, over);
    }
  }

  lemma NoMore(base: nat, first: nat, read: seq<Byte>, bytes: seq<Byte>)
    requires read <= bytes && (bytes != [] ==> first == base)
    ensures Block(first, Kept(first, read)) == Block(base, Kept(base, bytes)) <==>
              Blank(bytes[|read|..]) && (first == 0 && read == [] ==> bytes == [])
  {
    assert read + bytes[|read|..] == bytes;
    if bytes == [] {
      assert Block(first, Kept(first, [])) == map[] == Block(base, Kept(base, []));
    } else {
      BlockKept(base, read, bytes);
      KeptExtend(base, read, bytes[|read|..]);
    }
  }

  lemma More(base: nat, first: nat, bytes: seq<Byte>, over: seq<Byte>)
    requires bytes != [] ==> first == base
    ensures Block(first, Kept(first, bytes + over)) == Block(base, Kept(base, bytes)) <==>
              Blank(over) && (first == 0 && bytes == [] ==> over == [])
  {
    BlockKept(first, bytes, bytes + over);
    KeptExtend(first, bytes, over);
    if bytes == [] {
      assert Block(first, Kept(first, [])) == map[] == Block(base, Kept(base, []));
    }
  }

  // ---- When any file loads as the format says

  /** The flash contents after some writes. */
  function FlashOf(ws: seq<(nat, Byte)>, a: nat): Byte {
    if ws == [] then 0xFF
    else if ws[|ws| - 1].0 == a then ws[|ws| - 1].1
    else FlashOf(ws[..|ws| - 1], a)
  }

  /** No address is written twice. */
  ghost predicate Once(ws: seq<(nat, Byte)>) {
    forall i, j | 0 <= i < j < |ws| :: ws[i].0 != ws[j].0
  }

  lemma {:induction false} FlashAt(ws: seq<(nat, Byte)>, i: nat)
    requires Once(ws) && i < |ws|
    ensures FlashOf(ws, ws[i].0) == ws[i].1
  {
    if i < |ws| - 1 {
      assert ws[..|ws| - 1][i] == ws[i];
      FlashAt(ws[..|ws| - 1], i);
    }
  }

  lemma {:induction false} FlashElsewhere(ws: seq<(nat, Byte)>, a: nat)
    ensures FlashOf(ws, a) == 0xFF || exists i :: 0 <= i < |ws| && ws[i].0 == a
  {
    if ws != [] {
      var init := ws[..|ws| - 1];
      FlashElsewhere(init, a);
      if i :| 0 <= i < |init| && init[i].0 == a {
        assert ws[i].0 == a;
      }
    }
  }

  /** The byte is read, and goes where the format puts it: a byte behind the first gap is not read,
      and one that wraps is put beyond the end of its segment instead. */
  predicate InPlace(ws: seq<(nat, Byte)>, read: nat, first: nat, i: nat)
    requires i < |ws|
  {
    i < read && ws[i].0 == first + i
  }

  ghost predicate OthersBlank(ws: seq<(nat, Byte)>, read: nat, first: nat) {
    forall i | 0 <= i < |ws| :: InPlace(ws, read, first, i) || ws[i].1 == 0xFF
  }

  /** What is read are the first bytes of the writes, in order; and the format puts none of them
      higher than the loader. */
  ghost predicate ReadOf(ws: seq<(nat, Byte)>, read: seq<Byte>, first: nat) {
    && |read| <= |ws|
    && forall i | 0 <= i < |read| :: ws[i].1 == read[i] && ws[i].0 <= first + i
  }

  lemma RecordBelow(mode: Mode, offset: nat, bytes: seq<Byte>)
    ensures ReadOf(RecordWrites(mode, offset, bytes), bytes, mode.base + offset)
  {
  }

  lemma ReadOfConcat(front: seq<(nat, Byte)>, a: seq<Byte>, first: nat, back: seq<(nat, Byte)>, b: seq<Byte>)
    requires ReadOf(front, a, first) && |front| == |a| && ReadOf(back, b, first + |a|)
    ensures ReadOf(front + back, a + b, first)
  {
  }

  /** Data that are read behind an end other than at address 0 start there. */
  lemma {:induction false} ReadStarts(rs: seq<Source>, mode: Mode, next: nat)
    requires next != 0 && Intact(rs, mode, next) != []
    ensures FirstByte(rs, mode) == next
    decreases |rs|
  {
    if !rs[0].Bytes? {
      ReadStarts(rs[1..], Next(mode, rs[0]), next);
    } else if rs[0].bytes == [] {
      ReadStarts(rs[1..], mode, mode.base + rs[0].offset);
    }
  }

  lemma {:induction false} ReadIsFront(rs: seq<Source>, mode: Mode, next: nat)
    ensures ReadOf(Writes(rs, mode), Read(rs, mode, next), FirstByte(rs, mode))
    ensures Over(rs, mode, next) != [] ==> |Read(rs, mode, next)| == |Writes(rs, mode)|
    decreases |rs|
  {
    if rs == [] || rs[0].EndOfFile? {
    } else if !rs[0].Bytes? {
      hide RecordWrites;
      assert Writes(rs, mode) == [] + Writes(rs[1..], Next(mode, rs[0]));
      ReadIsFront(rs[1..], Next(mode, rs[0]), next);
    } else if !IsGap(mode, rs[0].offset, next) {
      ReadRecord(rs, mode, next);
    }
  }

  lemma ReadRecord(rs: seq<Source>, mode: Mode, next: nat)
    requires rs != [] && rs[0].Bytes? && !IsGap(mode, rs[0].offset, next)
    ensures ReadOf(Writes(rs, mode), Read(rs, mode, next), FirstByte(rs, mode))
    ensures Over(rs, mode, next) != [] ==> |Read(rs, mode, next)| == |Writes(rs, mode)|
    decreases |rs|, 0
  {
    var start, data := mode.base + rs[0].offset, rs[0].bytes;
    var end := start + |data|;
    var front, back, b := RecordWrites(mode, rs[0].offset, data), Writes(rs[1..], mode), Read(rs[1..], mode, end);
    assert Next(mode, rs[0]) == mode by { SameMode(mode, rs[0]); }
    assert |front| == |data| && ReadOf(front, data, start) by {
      RecordBelow(mode, rs[0].offset, data);
      RecordLength(mode, rs[0].offset, data);
    }
    ReadIsFront(rs[1..], mode, end);
    assert b != [] && data != [] ==> FirstByte(rs[1..], mode) == end by {
      IntactIs(rs[1..], mode, end);
      if b != [] && data != [] { ReadStarts(rs[1..], mode, end); }
    }
    hide RecordWrites, Intact;
    assert Writes(rs, mode) == front + back && Read(rs, mode, next) == data + b;
    assert Over(rs, mode, next) == Over(rs[1..], mode, end);
    assert FirstByte(rs, mode) == if data == [] then FirstByte(rs[1..], mode) else start;
    hide Writes, Read, Over, FirstByte;
    if data == [] {
      assert front + back == back && data + b == b;
    } else {
      assert ReadOf(back, b, end);
      ReadOfConcat(front, data, start, back, b);
    }
  }

  lemma KeptContent(first: nat, bytes: seq<Byte>, a: nat)
    ensures Content(Block(first, Kept(first, bytes)), a) ==
              if first <= a < first + |bytes| then bytes[a - first] else 0xFF
  {
    BlockAt(first, Kept(first, bytes), a);
  }

  /** What the loader has at an address. */
  function LoaderAt(first: nat, read: seq<Byte>, over: seq<Byte>, a: nat): Byte {
    if first <= a < first + |read + over| then (read + over)[a - first] else 0xFF
  }

  /** If the loader has what the format writes, a byte that is not in place is 0xFF: it is so where the
      loader has nothing at its address, and otherwise the byte the loader has there is not in place
      either, and the format puts that one lower. */
  lemma {:induction false} StraysAreBlank(ws: seq<(nat, Byte)>, first: nat, read: seq<Byte>, over: seq<Byte>, i: nat)
    requires Once(ws) && ReadOf(ws, read, first) && (over != [] ==> |read| == |ws|)
    requires forall a: nat :: LoaderAt(first, read, over, a) == FlashOf(ws, a)
    requires i < |ws| && !InPlace(ws, |read|, first, i)
    ensures ws[i].1 == 0xFF
    decreases ws[i].0
  {
    var a := ws[i].0;
    FlashAt(ws, i);
    assert LoaderAt(first, read, over, a) == ws[i].1;
    if first <= a < first + |read| {
      var j := a - first;
      assert (read + over)[j] == read[j] == ws[j].1;
      if ws[j].0 < a {
        StraysAreBlank(ws, first, read, over, j);
      }
    }
  }

  lemma BlankLoads(ws: seq<(nat, Byte)>, first: nat, read: seq<Byte>, over: seq<Byte>, a: nat)
    requires Once(ws) && ReadOf(ws, read, first) && Blank(over)
    requires OthersBlank(ws, |read|, first)
    ensures LoaderAt(first, read, over, a) == FlashOf(ws, a)
  {
    FlashElsewhere(ws, a);
    if i :| 0 <= i < |ws| && ws[i].0 == a {
      FlashAt(ws, i);
    }
    if first <= a < first + |read| {
      assert InPlace(ws, |read|, first, a - first) || ws[a - first].1 == 0xFF;
    }
  }

  lemma OverIsBlank(ws: seq<(nat, Byte)>, first: nat, read: seq<Byte>, over: seq<Byte>)
    requires ReadOf(ws, read, first) && (over != [] ==> |read| == |ws|)
    requires forall a: nat :: LoaderAt(first, read, over, a) == FlashOf(ws, a)
    ensures Blank(over)
  {
    forall k | 0 <= k < |over| ensures over[k] == 0xFF {
      var a := first + |read| + k;
      assert LoaderAt(first, read, over, a) == (read + over)[|read| + k] == over[k];
      FlashElsewhere(ws, a);
    }
  }

  lemma SameFlash(ws: seq<(nat, Byte)>, first: nat, read: seq<Byte>, over: seq<Byte>)
    requires Once(ws) && ReadOf(ws, read, first) && (over != [] ==> |read| == |ws|)
    ensures (forall a: nat :: LoaderAt(first, read, over, a) == FlashOf(ws, a)) <==>
              Blank(over) && OthersBlank(ws, |read|, first)
  {
    hide Once, ReadOf, Blank, LoaderAt, FlashOf;
    if forall a: nat :: LoaderAt(first, read, over, a) == FlashOf(ws, a) {
      OverIsBlank(ws, first, read, over);
      forall i | 0 <= i < |ws| && !InPlace(ws, |read|, first, i) ensures ws[i].1 == 0xFF {
        StraysAreBlank(ws, first, read, over, i);
      }
    }
    if Blank(over) && OthersBlank(ws, |read|, first) {
      forall a: nat ensures LoaderAt(first, read, over, a) == FlashOf(ws, a) {
        BlankLoads(ws, first, read, over, a);
      }
    }
  }

  /** The flash that is loaded is the flash that is written. */
  ghost predicate LoadsAs(rs: seq<Source>, ws: seq<(nat, Byte)>)
    requires SourcesOk(rs)
  {
    Loaded(Texts(rs)).Ok? && forall a: nat :: Content(Loaded(Texts(rs)).value, a) == FlashOf(ws, a)
  }

  lemma LoadedContent(rs: seq<Source>, a: nat)
    requires SourcesOk(rs)
    ensures var mode := LinearBase(0);
      && Loaded(Texts(rs)).Ok?
      && Content(Loaded(Texts(rs)).value, a) ==
           LoaderAt(FirstByte(rs, mode), Read(rs, mode, 0), Over(rs, mode, 0), a)
  {
    hide FirstByte, Read, Over, Intact, Texts, Loaded, Content, Block, Kept;
    LoadsIntact(rs);
    IntactIs(rs, LinearBase(0), 0);
    KeptContent(FirstByte(rs, LinearBase(0)), Intact(rs, LinearBase(0), 0), a);
  }

  /** A file that writes no address twice, in any order, with any gaps and any wrapping records, is
      loaded as what it writes exactly if every byte that is not read where it belongs, and every
      byte that is read beyond the end of the file, is 0xFF. */
  lemma LoadsExactlyWhen(rs: seq<Source>)
    requires SourcesOk(rs) && Once(Writes(rs, LinearBase(0)))
    ensures var ws, read := Writes(rs, LinearBase(0)), Read(rs, LinearBase(0), 0);
      LoadsAs(rs, ws) <==>
        Blank(Over(rs, LinearBase(0), 0)) && OthersBlank(ws, |read|, FirstByte(rs, LinearBase(0)))
  {
    var mode := LinearBase(0);
    var ws, first := Writes(rs, mode), FirstByte(rs, mode);
    var read, over := Read(rs, mode, 0), Over(rs, mode, 0);
    hide Writes, FirstByte, Read, Over, Texts, Loaded, Once, OthersBlank, LoaderAt, ReadOf, Content, FlashOf, Blank;
    ReadIsFront(rs, mode, 0);
    SameFlash(ws, first, read, over);
    forall a: nat
      ensures Loaded(Texts(rs)).Ok? && Content(Loaded(Texts(rs)).value, a) == LoaderAt(first, read, over, a)
    {
      LoadedContent(rs, a);
    }
    LoadedContent(rs, 0);
    assert LoadsAs(rs, ws) <==> forall a: nat :: LoaderAt(first, read, over, a) == FlashOf(ws, a) by {
      var m := Loaded(Texts(rs)).value;
      if LoadsAs(rs, ws) {
        forall a: nat ensures LoaderAt(first, read, over, a) == FlashOf(ws, a) {
          assert Content(m, a) == FlashOf(ws, a);
        }
      }
    }
  }

  // ---- Files without gaps

  /** Every data record has data, and nothing follows the end-of-file record. */
  predicate Plain(rs: seq<Source>) {
    forall i | 0 <= i < |rs| :: (rs[i].Bytes? ==> rs[i].bytes != []) && (rs[i].EndOfFile? ==> i == |rs| - 1)
  }

  /** The file writes `bytes` from `base` upwards, in any records and any address modes. */
  predicate Describes(rs: seq<Source>, base: nat, bytes: seq<Byte>) {
    SourcesOk(rs) && Plain(rs) && Writes(rs, LinearBase(0)) == Ascending(base, bytes)
  }

  lemma {:induction false} PlainIsRead(rs: seq<Source>, mode: Mode, at: nat, bytes: seq<Byte>, next: nat)
    requires Printing(rs, mode, at, bytes) && Plain(rs) && (next == 0 || next == at)
    ensures Read(rs, mode, next) == bytes && Over(rs, mode, next) == []
    decreases |rs|
  {
    hide Printing, Next;
    if rs == [] || rs[0].EndOfFile? {
      NothingPrinted(rs, mode, at, bytes);
      assert rs != [] ==> rs[1..] == [];
    } else {
      assert Plain(rs[1..]);
      if rs[0].Bytes? {
        DataRecord(rs, mode, at, bytes);
        var n := |rs[0].bytes|;
        PlainIsRead(rs[1..], mode, at + n, bytes[n..], at + n);
        assert rs[0].bytes + bytes[n..] == bytes;
      } else {
        AddressRecord(rs, mode, at, bytes);
        PlainIsRead(rs[1..], Next(mode, rs[0]), at, bytes, next);
      }
    }
  }

  /** The round trip: loading the text of any plain file that describes an image gives the image
      without its trailing 0xFF bytes. */
  lemma PrintThenLoad(rs: seq<Source>, base: nat, bytes: seq<Byte>)
    requires Describes(rs, base, bytes)
    ensures Loaded(Texts(rs)) == Ok(Block(base, Kept(base, bytes)))
  {
    assert Printing(rs, LinearBase(0), base, bytes);
    hide Printing, Writes, Ascending, Texts, Read, Over, Plain;
    PlainIsRead(rs, LinearBase(0), base, bytes, 0);
    ImageLoadsExactlyWhen(rs, base, bytes);
  }

  /** A printer that writes records of up to `size` bytes, each behind its linear address record. */
  function Print(at: nat, bytes: seq<Byte>, size: nat): (rs: seq<Source>)
    requires at + |bytes| <= 0x1_0000_0000 && 0 < size < 0x100
    decreases |bytes|
  {
    if bytes == [] then [EndOfFile]
    else
      var n := Min(Min(size, |bytes|), 0x1_0000 - at % 0x1_0000);
      [Linear(at / 0x1_0000), Bytes(at % 0x1_0000, bytes[..n])] + Print(at + n, bytes[n..], size)
  }

  lemma AscendingAppend(at: nat, front: seq<Byte>, back: seq<Byte>)
    ensures Ascending(at, front + back) == Ascending(at, front) + Ascending(at + |front|, back)
  {
  }

  /** A data record behind its own linear address record. */
  lemma PairWrites(at: nat, data: seq<Byte>, tail: seq<Source>, mode: Mode)
    requires at < 0x1_0000_0000 && data != [] && at % 0x1_0000 + |data| <= 0x1_0000
    ensures var here := LinearBase(at / 0x1_0000 * 0x1_0000);
      var rs := [Linear(at / 0x1_0000), Bytes(at % 0x1_0000, data)] + tail;
      && Writes(rs, mode) == Ascending(at, data) + Writes(tail, here)
      && (Plain(tail) && tail != [] ==> Plain(rs))
  {
    var here := LinearBase(at / 0x1_0000 * 0x1_0000);
    var pair := Bytes(at % 0x1_0000, data);
    var rs := [Linear(at / 0x1_0000), pair] + tail;
    assert rs[1..] == [pair] + tail && ([pair] + tail)[1..] == tail;
    assert RecordWrites(here, at % 0x1_0000, data) == Ascending(at, data);
    assert Next(mode, rs[0]) == here;
    assert Writes(rs, mode) == [] + Writes(rs[1..], here);
    assert Writes([pair] + tail, here) == RecordWrites(here, at % 0x1_0000, data) + Writes(tail, here);
  }

  lemma PrintPair(at: nat, bytes: seq<Byte>, n: nat, tail: seq<Source>, mode: Mode)
    requires at < 0x1_0000_0000 && 0 < n <= |bytes| && n < 0x100 && at % 0x1_0000 + n <= 0x1_0000 && ModeOk(mode)
    requires Printing(tail, LinearBase(at / 0x1_0000 * 0x1_0000), at + n, bytes[n..]) && Plain(tail) && tail != []
    ensures var rs := [Linear(at / 0x1_0000), Bytes(at % 0x1_0000, bytes[..n])] + tail;
      Printing(rs, mode, at, bytes) && Plain(rs)
  {
    hide Writes, Plain, RecordWrites, Ascending;
    PairWrites(at, bytes[..n], tail, mode);
    AscendingAppend(at, bytes[..n], bytes[n..]);
    assert bytes[..n] + bytes[n..] == bytes;
  }

  lemma {:induction false} PrintWrites(at: nat, bytes: seq<Byte>, size: nat, mode: Mode)
    requires at + |bytes| <= 0x1_0000_0000 && 0 < size < 0x100 && ModeOk(mode)
    ensures var rs := Print(at, bytes, size); Printing(rs, mode, at, bytes) && Plain(rs) && rs != []
    decreases |bytes|
  {
    if bytes != [] {
      var n := Min(Min(size, |bytes|), 0x1_0000 - at % 0x1_0000);
      var tail := Print(at + n, bytes[n..], size);
      PrintWrites(at + n, bytes[n..], size, LinearBase(at / 0x1_0000 * 0x1_0000));
      assert Print(at, bytes, size) == [Linear(at / 0x1_0000), Bytes(at % 0x1_0000, bytes[..n])] + tail;
      PrintPair(at, bytes, n, tail, mode);
    }
  }

  /** Every image below 4 GB has a plain file of records of any size, which loads as it was. */
  lemma EveryImageLoads(base: nat, bytes: seq<Byte>, size: nat)
    requires base + |bytes| <= 0x1_0000_0000 && 0 < size < 0x100
    requires bytes != [] && bytes[|bytes| - 1] != 0xFF
    ensures var rs := Print(base, bytes, size);
      Describes(rs, base, bytes) && Loaded(Texts(rs)) == Ok(Block(base, bytes))
  {
    PrintWrites(base, bytes, size, LinearBase(0));
    hide Print, Writes, Plain, Texts;
    PrintThenLoad(Print(base, bytes, size), base, bytes);
  }

  // ---- Files that do not load as the format says

  lemma DataWrites(offset: nat, data: seq<Byte>, rest: seq<Source>)
    requires offset + |data| <= 0x1_0000
    ensures Writes([Bytes(offset, data)] + rest, LinearBase(0)) == Ascending(offset, data) + Writes(rest, LinearBase(0))
  {
    var mode := LinearBase(0);
    assert ([Bytes(offset, data)] + rest)[1..] == rest;
    assert RecordWrites(mode, offset, data) == Ascending(offset, data);
  }

  /** A record without data means nothing to the format, yet between two data records it loses the
      second one. */
  lemma EmptyRecordLosesData()
    ensures var rs := [Bytes(0, [1]), Bytes(9, []), Bytes(1, [2])];
      && SourcesOk(rs) && Writes(rs, LinearBase(0)) == Ascending(0, [1, 2])
      && Loaded(Texts(rs)) == Ok(Block(0, [1]))
  {
    var a, b, c := Bytes(0, [1]), Bytes(9, []), Bytes(1, [2]);
    var mode := LinearBase(0);
    DataWrites(0, [1], [b, c]);
    DataWrites(9, [], [c]);
    DataWrites(1, [2], []);
    assert [a] + [b, c] == [a, b, c] && [b] + [c] == [b, c] && [c] + [] == [c];
    assert Ascending(0, [1, 2]) == Ascending(0, [1]) + (Ascending(9, []) + (Ascending(1, [2]) + []));
    hide Writes, Ascending, Texts, Block, Loaded;
    assert [a, b, c][1..] == [b, c];
    assert Intact([b, c], mode, 1) == [];
    assert Intact([a, b, c], mode, 0) == [1] + [] == [1];
    LoadsIntact([a, b, c]);
    assert Kept(0, [1]) == [1];
  }

  /** The format ends a file at its end-of-file record, yet data that follow on behind it are
      loaded. */
  lemma DataBehindTheEndLoads()
    ensures var rs := [Bytes(0, [1]), EndOfFile, Bytes(1, [2])];
      && SourcesOk(rs) && Writes(rs, LinearBase(0)) == Ascending(0, [1])
      && Loaded(Texts(rs)) == Ok(Block(0, [1, 2]))
  {
    var a, c := Bytes(0, [1]), Bytes(1, [2]);
    DataWrites(0, [1], [EndOfFile, c]);
    assert [a] + [EndOfFile, c] == [a, EndOfFile, c];
    assert Writes([EndOfFile, c], LinearBase(0)) == [];
    hide Writes, Ascending, Texts, Block, Loaded;
    assert [a, EndOfFile, c][1..] == [EndOfFile, c] && [EndOfFile, c][1..] == [c] && [c][1..] == [];
    assert Intact([c], LinearBase(0), 1) == [2] + Intact([], LinearBase(0), 2);
    assert Intact([EndOfFile, c], LinearBase(0), 1) == [2];
    assert Intact([a, EndOfFile, c], LinearBase(0), 0) == [1] + [2] == [1, 2];
    LoadsIntact([a, EndOfFile, c]);
    assert Kept(0, [1, 2]) == [1, 2];
  }

  lemma WrappingWrites()
    ensures Writes([Segment(0), Bytes(0xFFFF, [1, 2]), EndOfFile], LinearBase(0)) == [(0xFFFF, 1), (0, 2)]
  {
    var b, mode := Bytes(0xFFFF, [1, 2]), SegmentBase(0);
    var rs := [Segment(0), b, EndOfFile];
    assert rs[1..] == [b, EndOfFile] && [b, EndOfFile][1..] == [EndOfFile];
    assert RecordWrites(mode, 0xFFFF, [1, 2]) == [(0xFFFF, 1), (0, 2)];
    hide RecordWrites;
    assert Writes([EndOfFile], mode) == [];
    assert Writes([b, EndOfFile], mode) == [(0xFFFF, 1), (0, 2)] + [];
    assert Writes(rs, LinearBase(0)) == [] + [(0xFFFF, 1), (0, 2)];
  }

  /** A record that wraps at the end of its segment is loaded straight on. */
  lemma WrappingRecordLoadsOn()
    ensures var rs := [Segment(0), Bytes(0xFFFF, [1, 2]), EndOfFile];
      && SourcesOk(rs) && Writes(rs, LinearBase(0)) == [(0xFFFF, 1), (0, 2)]
      && Loaded(Texts(rs)) == Ok(Block(0xFFFF, [1, 2]))
  {
    var b, rs := Bytes(0xFFFF, [1, 2]), [Segment(0), Bytes(0xFFFF, [1, 2]), EndOfFile];
    WrappingWrites();
    hide Writes, Texts, Block, Loaded;
    assert rs[1..] == [b, EndOfFile] && [b, EndOfFile][1..] == [EndOfFile] && [EndOfFile][1..] == [];
    assert Intact([EndOfFile], SegmentBase(0), 0x1_0001) == Intact([], SegmentBase(0), 0x1_0001) == [];
    assert Intact([b, EndOfFile], SegmentBase(0), 0) == [1, 2] + [] == [1, 2];
    assert Intact(rs, LinearBase(0), 0) == [1, 2] && FirstByte(rs, LinearBase(0)) == 0xFFFF;
    LoadsIntact(rs);
    assert Kept(0xFFFF, [1, 2]) == [1, 2];
  }
}
