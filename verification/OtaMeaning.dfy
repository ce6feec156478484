/** What loading an Intel HEX file preserves: the flash contents of its records. */
module OtaMeaning {
  import opened Options
  import opened Bytes
  import opened HexText
  import opened OtaImage

  // ---- The image means what the records mean

  lemma {:induction false} ChunksLinked(rs: seq<Record>, prefix: nat, next: nat, cs: seq<Chunk>)
    requires Chunks(rs, prefix, next) == Some(cs)
    ensures Linked(cs) && (cs != [] && next != 0 ==> cs[0].address == next)
  {
    if rs != [] && cs != [] {
      match rs[0]
      case Ignored => ChunksLinked(rs[1..], prefix, next, cs);
      case Extended(p) => ChunksLinked(rs[1..], p, next, cs);
      case Data(offset, payload) =>
        var c := cs[0];
        assert cs == [c] + cs[1..];
        ChunksLinked(rs[1..], prefix, c.End(), cs[1..]);
    }
  }

  ghost predicate Contiguous(m: Image) {
    exists base, bytes :: m == Block(base, bytes)
  }

  /** The last address of an image holds something other than 0xFF. */
  ghost predicate EndsInData(m: Image) {
    exists last :: last in m && m[last] != 0xFF && forall a | a in m :: a <= last
  }

  /** The image is one interval that reads, at every address, what the records up to the first gap
      read, and it ends in a byte other than 0xFF unless all of them are 0xFF. */
  lemma LoadedMeaning(lines: seq<string>, m: Image)
    requires Loaded(lines) == Ok(m)
    ensures var cs := Chunks(Records(lines), 0, 0).value;
      && Contiguous(m)
      && (forall a: nat :: Content(m, a) == Flash(cs, a))
      && (EndsInData(m) <==> exists a: nat :: Flash(cs, a) != 0xFF)
      && (!EndsInData(m) ==> m.Keys <= {0})
  {
    var cs := Chunks(Records(lines), 0, 0).value;
    ChunksLinked(Records(lines), 0, 0, cs);
    var base, flat := Base(cs), Flat(cs);
    var kept := Kept(base, flat);
    hide Chunks, Flash, Base, Flat, Linked, Kept;
    forall a: nat ensures Content(m, a) == Flash(cs, a) {
      LinkedFlash(cs, a);
      BlockAt(base, flat, a);
      BlockAt(base, kept, a);
    }
    LastKept(base, flat, m);
    if a: nat :| Flash(cs, a) != 0xFF {
      assert Content(m, a) != 0xFF;
    }
    if last :| last in m && m[last] != 0xFF {
      assert Content(m, last) == Flash(cs, last);
    }
  }

  lemma LastKept(base: nat, flat: seq<Byte>, m: Image)
    requires m == Block(base, Kept(base, flat))
    ensures EndsInData(m) || (m.Keys <= {0} && forall a | a in m :: m[a] == 0xFF)
  {
    var kept := Kept(base, flat);
    hide Kept, Block;
    forall a: nat ensures (a in m <==> base <= a < base + |kept|) && (a in m ==> m[a] == kept[a - base]) {
      BlockAt(base, kept, a);
    }
    if kept != [] && kept[|kept| - 1] != 0xFF {
      assert base + |kept| - 1 in m;
    }
  }

  // ---- When loading fails

  /** The address prefix in front of the k-th record: that of the last address record. */
  function PrefixAt(rs: seq<Record>, prefix: nat, k: nat): nat
    requires k <= |rs|
  {
    if k == 0 then prefix
    else if rs[k - 1].Extended? then rs[k - 1].prefix
    else PrefixAt(rs, prefix, k - 1)
  }

  function SizeOf(r: Record): nat {
    if r.Data? && r.payload.Some? then |r.payload.value| else 0
  }

  /** Where the last data record in front of the k-th ended. */
  function EndAt(rs: seq<Record>, prefix: nat, end: nat, k: nat): nat
    requires k <= |rs|
  {
    if k == 0 then end
    else if rs[k - 1].Data? then PrefixAt(rs, prefix, k - 1) + rs[k - 1].offset + SizeOf(rs[k - 1])
    else EndAt(rs, prefix, end, k - 1)
  }

  /** A data record that does not follow on; behind an end at address 0 every record does. */
  predicate GapAt(rs: seq<Record>, prefix: nat, end: nat, k: nat)
    requires k < |rs|
  {
    && rs[k].Data? && EndAt(rs, prefix, end, k) != 0
    && PrefixAt(rs, prefix, k) + rs[k].offset != EndAt(rs, prefix, end, k)
  }

  /** The record cannot be read, and no gap is in front of it or at it. */
  ghost predicate FailsAt(rs: seq<Record>, prefix: nat, end: nat, k: nat)
    requires k < |rs|
  {
    && (rs[k].Malformed? || (rs[k].Data? && rs[k].payload.None?))
    && forall i | 0 <= i <= k :: !GapAt(rs, prefix, end, i)
  }

  function NextPrefix(r: Record, prefix: nat): nat {
    if r.Extended? then r.prefix else prefix
  }

  function NextEnd(r: Record, prefix: nat, end: nat): nat {
    if r.Data? then prefix + r.offset + SizeOf(r) else end
  }

  lemma {:induction false} PrefixBehind(rs: seq<Record>, prefix: nat, k: nat)
    requires 0 < k <= |rs|
    ensures PrefixAt(rs, prefix, k) == PrefixAt(rs[1..], NextPrefix(rs[0], prefix), k - 1)
  {
    if k > 1 {
      PrefixBehind(rs, prefix, k - 1);
    }
  }

  lemma {:induction false} EndBehind(rs: seq<Record>, prefix: nat, end: nat, k: nat)
    requires 0 < k <= |rs|
    ensures EndAt(rs, prefix, end, k)
         == EndAt(rs[1..], NextPrefix(rs[0], prefix), NextEnd(rs[0], prefix, end), k - 1)
  {
    if k > 1 {
      EndBehind(rs, prefix, end, k - 1);
      PrefixBehind(rs, prefix, k - 1);
    }
  }

  lemma FailsBehind(rs: seq<Record>, prefix: nat, end: nat)
    requires rs != [] && !GapAt(rs, prefix, end, 0)
    requires !rs[0].Malformed? && (rs[0].Data? ==> rs[0].payload.Some?)
    ensures (exists k :: 0 <= k < |rs| && FailsAt(rs, prefix, end, k)) <==>
              exists k :: 0 <= k < |rs[1..]| &&
                FailsAt(rs[1..], NextPrefix(rs[0], prefix), NextEnd(rs[0], prefix, end), k)
  {
    var p, e := NextPrefix(rs[0], prefix), NextEnd(rs[0], prefix, end);
    forall k | 0 < k < |rs| ensures GapAt(rs, prefix, end, k) == GapAt(rs[1..], p, e, k - 1) {
      PrefixBehind(rs, prefix, k);
      EndBehind(rs, prefix, end, k);
    }
    hide GapAt, PrefixAt, EndAt;
    if k :| 0 <= k < |rs| && FailsAt(rs, prefix, end, k) {
      assert k > 0;
      forall i | 0 <= i <= k - 1 ensures !GapAt(rs[1..], p, e, i) {
        assert !GapAt(rs, prefix, end, i + 1);
      }
      assert FailsAt(rs[1..], p, e, k - 1);
    }
    if k :| 0 <= k < |rs[1..]| && FailsAt(rs[1..], p, e, k) {
      forall i | 0 <= i <= k + 1 ensures !GapAt(rs, prefix, end, i) {
        assert i > 0 ==> !GapAt(rs[1..], p, e, i - 1);
      }
      assert FailsAt(rs, prefix, end, k + 1);
    }
  }

  lemma {:induction false} ChunksFail(rs: seq<Record>, prefix: nat, end: nat)
    ensures Chunks(rs, prefix, end).None? <==> exists k :: 0 <= k < |rs| && FailsAt(rs, prefix, end, k)
  {
    if rs != [] {
      var p, e := NextPrefix(rs[0], prefix), NextEnd(rs[0], prefix, end);
      ChunksFail(rs[1..], p, e);
      if GapAt(rs, prefix, end, 0) {
        GapEnds(rs, prefix, end);
      } else if rs[0].Malformed? || (rs[0].Data? && rs[0].payload.None?) {
        assert FailsAt(rs, prefix, end, 0);
      } else {
        FailsBehind(rs, prefix, end);
      }
    }
  }

  lemma GapEnds(rs: seq<Record>, prefix: nat, end: nat)
    requires rs != [] && GapAt(rs, prefix, end, 0)
    ensures Chunks(rs, prefix, end) == Some([]) && forall k | 0 <= k < |rs| :: !FailsAt(rs, prefix, end, k)
  {
  }

  /** Loading fails exactly if a record cannot be read and no data record up to it leaves a gap:
      neither behind a gap nor in lines of other kinds does anything matter. */
  lemma LoadFails(lines: seq<string>)
    ensures Loaded(lines).Err? <==>
              var rs := Records(lines); exists k :: 0 <= k < |rs| && FailsAt(rs, 0, 0, k)
  {
    ChunksFail(Records(lines), 0, 0);
    hide Chunks, FailsAt;
  }
}
