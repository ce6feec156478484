/** Bytes and little-endian integers, as the serial commands pack them. */
module Bytes {
  type Byte = b: int | 0 <= b < 256

  function Le16(n: nat): (r: seq<Byte>)
    requires n < 0x1_0000
    ensures |r| == 2
  {
    [n % 256, n / 256]
  }

  function Le32(n: nat): (r: seq<Byte>)
    requires n < 0x1_0000_0000
    ensures |r| == 4
  {
    Le16(n % 0x1_0000) + Le16(n / 0x1_0000)
  }

  function FromLe16(bs: seq<Byte>): (n: nat)
    requires |bs| == 2
    ensures n < 0x1_0000
  {
    bs[0] as int + 256 * bs[1] as int
  }

  function FromLe32(bs: seq<Byte>): (n: nat)
    requires |bs| == 4
    ensures n < 0x1_0000_0000
  {
    FromLe16(bs[..2]) + 0x1_0000 * FromLe16(bs[2..])
  }

  lemma Le16RoundTrip(n: nat)
    requires n < 0x1_0000
    ensures FromLe16(Le16(n)) == n
  {
  }

  lemma Le32RoundTrip(n: nat)
    requires n < 0x1_0000_0000
    ensures FromLe32(Le32(n)) == n
  {
    var r := Le32(n);
    assert r[..2] == Le16(n % 0x1_0000) && r[2..] == Le16(n / 0x1_0000);
    Le16RoundTrip(n % 0x1_0000);
    Le16RoundTrip(n / 0x1_0000);
  }

  /** The lowest byte comes first. */
  lemma FromLe32Bytes(a: Byte, b: Byte, c: Byte, d: Byte)
    ensures FromLe32([a, b, c, d]) == a + 0x100 * b + 0x1_0000 * c + 0x100_0000 * d
  {
    assert [a, b, c, d][..2] == [a, b] && [a, b, c, d][2..] == [c, d];
  }

  function Concat(bss: seq<seq<Byte>>): seq<Byte> {
    if bss == [] then [] else bss[0] + Concat(bss[1..])
  }

  lemma {:induction false} ConcatAppend(a: seq<seq<Byte>>, b: seq<seq<Byte>>)
    ensures Concat(a + b) == Concat(a) + Concat(b)
  {
    if a == [] {
      assert a + b == b;
    } else {
      assert (a + b)[1..] == a[1..] + b;
      ConcatAppend(a[1..], b);
    }
  }

  lemma ConcatSnoc(a: seq<seq<Byte>>, b: seq<Byte>)
    ensures Concat(a + [b]) == Concat(a) + b
  {
    ConcatAppend(a, [b]);
    assert Concat([b]) == b;
  }
}
