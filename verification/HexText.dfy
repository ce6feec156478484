/** Intel HEX as text: the columns the loader reads, and the lines a printer writes. */
module HexText {
  import opened Options
  import opened Bytes

  // ---- Reading digits

  function HexDigit(c: char): Option<nat> {
    if '0' <= c <= '9' then Some(c as nat - '0' as nat)
    else if 'A' <= c <= 'F' then Some(c as nat - 'A' as nat + 10)
    else if 'a' <= c <= 'f' then Some(c as nat - 'a' as nat + 10)
    else None
  }

  /** A non-empty string of digits as a number. */
  function HexNumber(s: string): Option<nat>
    decreases |s|
  {
    if s == "" then None
    else
      match HexDigit(s[|s| - 1])
      case None => None
      case Some(d) =>
        if |s| == 1 then Some(d)
        else match HexNumber(s[..|s| - 1]) case None => None case Some(n) => Some(16 * n + d)
  }

  /** Pairs of digits as bytes. */
  function FromHex(s: string): Option<seq<Byte>> {
    if s == "" then Some([])
    else if |s| == 1 then None
    else
      match (HexDigit(s[0]), HexDigit(s[1]), FromHex(s[2..]))
      case (Some(h), Some(l), Some(rest)) => if h < 16 && l < 16 then Some([16 * h + l] + rest) else None
      case _ => None
  }

  function Min(a: nat, b: nat): nat {
    if a <= b then a else b
  }

  /** The slice from `a` up to `b`, clipped to the line. */
  function Slice(s: string, a: nat, b: nat): string
    requires a <= b
  {
    s[Min(a, |s|)..Min(b, |s|)]
  }

  /** Everything from column nine but the last two characters. */
  function DataColumns(s: string): string {
    if |s| < 11 then "" else s[9..|s| - 2]
  }

  // ---- Records

  /** What the loader sees in a line. The bytes of a data record are decoded only when they are
      used, so a malformed payload is part of the record. */
  datatype Record = Extended(prefix: nat) | Data(offset: nat, payload: Option<seq<Byte>>) | Ignored | Malformed

  function ParseLine(line: string): Record {
    var kind := Slice(line, 7, 9);
    if kind == "02" then
      match HexNumber(Slice(line, 9, 13)) case None => Malformed case Some(v) => Extended(v * 0x10)
    else if kind == "04" then
      match HexNumber(Slice(line, 9, 13)) case None => Malformed case Some(v) => Extended(v * 0x1_0000)
    else if kind == "00" then
      match HexNumber(Slice(line, 3, 7)) case None => Malformed case Some(v) => Data(v, FromHex(DataColumns(line)))
    else Ignored
  }

  function Records(lines: seq<string>): seq<Record> {
    seq(|lines|, i requires 0 <= i < |lines| => ParseLine(lines[i]))
  }

  // ---- Printing

  function Digit(n: nat): (c: char)
    requires n < 16
    ensures HexDigit(c) == Some(n)
  {
    "0123456789ABCDEF"[n]
  }

  function Hex2(b: nat): (s: string)
    requires b < 0x100
    ensures |s| == 2
  {
    [Digit(b / 16), Digit(b % 16)]
  }

  function Hex4(w: nat): (s: string)
    requires w < 0x1_0000
    ensures |s| == 4
  {
    Hex2(w / 0x100) + Hex2(w % 0x100)
  }

  function HexBytes(bs: seq<Byte>): (s: string)
    ensures |s| == 2 * |bs|
  {
    if bs == [] then "" else Hex2(bs[0]) + HexBytes(bs[1..])
  }

  /** The records of the Intel Hexadecimal Object File Format Specification, Revision A, that a
      memory image needs. */
  datatype Source =
    | Segment(usba: nat)                   // Extended Segment Address Record
    | Linear(ulba: nat)                    // Extended Linear Address Record
    | Bytes(offset: nat, bytes: seq<Byte>) // Data Record
    | EndOfFile

  predicate SourceOk(r: Source) {
    match r
    case Segment(v) => v < 0x1_0000
    case Linear(v) => v < 0x1_0000
    case Bytes(offset, bytes) => offset < 0x1_0000 && |bytes| < 0x100
    case EndOfFile => true
  }

  function SumOf(bs: seq<Byte>): nat {
    if bs == [] then 0 else bs[0] + SumOf(bs[1..])
  }

  /** Length, load offset, type and data, closed by the two's complement of their sum. */
  function Line(offset: nat, kind: Byte, data: seq<Byte>): string
    requires offset < 0x1_0000 && |data| < 0x100
  {
    var sum := |data| + offset / 0x100 + offset % 0x100 + kind + SumOf(data);
    ":" + Hex2(|data|) + Hex4(offset) + Hex2(kind) + HexBytes(data) + Hex2((0x100 - sum % 0x100) % 0x100)
  }

  function Text(r: Source): string
    requires SourceOk(r)
  {
    match r
    case Segment(v) => Line(0, 2, [v / 0x100, v % 0x100])
    case Linear(v) => Line(0, 4, [v / 0x100, v % 0x100])
    case Bytes(offset, bytes) => Line(offset, 0, bytes)
    case EndOfFile => Line(0, 1, [])
  }

  /** The record the line stands for. */
  function Meaning(r: Source): Record {
    match r
    case Segment(v) => Extended(v * 0x10)
    case Linear(v) => Extended(v * 0x1_0000)
    case Bytes(offset, bytes) => Data(offset, Some(bytes))
    case EndOfFile => Ignored
  }

  // ---- The loader reads what the printer writes

  lemma Hex2Number(b: nat)
    requires b < 0x100
    ensures HexNumber(Hex2(b)) == Some(b)
  {
    var s := Hex2(b);
    assert s[..1] == [Digit(b / 16)];
    assert HexNumber(s[..1]) == Some(b / 16);
  }

  lemma HexNumberSnoc(s: string, d: nat)
    requires s != "" && d < 16
    ensures HexNumber(s + [Digit(d)]) ==
              match HexNumber(s) case None => None case Some(n) => Some(16 * n + d)
  {
    assert (s + [Digit(d)])[..|s|] == s;
  }

  lemma Hex4Digits(w: nat)
    requires w < 0x1_0000
    ensures Hex4(w) == Hex2(w / 0x100) + [Digit(w % 0x100 / 16)] + [Digit(w % 0x100 % 16)]
  {
    var h, l := Hex2(w / 0x100), w % 0x100;
    assert Hex2(l) == [Digit(l / 16), Digit(l % 16)];
    hide Hex2, Digit;
    assert h + [Digit(l / 16), Digit(l % 16)] == h + [Digit(l / 16)] + [Digit(l % 16)];
  }

  lemma Weights(w: nat)
    ensures 16 * (16 * (w / 0x100) + w % 0x100 / 16) + w % 0x100 % 16 == w
  {
    var l := w % 0x100;
    assert l == 16 * (l / 16) + l % 16;
  }

  lemma TwoMoreDigits(s: string, n: nat, a: nat, b: nat)
    requires s != "" && HexNumber(s) == Some(n) && a < 16 && b < 16
    ensures HexNumber(s + [Digit(a)] + [Digit(b)]) == Some(16 * (16 * n + a) + b)
  {
    hide HexNumber, Digit;
    HexNumberSnoc(s, a);
    HexNumberSnoc(s + [Digit(a)], b);
  }

  lemma Hex4Number(w: nat)
    requires w < 0x1_0000
    ensures HexNumber(Hex4(w)) == Some(w)
  {
    hide HexNumber, Hex2, Hex4, Digit;
    Hex4Digits(w);
    Hex2Number(w / 0x100);
    TwoMoreDigits(Hex2(w / 0x100), w / 0x100, w % 0x100 / 16, w % 0x100 % 16);
    Weights(w);
  }

  lemma {:induction false} FromHexBytes(bs: seq<Byte>)
    ensures FromHex(HexBytes(bs)) == Some(bs)
  {
    if bs != [] {
      FromHexBytes(bs[1..]);
      FromHexPair(bs[0], HexBytes(bs[1..]), bs[1..]);
      assert bs == [bs[0]] + bs[1..];
    }
  }

  lemma FromHexPair(b: Byte, rest: string, bs: seq<Byte>)
    requires FromHex(rest) == Some(bs)
    ensures FromHex(Hex2(b) + rest) == Some([b] + bs)
  {
    assert (Hex2(b) + rest)[2..] == rest;
    hide HexNumber, Digit;
  }

  // ---- The case of the digits

  function Lower(s: string): (r: string)
    ensures |r| == |s|
  {
    seq(|s|, i requires 0 <= i < |s| => if 'A' <= s[i] <= 'F' then (s[i] as int + 32) as char else s[i])
  }

  lemma LowerDigit(s: string, i: nat)
    requires i < |s|
    ensures HexDigit(Lower(s)[i]) == HexDigit(s[i])
  {
  }

  /** Bytes are read the same from digits of either case, and so are numbers. */
  lemma {:induction false} CaseOfBytes(s: string)
    ensures FromHex(Lower(s)) == FromHex(s)
  {
    if |s| >= 2 {
      LowerDigit(s, 0);
      LowerDigit(s, 1);
      hide HexDigit;
      assert Lower(s)[2..] == Lower(s[2..]);
      CaseOfBytes(s[2..]);
    }
  }

  lemma {:induction false} CaseOfNumbers(s: string)
    ensures HexNumber(Lower(s)) == HexNumber(s)
    decreases |s|
  {
    if s != "" {
      LowerDigit(s, |s| - 1);
      hide HexDigit;
      assert Lower(s)[..|s| - 1] == Lower(s[..|s| - 1]);
      CaseOfNumbers(s[..|s| - 1]);
    }
  }

  lemma SliceOf(a: string, b: string, c: string)
    ensures Slice(a + b + c, |a|, |a| + |b|) == b
  {
    assert (a + b + c)[|a|..|a| + |b|] == b;
  }

  lemma DataColumnsOf(a: string, b: string, c: string)
    requires |a| == 9 && |c| == 2
    ensures DataColumns(a + b + c) == b
  {
    assert (a + b + c)[9..|a + b + c| - 2] == b;
  }

  /** The columns of a printed line. */
  lemma LineColumns(offset: nat, kind: Byte, data: seq<Byte>)
    requires offset < 0x1_0000 && |data| < 0x100
    ensures var s := Line(offset, kind, data);
      && |s| == 11 + 2 * |data|
      && Slice(s, 3, 7) == Hex4(offset) && Slice(s, 7, 9) == Hex2(kind)
      && DataColumns(s) == HexBytes(data)
      && (|data| == 2 ==> Slice(s, 9, 13) == HexBytes(data))
  {
    hide Hex2, Hex4, HexBytes, Slice, DataColumns, SumOf;
    var s := Line(offset, kind, data);
    var head, body := ":" + Hex2(|data|), HexBytes(data);
    var end := s[|s| - 2..];
    assert s == head + Hex4(offset) + Hex2(kind) + body + end;
    SliceOf(head, Hex4(offset), Hex2(kind) + body + end);
    assert s == head + Hex4(offset) + (Hex2(kind) + body + end);
    SliceOf(head + Hex4(offset), Hex2(kind), body + end);
    assert s == (head + Hex4(offset)) + Hex2(kind) + (body + end);
    SliceOf(head + Hex4(offset) + Hex2(kind), body, end);
    DataColumnsOf(head + Hex4(offset) + Hex2(kind), body, end);
  }

  lemma AddressColumns(v: nat, kind: Byte)
    requires v < 0x1_0000
    ensures var s := Line(0, kind, [v / 0x100, v % 0x100]);
      Slice(s, 7, 9) == Hex2(kind) && HexNumber(Slice(s, 9, 13)) == Some(v)
  {
    var data: seq<Byte> := [v / 0x100, v % 0x100];
    LineColumns(0, kind, data);
    Hex4Number(v);
    assert HexBytes(data) == Hex2(v / 0x100) + HexBytes([v % 0x100]);
    assert HexBytes([v % 0x100]) == Hex2(v % 0x100) + HexBytes([]);
    assert HexBytes(data) == Hex4(v);
  }

  lemma DataColumnsRead(offset: nat, bytes: seq<Byte>)
    requires offset < 0x1_0000 && |bytes| < 0x100
    ensures ParseLine(Line(offset, 0, bytes)) == Data(offset, Some(bytes))
  {
    hide Line, HexNumber, Hex4, HexBytes, FromHex, Slice, DataColumns;
    LineColumns(offset, 0, bytes);
    Hex4Number(offset);
    FromHexBytes(bytes);
  }

  /** Whatever a printer writes, the loader reads back the record it stands for. */
  lemma ReadsWhatIsPrinted(r: Source)
    requires SourceOk(r)
    ensures ParseLine(Text(r)) == Meaning(r)
  {
    hide Line, HexNumber, HexBytes, FromHex, Slice, DataColumns;
    match r
    case Segment(v) => AddressColumns(v, 2);
    case Linear(v) => AddressColumns(v, 4);
    case Bytes(offset, bytes) => DataColumnsRead(offset, bytes);
    case EndOfFile => LineColumns(0, 1, []);
  }
}
