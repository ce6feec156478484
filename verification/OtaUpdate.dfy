/** Copying an image to the device: merging the soft device with the application, and cutting the
    image into frames from which the device writes its flash. */
module OtaUpdate {
  import Finite
  import opened Options
  import opened Bytes
  import opened HexText
  import opened OtaImage
  import opened Framing

  /** The image holds the addresses from `lo` up to `hi`. */
  ghost predicate Spans(m: Image, lo: nat, hi: nat) {
    forall a: nat :: a in m <==> lo <= a < hi
  }

  lemma BlockSpans(base: nat, bytes: seq<Byte>)
    ensures Spans(Block(base, bytes), base, base + |bytes|)
  {
    forall a: nat ensures a in Block(base, bytes) <==> base <= a < base + |bytes| {
      BlockAt(base, bytes, a);
    }
  }

  // ---- Merging the soft device with the application

  datatype OtaError = BadFile | EmptyImage

  /** Above the soft device and below the application. */
  ghost predicate InGap(sd: Image, app: Image, a: nat) {
    (forall x | x in sd :: x < a) && (forall y | y in app :: a < y)
  }

  /** The application over the soft device, and 0xFF in the gap. */
  ghost predicate IsMerge(m: Image, sd: Image, app: Image) {
    && (forall a: nat :: a in m <==> a in app || a in sd || InGap(sd, app, a))
    && (forall a | a in m :: m[a] == if a in app then app[a] else Content(sd, a))
  }

  method Lowest(m: Image) returns (least: nat)
    requires m != map[]
    ensures least in m && forall a | a in m :: least <= a
  {
    least :| least in m;
    var keys := m.Keys;
    while keys != {}
      invariant keys <= m.Keys && least in m
      invariant forall a | a in m :: a in keys || least <= a
      decreases |keys|
    {
      var a :| a in keys;
      keys := keys - {a};
      if a < least {
        least := a;
      }
    }
  }

  method Highest(m: Image) returns (most: nat)
    requires m != map[]
    ensures most in m && forall a | a in m :: a <= most
  {
    most :| most in m;
    var keys := m.Keys;
    while keys != {}
      invariant keys <= m.Keys && most in m
      invariant forall a | a in m :: a in keys || a <= most
      decreases |keys|
    {
      var a :| a in keys;
      keys := keys - {a};
      if a > most {
        most := a;
      }
    }
  }

  method Merge(sd: Image, app: Image) returns (r: Result<Image, OtaError>)
    ensures r.Err? <==> sd == map[] || app == map[]
    ensures r.Ok? ==> IsMerge(r.value, sd, app)
  {
    if sd == map[] || app == map[] {
      return Err(EmptyImage);
    }
    var top := Highest(sd);
    var bottom := Lowest(app);
    var m := sd;
    var a := top + 1;
    while a < bottom
      invariant top < a && (a <= bottom || a == top + 1)
      invariant forall b :: b in m <==> b in sd || top < b < a
      invariant forall b | b in m :: m[b] == Content(sd, b)
    {
      m := m[a := 0xFF];
      a := a + 1;
    }
    forall b: nat ensures InGap(sd, app, b) <==> top < b < bottom {
    }
    r := Ok(m + app);
  }

  /** Two images of one interval each merge into one interval exactly when the soft device starts
      at or below the end of the application. */
  lemma MergeSpans(sd: Image, app: Image, m: Image, a: nat, b: nat, c: nat, d: nat)
    requires IsMerge(m, sd, app) && Spans(sd, a, b) && Spans(app, c, d) && a < b && c < d
    ensures a <= d ==> Spans(m, if a <= c then a else c, if b <= d then d else b)
    ensures a > d ==> forall lo, hi :: !Spans(m, lo, hi)
  {
    assert b - 1 in sd && a in sd && c in app && d - 1 in app;
    forall x: nat ensures InGap(sd, app, x) <==> b <= x < c {
      if InGap(sd, app, x) {
        assert b - 1 < x && x < c;
      }
    }
    if a > d {
      forall lo, hi ensures !Spans(m, lo, hi) {
        assert c in m && d !in m && a in m;
      }
    }
  }

  // ---- Framing the update

  const DATA_LENGTH := 128

  function Application(opcode: Byte, data: seq<Byte>): CommandPacket {
    CommandPacket(0x20, [opcode] + data)
  }

  function FrameOf(p: CommandPacket): (f: seq<Byte>)
    requires p.Length() < 256
    ensures IsFrame(f) && |f| == |p.data| + 2
  {
    Serialize(p).value
  }

  /** Disabling the mesh and its stack, and enabling them in the other order. */
  function Disabled(): (fs: seq<seq<Byte>>)
    ensures |fs| == 2 && IsFrame(fs[0]) && IsFrame(fs[1])
  {
    [FrameOf(CommandPacket(0x91, [])), FrameOf(Application(0x06, []))]
  }

  function Enabled(): (fs: seq<seq<Byte>>)
    ensures |fs| == 2 && IsFrame(fs[0]) && IsFrame(fs[1])
  {
    [FrameOf(Application(0x05, [])), FrameOf(CommandPacket(0x90, []))]
  }

  /** The start packet can be built: its numbers fit four bytes, and it fits its length byte. */
  predicate HeadFits(start: nat, size: nat, signature: seq<Byte>) {
    start < 0x1_0000_0000 && size < 0x1_0000_0000 && |signature| <= 245
  }

  /** These frames byte by byte: the mesh goes before its stack, and comes back behind it. */
  lemma SwitchBytes()
    ensures Disabled() == [[1, 0x91], [2, 0x20, 0x06]] && Enabled() == [[2, 0x20, 0x05], [1, 0x90]]
  {
    assert FrameOf(CommandPacket(0x91, [])) == [1, 0x91] && FrameOf(Application(0x06, [])) == [2, 0x20, 0x06];
    assert FrameOf(Application(0x05, [])) == [2, 0x20, 0x05] && FrameOf(CommandPacket(0x90, [])) == [1, 0x90];
  }

  function StartData(start: nat, size: nat, signature: seq<Byte>): CommandPacket
    requires start < 0x1_0000_0000 && size < 0x1_0000_0000
  {
    Application(0x07, Le32(start) + Le32(size) + signature)
  }

  function BinData(address: nat, data: seq<Byte>): CommandPacket
    requires address < 0x1_0000_0000
  {
    Application(0x08, Le32(address) + data)
  }

  /** What the device does with a frame: update data are written to flash, and no other frame of
      an update writes anything. */
  function Write(f: seq<Byte>, flash: Image): Image {
    if |f| >= 7 && f[1] == 0x20 && f[2] == 0x08 then flash + Block(FromLe32(f[3..7]), f[7..]) else flash
  }

  function WriteAll(fs: seq<seq<Byte>>): Image {
    if fs == [] then map[] else Write(fs[|fs| - 1], WriteAll(fs[..|fs| - 1]))
  }

  /** What the device knows of an update before its data come in. */
  datatype Announcement = Announcement(start: nat, size: nat, signature: seq<Byte>)

  /** Whether its mesh and the stack below it are running, and the last update announced. */
  datatype Device = Device(mesh: bool, stack: bool, update: Option<Announcement>)

  const RUNNING: Device := Device(true, true, None)

  /** How the device takes the frames that control an update; it reads the numbers as four bytes,
      the lowest first. */
  function Hear(f: seq<Byte>, d: Device): Device {
    if |f| == 2 && f[1] == 0x90 then d.(mesh := true)
    else if |f| == 2 && f[1] == 0x91 then d.(mesh := false)
    else if |f| == 3 && f[1] == 0x20 && f[2] == 0x05 then d.(stack := true)
    else if |f| == 3 && f[1] == 0x20 && f[2] == 0x06 then d.(stack := false)
    else if |f| >= 11 && f[1] == 0x20 && f[2] == 0x07 then
      d.(update := Some(Announcement(FromLe32(f[3..7]), FromLe32(f[7..11]), f[11..])))
    else d
  }

  function HearAll(fs: seq<seq<Byte>>, d: Device): Device {
    if fs == [] then d else Hear(fs[|fs| - 1], HearAll(fs[..|fs| - 1], d))
  }

  lemma {:induction false} HearConcat(a: seq<seq<Byte>>, b: seq<seq<Byte>>, d: Device)
    ensures HearAll(a + b, d) == HearAll(b, HearAll(a, d))
  {
    if b == [] {
      assert a + b == a;
    } else {
      assert (a + b)[..|a + b| - 1] == a + b[..|b| - 1];
      HearConcat(a, b[..|b| - 1], d);
    }
  }

  lemma HearTwo(f: seq<Byte>, g: seq<Byte>, d: Device)
    ensures HearAll([f, g], d) == Hear(g, Hear(f, d)) && HearAll([f], d) == Hear(f, d)
  {
    assert [f, g][..1] == [f] && [f][..0] == [];
    assert HearAll([f], d) == Hear(f, HearAll([], d));
  }

  lemma HearsSwitches(d: Device)
    ensures HearAll(Disabled(), d) == d.(mesh := false, stack := false)
    ensures HearAll(Enabled(), d) == d.(mesh := true, stack := true)
  {
    HearTwo(FrameOf(CommandPacket(0x91, [])), FrameOf(Application(0x06, [])), d);
    HearTwo(FrameOf(Application(0x05, [])), FrameOf(CommandPacket(0x90, [])), d);
  }

  lemma HearsStart(start: nat, size: nat, signature: seq<Byte>, d: Device)
    requires HeadFits(start, size, signature)
    ensures Hear(FrameOf(StartData(start, size, signature)), d)
         == d.(update := Some(Announcement(start, size, signature)))
  {
    var f := FrameOf(StartData(start, size, signature));
    assert f[2..] == [0x07] + (Le32(start) + Le32(size) + signature);
    assert f[3..7] == Le32(start) && f[7..11] == Le32(size) && f[11..] == signature;
    Le32RoundTrip(start);
    Le32RoundTrip(size);
  }

  predicate IsBlock(f: seq<Byte>) {
    |f| >= 7 && f[1] == 0x20 && f[2] == 0x08
  }

  /** Where the data of a block go. */
  function BlockAddress(f: seq<Byte>): nat {
    if |f| >= 7 then FromLe32(f[3..7]) else 0
  }

  lemma {:induction false} HearsBlocks(fs: seq<seq<Byte>>, d: Device)
    requires forall f | f in fs :: IsBlock(f)
    ensures HearAll(fs, d) == d
  {
    if fs != [] {
      HearsBlocks(fs[..|fs| - 1], d);
      assert IsBlock(fs[|fs| - 1]);
    }
  }

  /** What the device knows behind the frames of an update that is enabled again, or is not. */
  lemma HearsUpdate(start: nat, size: nat, signature: seq<Byte>, blocks: seq<seq<Byte>>)
    requires HeadFits(start, size, signature) && forall f | f in blocks :: IsBlock(f)
    ensures var fs := Disabled() + [FrameOf(StartData(start, size, signature))] + blocks;
      var update := Some(Announcement(start, size, signature));
      && HearAll(fs, RUNNING) == Device(false, false, update)
      && HearAll(fs + Enabled(), RUNNING) == Device(true, true, update)
  {
    var head := FrameOf(StartData(start, size, signature));
    hide Hear, HearAll, FrameOf, IsBlock;
    HearsSwitches(RUNNING);
    HearTwo(head, head, Device(false, false, None));
    HearsStart(start, size, signature, Device(false, false, None));
    HearConcat(Disabled(), [head], RUNNING);
    HearsBlocks(blocks, Device(false, false, Some(Announcement(start, size, signature))));
    HearConcat(Disabled() + [head], blocks, RUNNING);
    HearsSwitches(Device(false, false, Some(Announcement(start, size, signature))));
    HearConcat(Disabled() + [head] + blocks, Enabled(), RUNNING);
  }

  /** The flash written by what the serial line carries. */
  function Flashed(stream: seq<Byte>): Image {
    WriteAll(Frames(stream))
  }

  lemma WriteNext(fs: seq<seq<Byte>>, f: seq<Byte>)
    ensures WriteAll(fs + [f]) == Write(f, WriteAll(fs))
  {
    assert (fs + [f])[..|fs|] == fs;
  }

  lemma WritesBlock(address: nat, data: seq<Byte>, flash: Image)
    requires address < 0x1_0000_0000 && |data| <= DATA_LENGTH
    ensures Write(FrameOf(BinData(address, data)), flash) == flash + Block(address, data)
  {
    var f := FrameOf(BinData(address, data));
    assert f[2..] == [0x08] + (Le32(address) + data);
    assert f[3..7] == Le32(address) && f[7..] == data;
    Le32RoundTrip(address);
  }

  /** Frames of data, block by block from `start` on. */
  ghost predicate AreBlocks(fs: seq<seq<Byte>>, start: nat) {
    && (forall f | f in fs :: IsFrame(f) && IsBlock(f) && 7 <= |f| <= 7 + DATA_LENGTH)
    && forall i | 0 <= i < |fs| :: BlockAddress(fs[i]) == start + i * DATA_LENGTH
  }

  lemma NoBlocks(start: nat)
    ensures AreBlocks([], start)
  {
  }

  lemma MoreBlocks(fs: seq<seq<Byte>>, f: seq<Byte>, start: nat)
    requires AreBlocks(fs, start) && IsFrame(f) && IsBlock(f) && 7 <= |f| <= 7 + DATA_LENGTH
    requires BlockAddress(f) == start + |fs| * DATA_LENGTH
    ensures AreBlocks(fs + [f], start)
  {
  }

  lemma FrameIsBlock(address: nat, data: seq<Byte>)
    requires address < 0x1_0000_0000 && |data| <= DATA_LENGTH
    ensures 7 <= |FrameOf(BinData(address, data))| <= 7 + DATA_LENGTH
    ensures IsBlock(FrameOf(BinData(address, data))) && BlockAddress(FrameOf(BinData(address, data))) == address
  {
    var f := FrameOf(BinData(address, data));
    assert f[2..] == [0x08] + (Le32(address) + data);
    assert f[3..7] == Le32(address);
    Le32RoundTrip(address);
  }

  /** The address is sent: its block of 128 is one of those sent, and nothing is missing from the
      start of the block up to it. */
  ghost predicate Sent(image: Image, start: nat, a: nat) {
    && start <= a
    && var block := start + (a - start) / DATA_LENGTH * DATA_LENGTH;
       block <= start + |image| && forall x | block <= x <= a :: x in image
  }

  /** The image holds these bytes from an address on. */
  ghost predicate Holds(image: Image, address: nat, data: seq<Byte>) {
    forall x | address <= x < address + |data| :: x in image && image[x] == data[x - address]
  }

  /** The bytes of the image from an address on, up to 128 and up to the first that is missing. */
  method BlockData(image: Image, address: nat) returns (data: seq<Byte>)
    ensures |data| <= DATA_LENGTH && Holds(image, address, data)
    ensures |data| < DATA_LENGTH ==> address + |data| !in image
  {
    data := [];
    for n := 0 to DATA_LENGTH
      invariant |data| == n && Holds(image, address, data)
    {
      if address + n !in image {
        break;
      }
      data := data + [image[address + n]];
    }
  }

  ghost predicate Part(flash: Image, image: Image) {
    forall a | a in flash :: a in image && flash[a] == image[a]
  }

  /** The flash after the blocks below `address`. */
  ghost predicate Copied(flash: Image, image: Image, start: nat, address: nat) {
    && (forall a: nat :: a in flash <==> a < address && Sent(image, start, a))
    && Part(flash, image)
  }

  lemma NextBlock(flash: Image, image: Image, start: nat, address: nat, data: seq<Byte>)
    requires Copied(flash, image, start, address) && start <= address <= start + |image|
    requires (address - start) % DATA_LENGTH == 0
    requires |data| <= DATA_LENGTH && Holds(image, address, data)
    requires |data| < DATA_LENGTH ==> address + |data| !in image
    ensures Copied(flash + Block(address, data), image, start, address + DATA_LENGTH)
  {
    var after := flash + Block(address, data);
    forall a: nat
      ensures a in after <==> a < address + DATA_LENGTH && Sent(image, start, a)
      ensures a in after ==> a in image && after[a] == image[a]
    {
      BlockAt(address, data, a);
      if address <= a < address + DATA_LENGTH {
        SameBlock(start, address, a);
        InBlock(image, start, address, data, a);
      } else if a in flash {
        assert a < address;
      }
    }
  }

  lemma SameBlock(start: nat, address: nat, a: nat)
    requires start <= address <= a < address + DATA_LENGTH && (address - start) % DATA_LENGTH == 0
    ensures start + (a - start) / DATA_LENGTH * DATA_LENGTH == address
  {
  }

  lemma InBlock(image: Image, start: nat, address: nat, data: seq<Byte>, a: nat)
    requires start <= address <= start + |image| && address <= a < address + DATA_LENGTH
    requires start + (a - start) / DATA_LENGTH * DATA_LENGTH == address
    requires |data| <= DATA_LENGTH && Holds(image, address, data)
    requires |data| < DATA_LENGTH ==> address + |data| !in image
    ensures Sent(image, start, a) <==> a < address + |data|
  {
  }

  /** Send the image block by block, until an address does not fit its field. */
  method CopyBlocks(image: Image, start: nat) returns (fs: seq<seq<Byte>>, ok: bool)
    ensures ok <==> start + |image| / DATA_LENGTH * DATA_LENGTH < 0x1_0000_0000
    ensures ok ==> |fs| == |image| / DATA_LENGTH + 1
    ensures AreBlocks(fs, start)
    ensures Part(WriteAll(fs), image)
    ensures ok ==> forall a: nat :: a in WriteAll(fs) <==> Sent(image, start, a)
  {
    hide Write, WriteAll, Copied, FrameOf, BlockAddress, AreBlocks, IsFrame, IsBlock;
    fs, ok := [], false;
    var address := start;
    NothingWritten();
    StartCopied(image, start);
    NoBlocks(start);
    while address < start + |image| + 1
      invariant start <= address <= start + |image| + DATA_LENGTH && address == start + |fs| * DATA_LENGTH
      invariant address <= 0xFFFF_FFFF + DATA_LENGTH || fs == []
      invariant AreBlocks(fs, start)
      invariant Copied(WriteAll(fs), image, start, address)
    {
      var data := BlockData(image, address);
      if address >= 0x1_0000_0000 {
        PartWritten(WriteAll(fs), image, start, address);
        return;
      }
      var frame := FrameOf(BinData(address, data));
      WriteNext(fs, frame);
      WritesBlock(address, data, WriteAll(fs));
      FrameIsBlock(address, data);
      MoreBlocks(fs, frame, start);
      NextBlock(WriteAll(fs), image, start, address, data);
      fs := fs + [frame];
      address := address + DATA_LENGTH;
    }
    AllCopied(WriteAll(fs), image, start, address);
    ok := true;
  }

  /** What an update needs to get through: a signature that leaves the start packet its length
      byte, and addresses that fit four bytes up to the last that is sent. */
  predicate Fits(image: Image, start: nat, signature: Option<seq<Byte>>) {
    && signature.Some? && |signature.value| <= 245
    && start + |image| / DATA_LENGTH * DATA_LENGTH < 0x1_0000_0000
  }

  /** An update either gets through, and the flash it writes is what `Sent` says, or it stops at
      the first value that does not fit its field, with no more than part of the image written and
      the mesh left disabled. */
  method CopyUpdate(image: Image, signature: string) returns (fs: seq<seq<Byte>>, ok: bool, ghost start: nat)
    ensures image != map[] ==> start in image && forall a | a in image :: start <= a
    ensures ok <==> image != map[] && Fits(image, start, FromHex(signature))
    ensures (forall f | f in fs :: IsFrame(f)) && Part(WriteAll(fs), image)
    ensures ok ==> forall a: nat :: a in WriteAll(fs) <==> Sent(image, start, a)
    ensures ok ==> UpdateSession(fs, start, |image|, FromHex(signature).value)
    ensures fs == [] <==> image == map[] || FromHex(signature).None?
    ensures fs != [] ==> |fs| >= 2 && fs[..2] == Disabled()
    ensures fs == Disabled() <==>
              image != map[] && FromHex(signature).Some? && !HeadFits(start, |image|, FromHex(signature).value)
    ensures !ok ==> FrameOf(CommandPacket(0x90, [])) !in fs
    ensures ok ==> HearAll(fs, RUNNING) ==
                     Device(true, true, Some(Announcement(start, |image|, FromHex(signature).value)))
    ensures !ok && fs != [] ==> !HearAll(fs, RUNNING).mesh && !HearAll(fs, RUNNING).stack
  {
    hide Write, WriteAll, FromHex, FrameOf, Sent, HearAll, IsBlock, IsFrame, Disabled, Enabled, Concat;
    hide UpdateSession, BlockAddress;
    fs, ok := [], false;
    start := 0;
    NothingWritten();
    var sign := FromHex(signature);
    if image == map[] {
      return;
    }
    var first := Lowest(image);
    start := first;
    if sign.None? {
      return;
    }
    var size := |image|;
    fs := Disabled();
    HearsSwitches(RUNNING);
    SilentFrames();
    Surrounded(Disabled(), [], []);
    assert Disabled() + [] + [] == Disabled();
    if first >= 0x1_0000_0000 || size >= 0x1_0000_0000 || StartData(first, size, sign.value).Length() >= 256 {
      return;
    }
    var head := FrameOf(StartData(first, size, sign.value));
    var blocks, sent := CopyBlocks(image, first);
    fs := Disabled() + [head] + blocks;
    HearsUpdate(first, size, sign.value, blocks);
    UpdateFrames(first, size, sign.value, blocks);
    if !sent {
      return;
    }
    SessionFrames(first, size, sign.value, blocks);
    fs := fs + Enabled();
    ok := true;
  }

  /** An update of one byte with a signature of 246 bytes disables the mesh, and nothing more. */
  method UpdateWithLongSignature() returns (fs: seq<seq<Byte>>, ok: bool)
    ensures !ok && fs == Disabled() && HearAll(fs, RUNNING) == Device(false, false, None)
    ensures FrameOf(CommandPacket(0x90, [])) !in fs
  {
    HearsSwitches(RUNNING);
    var signature := seq(246, _ => 0);
    FromHexBytes(signature);
    hide FromHex, FrameOf;
    var image: Image := map[0 := 1];
    assert 0 in image && |signature| == 246;
    ghost var start;
    fs, ok, start := CopyUpdate(image, HexBytes(signature));
  }

  /** The frames of an update that got through. */
  ghost predicate UpdateSession(fs: seq<seq<Byte>>, start: nat, size: nat, signature: seq<Byte>) {
    && HeadFits(start, size, signature)
    && |fs| == size / DATA_LENGTH + 6
    && fs[..2] == Disabled() && fs[2] == FrameOf(StartData(start, size, signature))
    && (forall i | 3 <= i < |fs| - 2 ::
          |fs[i]| <= 7 + DATA_LENGTH && BlockAddress(fs[i]) == start + (i - 3) * DATA_LENGTH)
    && fs[|fs| - 2..] == Enabled()
  }

  lemma SessionFrames(start: nat, size: nat, signature: seq<Byte>, blocks: seq<seq<Byte>>)
    requires HeadFits(start, size, signature) && AreBlocks(blocks, start) && |blocks| == size / DATA_LENGTH + 1
    ensures UpdateSession(Disabled() + [FrameOf(StartData(start, size, signature))] + blocks + Enabled(),
                          start, size, signature)
  {
    hide FrameOf, Disabled, Enabled, BlockAddress, IsBlock, IsFrame;
  }

  lemma StreamOf(fs: seq<seq<Byte>>)
    requires forall f | f in fs :: IsFrame(f)
    ensures Flashed(Concat(fs)) == WriteAll(fs) && Frames(Concat(fs)) == fs
  {
    FramesPrefix(fs, []);
    assert Concat(fs) + [] == Concat(fs) && fs + [] == fs;
  }

  lemma NothingWritten()
    ensures WriteAll([]) == map[]
  {
  }

  /** Frames that write nothing. */
  lemma {:induction false} Silent(fs: seq<seq<Byte>>, more: seq<seq<Byte>>)
    requires SilentAll(more)
    ensures WriteAll(fs + more) == WriteAll(fs)
  {
    if more == [] {
      assert fs + more == fs;
    } else {
      var init, last := more[..|more| - 1], more[|more| - 1];
      assert last in more && forall f | f in init :: f in more;
      Silent(fs, init);
      WriteNext(fs + init, last);
      assert fs + init + [last] == fs + more;
    }
  }

  ghost predicate SilentAll(fs: seq<seq<Byte>>) {
    forall f | f in fs :: |f| < 7 || f[1] != 0x20 || f[2] != 0x08
  }

  lemma SilentFrames()
    ensures SilentAll(Disabled()) && SilentAll(Enabled())
    ensures FrameOf(CommandPacket(0x90, [])) !in Disabled()
  {
    assert FrameOf(CommandPacket(0x90, []))[1] == 0x90;
    assert FrameOf(CommandPacket(0x91, []))[1] == 0x91 && FrameOf(Application(0x06, []))[1] == 0x20;
  }

  /** The frames of an update write what its blocks write, and do not enable the mesh before the end. */
  lemma UpdateFrames(start: nat, size: nat, signature: seq<Byte>, blocks: seq<seq<Byte>>)
    requires HeadFits(start, size, signature) && forall f | f in blocks :: |f| >= 7
    ensures var fs := Disabled() + [FrameOf(StartData(start, size, signature))] + blocks;
      && WriteAll(fs) == WriteAll(blocks) == WriteAll(fs + Enabled())
      && FrameOf(CommandPacket(0x90, [])) !in fs
  {
    var head := FrameOf(StartData(start, size, signature));
    SilentStart(start, size, signature);
    SilentFrames();
    assert head[1] == 0x20 && FrameOf(CommandPacket(0x90, []))[1] == 0x90;
    hide Write, WriteAll, SilentAll, FrameOf, Disabled, Enabled;
    Surrounded(Disabled() + [head], blocks, []);
    Surrounded(Disabled() + [head], blocks, Enabled());
    assert Disabled() + [head] + blocks + [] == Disabled() + [head] + blocks;
  }

  lemma SilentStart(start: nat, size: nat, signature: seq<Byte>)
    requires start < 0x1_0000_0000 && size < 0x1_0000_0000 && |signature| <= 245
    ensures SilentAll(Disabled() + [FrameOf(StartData(start, size, signature))])
  {
    SilentFrames();
    assert FrameOf(StartData(start, size, signature))[2] == 0x07;
  }

  lemma {:induction false} Surrounded(head: seq<seq<Byte>>, fs: seq<seq<Byte>>, tail: seq<seq<Byte>>)
    requires SilentAll(head) && SilentAll(tail)
    ensures WriteAll(head + fs + tail) == WriteAll(fs)
  {
    Silent(head + fs, tail);
    if fs == [] {
      Silent([], head);
      assert [] + head == head + fs;
    } else {
      var init, last := fs[..|fs| - 1], fs[|fs| - 1];
      Surrounded(head, init, []);
      assert head + init + [] == head + init && head + init + [last] == head + fs;
      WriteNext(head + init, last);
    }
  }

  lemma StartCopied(image: Image, start: nat)
    ensures Copied(map[], image, start, start)
  {
  }

  lemma PartWritten(flash: Image, image: Image, start: nat, address: nat)
    requires Copied(flash, image, start, address)
    ensures Part(flash, image)
  {
  }

  lemma AllCopied(flash: Image, image: Image, start: nat, address: nat)
    requires Copied(flash, image, start, address)
    requires start + |image| < address && (address - start) % DATA_LENGTH == 0
    ensures forall a: nat :: a in flash <==> Sent(image, start, a)
    ensures Part(flash, image)
  {
    forall a: nat | Sent(image, start, a) ensures a < address {
      BlockBefore(start, address, a);
    }
  }

  lemma BlockBefore(start: nat, address: nat, a: nat)
    requires start <= a && (address - start) % DATA_LENGTH == 0
    requires start + (a - start) / DATA_LENGTH * DATA_LENGTH < address
    ensures a < address
  {
  }

  /** An image of one interval is sent whole, also when its size is a multiple of 128 and the last
      frame is empty. */
  lemma WholeImageSent(image: Image, lo: nat, hi: nat, flash: Image)
    requires Spans(image, lo, hi) && lo < hi
    requires forall a: nat :: a in flash <==> Sent(image, lo, a)
    requires Part(flash, image)
    ensures flash == image
  {
    hide Sent;
    forall a: nat ensures a in flash <==> a in image {
      SpanSent(image, lo, hi, a);
    }
    assert flash.Keys == image.Keys;
  }

  lemma SpanSent(image: Image, lo: nat, hi: nat, a: nat)
    requires Spans(image, lo, hi) && lo < hi
    ensures Sent(image, lo, a) <==> a in image
  {
    SpanSize(image, lo, hi);
    if a in image {
      assert lo <= lo + (a - lo) / DATA_LENGTH * DATA_LENGTH <= a;
    }
  }

  lemma SpanSize(image: Image, lo: nat, hi: nat)
    requires Spans(image, lo, hi) && lo < hi
    ensures |image| == hi - lo
  {
    assert image.Keys == Finite.Interval(lo, hi);
  }

  // ---- The whole pipeline

  /** What loading gives: the application alone, or merged over the soft device. */
  ghost predicate IsLoaded(m: Image, app: seq<string>, softdevice: Option<seq<string>>) {
    && Loaded(app).Ok? && m != map[]
    && match softdevice
       case None => Loaded(app) == Ok(m)
       case Some(lines) => Loaded(lines).Ok? && IsMerge(m, Loaded(lines).value, Loaded(app).value)
  }

  /** Load the application, over the soft device when there is one. */
  method LoadOta(app: seq<string>, softdevice: Option<seq<string>>) returns (r: Result<Image, OtaError>)
    ensures r.Ok? ==> IsLoaded(r.value, app, softdevice)
    ensures r.Err? <==>
            || Loaded(app).Err? || Loaded(app).value == map[]
            || (softdevice.Some? && (Loaded(softdevice.value).Err? || Loaded(softdevice.value).value == map[]))
  {
    hide Loaded;
    var data := HexLoad(app);
    if data.Err? {
      return Err(BadFile);
    }
    if softdevice.Some? {
      var sd := HexLoad(softdevice.value);
      if sd.Err? {
        return Err(BadFile);
      }
      r := Merge(sd.value, data.value);
      if r.Ok? {
        assert data.value.Keys != {};
        var a :| a in data.value;
        assert a in r.value;
      }
    } else if data.value == map[] {
      r := Err(EmptyImage);
    } else {
      r := Ok(data.value);
    }
  }

  /** The soft device starts at or below the end of the application. */
  ghost predicate Reaches(sd: Image, app: Image) {
    exists a, d :: a in sd && d in app && a <= d + 1
  }

  /** From the text of the files to the flash of the device: an update gets through exactly when
      the files load and everything fits, and the device has then written exactly the image,
      provided the soft device, if any, starts at or below the end of the application. */
  method Update(app: seq<string>, softdevice: Option<seq<string>>, signature: string)
    returns (loaded: Result<Image, OtaError>, fs: seq<seq<Byte>>, ok: bool, ghost start: nat)
    ensures loaded.Ok? ==> IsLoaded(loaded.value, app, softdevice)
    ensures loaded.Err? ==> fs == []
    ensures loaded.Ok? ==> start in loaded.value && forall a | a in loaded.value :: start <= a
    ensures ok <==> loaded.Ok? && Fits(loaded.value, start, FromHex(signature))
    ensures loaded.Ok? ==> Part(Flashed(Concat(fs)), loaded.value)
    ensures ok && (softdevice.Some? ==> Reaches(Loaded(softdevice.value).value, Loaded(app).value)) ==>
              Flashed(Concat(fs)) == loaded.value
    ensures ok ==> HearAll(Frames(Concat(fs)), RUNNING) ==
                     Device(true, true, Some(Announcement(start, |loaded.value|, FromHex(signature).value)))
  {
    hide HearAll, Hear, Frames;
    hide Loaded, IsLoaded, Reaches, Fits, FromHex, Flashed, WriteAll, Sent, UpdateSession;
    start := 0;
    loaded := LoadOta(app, softdevice);
    if loaded.Err? {
      return loaded, [], false, start;
    }
    LoadedSome(loaded.value, app, softdevice);
    fs, ok, start := CopyUpdate(loaded.value, signature);
    StreamOf(fs);
    if ok && (softdevice.Some? ==> Reaches(Loaded(softdevice.value).value, Loaded(app).value)) {
      UpdateReachesFlash(loaded.value, app, softdevice, fs, start);
    }
  }

  lemma LoadedSome(m: Image, app: seq<string>, softdevice: Option<seq<string>>)
    requires IsLoaded(m, app, softdevice)
    ensures m != map[] && Loaded(app).Ok? && (softdevice.Some? ==> Loaded(softdevice.value).Ok?)
  {
  }

  /** The frames of an update that got through write the whole image. */
  lemma UpdateReachesFlash(m: Image, app: seq<string>, softdevice: Option<seq<string>>,
                           fs: seq<seq<Byte>>, start: nat)
    requires IsLoaded(m, app, softdevice)
    requires softdevice.Some? ==> Reaches(Loaded(softdevice.value).value, Loaded(app).value)
    requires start in m && (forall a | a in m :: start <= a)
    requires (forall f | f in fs :: IsFrame(f)) && Part(WriteAll(fs), m)
    requires forall a: nat :: a in WriteAll(fs) <==> Sent(m, start, a)
    ensures Flashed(Concat(fs)) == m
  {
    hide Loaded, Write, WriteAll, Sent, Flashed;
    StreamOf(fs);
    var c, d := LoadedSpans(app);
    var lo, hi := c, d;
    if softdevice.Some? {
      var a, b := LoadedSpans(softdevice.value);
      var sd, ap := Loaded(softdevice.value).value, Loaded(app).value;
      var x, y :| x in sd && y in ap && x <= y + 1;
      MergeSpans(sd, ap, m, a, b, c, d);
      lo, hi := if a <= c then a else c, if b <= d then d else b;
    }
    assert lo <= start < hi && lo in m;
    WholeImageSent(m, lo, hi, WriteAll(fs));
  }

  lemma LoadedSpans(lines: seq<string>) returns (lo: nat, hi: nat)
    requires Loaded(lines).Ok?
    ensures lo <= hi && Spans(Loaded(lines).value, lo, hi)
  {
    var cs := Chunks(Records(lines), 0, 0).value;
    var kept := Kept(Base(cs), Flat(cs));
    BlockSpans(Base(cs), kept);
    lo, hi := Base(cs), Base(cs) + |kept|;
  }
}
