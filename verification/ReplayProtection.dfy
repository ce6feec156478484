/** Replay protection, section 3.8.8 of the Bluetooth Mesh Profile v1.0.1: the cache of a receiver,
    the sequence numbers of a gateway across restarts, and the two together. */
module ReplayProtection {
  import opened Options

  // ---- The receiver's cache

  datatype CacheEvent = Message(src: nat, number: nat) | Removal(address: nat)

  /** The numbers received from a source since it was last removed. */
  function Received(history: seq<CacheEvent>, src: nat): seq<nat> {
    if history == [] then []
    else
      var init, e := history[..|history| - 1], history[|history| - 1];
      if e.Removal? then (if e.address == src then [] else Received(init, src))
      else Received(init, src) + (if e.src == src then [e.number] else [])
  }

  /** A number above everything received from the source. */
  predicate Newest(history: seq<CacheEvent>, src: nat, number: nat) {
    forall n | n in Received(history, src) :: n < number
  }

  lemma ReceivedSnoc(history: seq<CacheEvent>, e: CacheEvent, src: nat)
    ensures Received(history + [e], src) ==
              if e.Removal? then (if e.address == src then [] else Received(history, src))
              else Received(history, src) + (if e.src == src then [e.number] else [])
  {
    assert (history + [e])[..|history|] == history;
  }

  /** The highest number received from each source. */
  class ReplayCache {
    var cache: map<nat, nat>
    ghost var history: seq<CacheEvent>

    ghost predicate Valid()
      reads this
    {
      && (forall src: nat :: src in cache <==> Received(history, src) != [])
      && (forall src | src in cache :: cache[src] in Received(history, src))
      && (forall src | src in cache :: forall n | n in Received(history, src) :: n <= cache[src])
    }

    constructor ()
      ensures Valid() && history == []
    {
      cache := map[];
      history := [];
    }

    method RemoveNode(address: nat)
      requires Valid()
      modifies this
      ensures Valid() && history == old(history) + [Removal(address)]
    {
      forall src: nat {
        ReceivedSnoc(history, Removal(address), src);
      }
      hide Received;
      history := history + [Removal(address)];
      cache := cache - {address};
    }

    /** Accept a message exactly when its number is above all received from its source. */
    method CheckSeqNumber(src: nat, number: nat) returns (accepted: bool)
      requires Valid()
      modifies this
      ensures Valid() && history == old(history) + [Message(src, number)]
      ensures accepted <==> Newest(old(history), src, number)
    {
      forall s: nat {
        ReceivedSnoc(history, Message(src, number), s);
      }
      hide Received;
      history := history + [Message(src, number)];
      if src in cache {
        if number > cache[src] {
          cache := cache[src := number];
          return true;
        }
        return false;
      }
      cache := cache[src := number];
      accepted := true;
    }
  }

  // ---- The sender's sequence numbers

  const SEQ_BLOCK := 100

  /** Where the numbers go on after a restart: behind the block of the recorded number, or at 0
      when there is no record. */
  function Start(record: Option<nat>): nat {
    match record
    case Some(v) => SEQ_BLOCK * (v / SEQ_BLOCK + 1)
    case None => 0
  }

  /** The file with the sequence number; `None` stands for a file that is missing or unreadable. */
  class SequenceFile {
    var record: Option<nat>

    constructor (record: Option<nat>)
      ensures this.record == record
    {
      this.record := record;
    }

    /** On a restart: the number the device is told to go on with is recorded first. */
    method ConfigDevice() returns (start: nat)
      modifies this
      ensures start == Start(old(record)) && record == Some(start)
      ensures start % SEQ_BLOCK == 0
      ensures old(record).Some? ==> old(record).value < start <= old(record).value + SEQ_BLOCK
    {
      if record.Some? {
        start := SEQ_BLOCK * (record.value / SEQ_BLOCK + 1);
      } else {
        start := 0;
      }
      record := Some(start);
    }

    method SeqUpdate(number: nat)
      modifies this
      ensures record == Some(number)
    {
      record := Some(number);
    }
  }

  /** A configured device: the number it uses next, and the last it was told or has reported. */
  datatype Device = Device(next: nat, reported: nat)

  /** The gateway: the record, its device once that is configured, and every number used so far. */
  datatype Gateway = Gateway(record: Option<nat>, device: Option<Device>, used: seq<nat>)

  datatype GatewayEvent =
    | Restart             // the device has reset and is configured
    | Update(number: nat) // the firmware reports a number
    | Use                 // the device sends a message
    | Loss                // the file is lost or damaged

  function Block(n: nat): nat {
    n / SEQ_BLOCK
  }

  /** What is assumed of the firmware: it uses no number beyond the block of the last it was told
      or has reported, and reports none from a block below its next. */
  predicate Allowed(g: Gateway, e: GatewayEvent) {
    match e
    case Update(n) => g.device.Some? && Block(g.device.value.next) <= Block(n)
    case Use => g.device.Some? && Block(g.device.value.next) <= Block(g.device.value.reported)
    case _ => true
  }

  function Apply(g: Gateway, e: GatewayEvent): Gateway
    requires Allowed(g, e)
  {
    match e
    case Restart => var n := Start(g.record); Gateway(Some(n), Some(Device(n, n)), g.used)
    case Update(n) => g.(record := Some(n), device := Some(g.device.value.(reported := n)))
    case Use =>
      var n := g.device.value.next;
      g.(device := Some(g.device.value.(next := n + 1)), used := g.used + [n])
    case Loss => g.(record := None)
  }

  ghost predicate Increasing(ns: seq<nat>) {
    forall i, j | 0 <= i < j < |ns| :: ns[i] < ns[j]
  }

  /** A restart that finds no record although numbers have been used. */
  predicate Forgets(g: Gateway, e: GatewayEvent) {
    e.Restart? && g.record.None? && g.used != []
  }

  /** A run of allowed events from one gateway to another, in which no restart forgets. */
  ghost predicate Runs(g: Gateway, es: seq<GatewayEvent>, h: Gateway)
    decreases es
  {
    if es == [] then g == h
    else Allowed(g, es[0]) && !Forgets(g, es[0]) && Runs(Apply(g, es[0]), es[1..], h)
  }

  /** The numbers used rise, below the next and within the recorded and the reported blocks. */
  ghost predicate Rising(g: Gateway) {
    && Increasing(g.used)
    && (g.record.Some? ==> forall n | n in g.used :: Block(n) <= Block(g.record.value))
    && (g.device.Some? ==>
        && (g.record.Some? ==> g.record.value == g.device.value.reported)
        && forall n | n in g.used :: n < g.device.value.next)
  }

  lemma IncreasingSnoc(ns: seq<nat>, n: nat)
    requires Increasing(ns) && forall m | m in ns :: m < n
    ensures Increasing(ns + [n])
  {
    var all := ns + [n];
    forall i, j | 0 <= i < j < |all| ensures all[i] < all[j] {
      assert ns[i] in ns;
    }
  }

  lemma StepKeepsRising(g: Gateway, e: GatewayEvent)
    requires Rising(g) && Allowed(g, e) && !Forgets(g, e)
    ensures Rising(Apply(g, e))
  {
    match e
    case Restart =>
      forall n | n in g.used ensures n < Start(g.record) && Block(n) <= Block(Start(g.record)) {
        assert Block(n) <= Block(g.record.value);
      }
    case Update(number) =>
      forall n | n in g.used ensures Block(n) <= Block(number) {
        assert n < g.device.value.next;
      }
    case Use =>
      var next := g.device.value.next;
      forall n | n in g.used + [next] ensures Block(n) <= Block(g.device.value.reported) {
        assert n in g.used ==> n < next;
      }
      IncreasingSnoc(g.used, next);
    case Loss =>
  }

  /** Across any number of restarts, in every run in which no restart forgets, each number is above
      all numbers before it. */
  lemma {:induction false} NumbersRise(g: Gateway, es: seq<GatewayEvent>, h: Gateway)
    requires Rising(g) && Runs(g, es, h)
    ensures Rising(h)
    decreases es
  {
    if es != [] {
      StepKeepsRising(g, es[0]);
      NumbersRise(Apply(g, es[0]), es[1..], h);
    }
  }

  /** The first number behind a restart is above every number used exactly when the restart finds a
      record, or nothing has been used: without a record the count starts at 0 again. */
  lemma RestartGoesOnAbove(g: Gateway)
    requires Rising(g)
    ensures Increasing(Apply(Apply(g, Restart), Use).used) <==> !Forgets(g, Restart)
  {
    var used := Apply(Apply(g, Restart), Use).used;
    assert used == g.used + [Start(g.record)];
    if Forgets(g, Restart) {
      assert used[0] >= 0 && used[|g.used|] == 0;
    } else {
      StepKeepsRising(g, Restart);
      StepKeepsRising(Apply(g, Restart), Use);
    }
  }

  /** A gateway that loses its file between two restarts uses the number 0 twice. */
  lemma LostRecordRepeats(g: Gateway)
    requires g == Gateway(None, None, [])
    ensures var a := Apply(Apply(g, Restart), Use); var b := Apply(Apply(Apply(a, Loss), Restart), Use);
      Rising(g) && Forgets(Apply(a, Loss), Restart) && b.used == [0, 0] && !Increasing(b.used)
  {
    var used := Apply(Apply(Apply(Apply(Apply(g, Restart), Use), Loss), Restart), Use).used;
    assert used == [0] + [0];
    assert used[0] == used[1];
  }

  // ---- Sender and receiver together

  /** What a peer has received of the gateway's messages, by their position among all the gateway
      ever sent, in any order, with losses and repeats. */
  ghost predicate Delivers(history: seq<CacheEvent>, src: nat, used: seq<nat>, arrived: seq<nat>) {
    && |Received(history, src)| == |arrived|
    && forall i | 0 <= i < |arrived| :: arrived[i] < |used| && Received(history, src)[i] == used[arrived[i]]
  }

  /** Across restarts of the gateway, a peer accepts its k-th message exactly when that is newer
      than every message that has arrived: a new message in order is accepted, and every duplicate
      and every message overtaken by a newer one is rejected. */
  lemma PeerAcceptsNewer(g: Gateway, es: seq<GatewayEvent>, h: Gateway, history: seq<CacheEvent>,
                         src: nat, arrived: seq<nat>, k: nat)
    requires Rising(g) && Runs(g, es, h)
    requires Delivers(history, src, h.used, arrived) && k < |h.used|
    ensures Newest(history, src, h.used[k]) <==> forall j | j in arrived :: j < k
  {
    NumbersRise(g, es, h);
    hide Received;
    var received := Received(history, src);
    if Newest(history, src, h.used[k]) {
      forall j | j in arrived ensures j < k {
        var i :| 0 <= i < |arrived| && arrived[i] == j;
        assert received[i] in received;
      }
    }
    if forall j | j in arrived :: j < k {
      forall n | n in received ensures n < h.used[k] {
        var i :| 0 <= i < |received| && received[i] == n;
        assert arrived[i] in arrived;
      }
    }
  }
}
