/** The handles of device keys and addresses: the gateway's two caches, and the tables of the
    radio device that they mirror. */
module Handles {
  import Finite
  import opened Options

  const MAX_DEVKEYS: nat := 10
  const MAX_ADDRESSES: nat := 30
  /** Handles are 16-bit numbers. */
  const HANDLES: nat := 0x1_0000

  type Key = nat
  type Address = nat
  type Handle = nat

  /** What the cache and the transmission need of a node. */
  datatype Node = Node(devkey: Key, address: Address)

  /** What a key handle stands for: the device key and the address it was added for. */
  datatype Binding = Binding(key: Key, address: Address)

  /** The key and address tables of the device. Its capacity is the gateway's: an addition needs
      a free slot, and one address has one device key. */
  class Device {
    var keys: map<Handle, Binding>
    var addresses: map<Handle, Address>

    constructor ()
      ensures keys == map[] && addresses == map[]
    {
      keys, addresses := map[], map[];
    }

    method DevkeyAdd(address: Address, key: Key) returns (h: Handle)
      requires |keys| < MAX_DEVKEYS
      requires forall i | i in keys :: keys[i].address != address
      modifies this`keys
      ensures h < HANDLES && h !in old(keys) && keys == old(keys)[h := Binding(key, address)]
    {
      Finite.Missing(keys.Keys, 0, HANDLES);
      h :| h < HANDLES && h !in keys;
      keys := keys[h := Binding(key, address)];
    }

    method DevkeyDelete(h: Handle)
      requires h in keys
      modifies this`keys
      ensures keys == old(keys) - {h}
    {
      keys := keys - {h};
    }

    method PublicationAdd(address: Address) returns (h: Handle)
      requires |addresses| < MAX_ADDRESSES
      modifies this`addresses
      ensures h < HANDLES && h !in old(addresses) && addresses == old(addresses)[h := address]
    {
      Finite.Missing(addresses.Keys, 0, HANDLES);
      h :| h < HANDLES && h !in addresses;
      addresses := addresses[h := address];
    }

    method PublicationRemove(h: Handle)
      requires h in addresses
      modifies this`addresses
      ensures addresses == old(addresses) - {h}
    {
      addresses := addresses - {h};
    }
  }

  // ---- Caches as lists in insertion order, and the tables they mirror

  datatype Slot<+V> = Slot(handle: Handle, value: V)

  function Drop<T>(s: seq<T>, i: nat): (r: seq<T>)
    requires i < |s|
    ensures |r| == |s| - 1
    ensures forall j | 0 <= j < |r| :: r[j] == if j < i then s[j] else s[j + 1]
  {
    s[..i] + s[i + 1..]
  }

  ghost predicate DistinctHandles<V>(es: seq<Slot<V>>) {
    forall i, j | 0 <= i < j < |es| :: es[i].handle != es[j].handle
  }

  predicate Holds<V(==)>(table: map<Handle, V>, e: Slot<V>) {
    e.handle in table && table[e.handle] == e.value
  }

  predicate Listed<V>(es: seq<Slot<V>>, h: Handle) {
    exists i :: 0 <= i < |es| && es[i].handle == h
  }

  /** The table holds the bindings of the slots and no others. */
  ghost predicate Mirrors<V>(es: seq<Slot<V>>, table: map<Handle, V>) {
    && |table| == |es|
    && DistinctHandles(es)
    && (forall i | 0 <= i < |es| :: Holds(table, es[i]))
    && (forall h | h in table :: Listed(es, h))
  }

  lemma DropDistinct<V>(es: seq<Slot<V>>, i: nat)
    requires DistinctHandles(es) && i < |es|
    ensures DistinctHandles(Drop(es, i))
    ensures forall j | 0 <= j < |es| - 1 :: Drop(es, i)[j].handle != es[i].handle
  {
  }

  lemma DropMirrors<V>(es: seq<Slot<V>>, i: nat, table: map<Handle, V>)
    requires Mirrors(es, table) && i < |es|
    ensures es[i].handle in table && Mirrors(Drop(es, i), table - {es[i].handle})
  {
    var ds, rest := Drop(es, i), table - {es[i].handle};
    DropDistinct(es, i);
    hide DistinctHandles;
    assert Holds(table, es[i]);
    assert rest.Keys == table.Keys - {es[i].handle};
    forall j | 0 <= j < |ds| ensures Holds(rest, ds[j]) {
      assert Holds(table, es[if j < i then j else j + 1]);
    }
    forall h | h in rest ensures Listed(ds, h) {
      assert Listed(es, h);
      var k :| 0 <= k < |es| && es[k].handle == h;
      assert ds[if k < i then k else k - 1].handle == h;
    }
  }

  lemma AddMirrors<V>(es: seq<Slot<V>>, e: Slot<V>, table: map<Handle, V>)
    requires Mirrors(es, table) && e.handle !in table
    ensures Mirrors(es + [e], table[e.handle := e.value])
  {
    var ns, more := es + [e], table[e.handle := e.value];
    assert more.Keys == table.Keys + {e.handle};
    forall j | 0 <= j < |ns| ensures Holds(more, ns[j]) {
      if j < |es| {
        assert Holds(table, es[j]);
      }
    }
    forall j | 0 <= j < |es| ensures es[j].handle != e.handle {
      assert Holds(table, es[j]);
    }
    forall h | h in more ensures Listed(ns, h) {
      if h == e.handle {
        assert ns[|es|].handle == h;
      } else {
        assert Listed(es, h);
        var k :| 0 <= k < |es| && es[k].handle == h;
        assert ns[k].handle == h;
      }
    }
  }

  lemma MirrorsAt<V>(es: seq<Slot<V>>, table: map<Handle, V>, i: nat)
    requires Mirrors(es, table) && i < |es|
    ensures Holds(table, es[i])
  {
  }

  lemma MirrorsValue<V>(es: seq<Slot<V>>, table: map<Handle, V>, h: Handle) returns (i: nat)
    requires Mirrors(es, table) && h in table
    ensures i < |es| && es[i] == Slot(h, table[h])
  {
    assert Listed(es, h);
    i :| 0 <= i < |es| && es[i].handle == h;
    assert Holds(table, es[i]);
  }

  lemma MirrorsSize<V>(es: seq<Slot<V>>, table: map<Handle, V>)
    requires Mirrors(es, table)
    ensures |table| == |es|
  {
  }

  // ---- The key cache

  type Entry = Slot<Binding>

  ghost predicate DistinctBindings(es: seq<Entry>) {
    forall i, j | 0 <= i < j < |es| ::
      es[i].value.key != es[j].value.key && es[i].value.address != es[j].value.address
  }

  /** The first position of a value in a list, or the length of the list. */
  function Find<T(==)>(s: seq<T>, x: T): (r: nat)
    ensures r <= |s|
    ensures r < |s| ==> s[r] == x
    ensures forall j | 0 <= j < r :: s[j] != x
  {
    if s == [] then 0 else if s[0] == x then 0 else 1 + Find(s[1..], x)
  }

  predicate HasKey(es: seq<Entry>, k: Key) {
    exists i :: 0 <= i < |es| && es[i].value.key == k
  }

  /** The key of `n` has been added to the cache: last, and in place of the entry for its address, if
      there is one, or of the oldest of a full cache. The others keep their order. */
  ghost predicate AddedTo(before: seq<Entry>, after: seq<Entry>, n: Node) {
    && after != [] && after[|after| - 1].value == Binding(n.devkey, n.address)
    && MadeRoom(before, after[..|after| - 1], n)
  }

  ghost predicate MadeRoom(before: seq<Entry>, kept: seq<Entry>, n: Node) {
    && (forall i | 0 <= i < |before| && before[i].value.address == n.address ::
          kept == before[..i] + before[i + 1..])
    && ((forall i | 0 <= i < |before| :: before[i].value.address != n.address) ==>
          kept == if |before| < MAX_DEVKEYS then before else before[1..])
  }

  lemma AddedKeeps(before: seq<Entry>, after: seq<Entry>, n: Node)
    requires AddedTo(before, after, n)
    ensures forall e | e in after :: e in before || e.value == Binding(n.devkey, n.address)
  {
    var kept := after[..|after| - 1];
    forall e | e in kept ensures e in before {
      if i :| 0 <= i < |before| && before[i].value.address == n.address {
        assert kept == before[..i] + before[i + 1..];
      }
    }
  }

  /** The address has been added: last, and in place of the oldest of a full cache. */
  ghost predicate AddedAddress(before: seq<Slot<Address>>, after: seq<Slot<Address>>, a: Address) {
    && after != [] && after[|after| - 1].value == a
    && after[..|after| - 1] == if |before| < MAX_ADDRESSES then before else before[1..]
  }

  lemma OneMakesRoom(es: seq<Entry>, k: nat, n: Node)
    requires DistinctBindings(es) && k < |es| && es[k].value.address == n.address
    ensures MadeRoom(es, Drop(es, k), n) && forall i | 0 <= i < |es| - 1 :: Drop(es, k)[i].value.address != n.address
  {
    assert forall i | 0 <= i < |es| && i != k :: es[i].value.address != n.address;
  }

  lemma RoomEnough(es: seq<Entry>, n: Node)
    requires |es| < MAX_DEVKEYS && forall i | 0 <= i < |es| :: es[i].value.address != n.address
    ensures MadeRoom(es, es, n)
  {
  }

  lemma OldestMakesRoom(es: seq<Entry>, n: Node)
    requires |es| >= MAX_DEVKEYS && forall i | 0 <= i < |es| :: es[i].value.address != n.address
    ensures MadeRoom(es, Drop(es, 0), n)
  {
    assert es[..0] + es[1..] == es[1..];
  }

  /** The binding of the entry a key has in the cache. */
  ghost predicate CachedFor(es: seq<Entry>, k: Key, a: Address) {
    exists i :: 0 <= i < |es| && es[i].value == Binding(k, a)
  }

  // ---- The manager

  class HandleManager {
    const device: Device
    var devkeys: seq<(Key, Handle)>
    var devkeysAddr: seq<Address>
    var addresses: seq<(Address, Handle)>
    ghost var entries: seq<Entry>
    ghost var slots: seq<Slot<Address>>

    /** The ordered dictionary and the address list agree position by position, and together
        are the key table of the device. */
    ghost predicate KeysValid()
      reads this, device
    {
      && |devkeys| == |devkeysAddr| == |entries| <= MAX_DEVKEYS
      && (forall i | 0 <= i < |entries| :: entries[i] == Slot(devkeys[i].1, Binding(devkeys[i].0, devkeysAddr[i])))
      && DistinctBindings(entries)
      && Mirrors(entries, device.keys)
    }

    ghost predicate AddressesValid()
      reads this, device
    {
      && |addresses| == |slots| <= MAX_ADDRESSES
      && (forall i | 0 <= i < |slots| :: slots[i] == Slot(addresses[i].1, addresses[i].0))
      && (forall i, j | 0 <= i < j < |slots| :: slots[i].value != slots[j].value)
      && Mirrors(slots, device.addresses)
    }

    ghost predicate Valid()
      reads this, device
    {
      KeysValid() && AddressesValid()
    }

    constructor (device: Device)
      requires device.keys == map[] && device.addresses == map[]
      ensures Valid() && this.device == device && entries == [] && slots == []
    {
      this.device := device;
      devkeys, devkeysAddr, addresses := [], [], [];
      entries, slots := [], [];
    }

    /** Take the entry at `i` out of the cache and out of the device. */
    method DeleteKey(i: nat)
      requires Valid() && i < |devkeys|
      modifies this`devkeys, this`devkeysAddr, this`entries, device`keys
      ensures Valid() && entries == Drop(old(entries), i)
      ensures old(devkeys)[i].1 in old(device.keys) && device.keys == old(device.keys) - {old(devkeys)[i].1}
    {
      hide Mirrors, DistinctHandles;
      DropMirrors(entries, i, device.keys);
      var h := devkeys[i].1;
      devkeysAddr := Drop(devkeysAddr, i);
      devkeys := Drop(devkeys, i);
      device.DevkeyDelete(h);
      entries := Drop(entries, i);
    }

    method AddKey(n: Node) returns (h: Handle)
      requires Valid() && |entries| < MAX_DEVKEYS
      requires forall i | 0 <= i < |entries| ::
                 entries[i].value.address != n.address && entries[i].value.key != n.devkey
      modifies this`devkeys, this`devkeysAddr, this`entries, device`keys
      ensures Valid() && h < HANDLES && entries == old(entries) + [Slot(h, Binding(n.devkey, n.address))]
      ensures h !in old(device.keys) && device.keys == old(device.keys)[h := Binding(n.devkey, n.address)]
    {
      hide Mirrors, DistinctHandles;
      MirrorsSize(entries, device.keys);
      forall g | g in device.keys ensures device.keys[g].address != n.address {
        var i := MirrorsValue(entries, device.keys, g);
      }
      h := device.DevkeyAdd(n.address, n.devkey);
      AddMirrors(entries, Slot(h, Binding(n.devkey, n.address)), old(device.keys));
      devkeys := devkeys + [(n.devkey, h)];
      devkeysAddr := devkeysAddr + [n.address];
      entries := entries + [Slot(h, Binding(n.devkey, n.address))];
    }

    /** A cached key is found in the cache. Otherwise at most one entry gives way: the one added
        for the same address, or the oldest of a full cache; and the new entry goes to the end.
        The handle is bound to the node's key, and to its address exactly if no entry for the
        key was made with another address. */
    method GetDevkeyHandle(n: Node) returns (h: Handle)
      requires Valid()
      modifies this`devkeys, this`devkeysAddr, this`entries, device`keys
      ensures Valid()
      ensures if HasKey(old(entries), n.devkey) then entries == old(entries) && device.keys == old(device.keys)
              else AddedTo(old(entries), entries, n) && entries[|entries| - 1].handle == h
      ensures h in device.keys && device.keys[h].key == n.devkey
      ensures device.keys[h].address == n.address <==>
                (HasKey(old(entries), n.devkey) ==> CachedFor(old(entries), n.devkey, n.address))
    {
      hide Mirrors, DistinctHandles;
      var keys := seq(|devkeys|, i requires 0 <= i < |devkeys| reads this => devkeys[i].0);
      var k := Find(keys, n.devkey);
      if k < |devkeys| {
        h := devkeys[k].1;
        assert entries[k].value.key == n.devkey;
        MirrorsAt(entries, device.keys, k);
        return;
      }
      assert !HasKey(entries, n.devkey) by {
        assert forall i | 0 <= i < |entries| :: keys[i] == entries[i].value.key;
      }
      MakeRoom(n);
      ghost var kept := entries;
      h := AddKey(n);
      assert entries[..|entries| - 1] == kept;
    }

    /** Before a key is added, the entry for its address goes, or else the oldest of a full cache. */
    method MakeRoom(n: Node)
      requires Valid() && !HasKey(entries, n.devkey)
      modifies this`devkeys, this`devkeysAddr, this`entries, device`keys
      ensures Valid() && MadeRoom(old(entries), entries, n) && |entries| < MAX_DEVKEYS
      ensures forall i | 0 <= i < |entries| ::
                entries[i].value.address != n.address && entries[i].value.key != n.devkey
    {
      hide Mirrors, DistinctHandles, MadeRoom;
      var index := Find(devkeysAddr, n.address);
      assert forall i | 0 <= i < |entries| :: entries[i].value.address == devkeysAddr[i];
      if index < |devkeysAddr| {
        OneMakesRoom(entries, index, n);
        DeleteKey(index);
      } else if |devkeys| >= MAX_DEVKEYS {
        OldestMakesRoom(entries, n);
        DeleteKey(0);
      } else {
        assert MadeRoom(entries, entries, n) by { RoomEnough(entries, n); }
      }
    }

    method DeleteOldestAddress()
      requires Valid() && addresses != []
      modifies this`addresses, this`slots, device`addresses
      ensures Valid() && slots == old(slots)[1..]
    {
      hide Mirrors, DistinctHandles;
      DropMirrors(slots, 0, device.addresses);
      assert Drop(slots, 0) == slots[1..];
      device.PublicationRemove(addresses[0].1);
      addresses := addresses[1..];
      slots := slots[1..];
    }

    method AddAddress(a: Address) returns (h: Handle)
      requires Valid() && |addresses| < MAX_ADDRESSES && forall i | 0 <= i < |slots| :: slots[i].value != a
      modifies this`addresses, this`slots, device`addresses
      ensures Valid() && h < HANDLES && slots == old(slots) + [Slot(h, a)]
      ensures h !in old(device.addresses) && device.addresses == old(device.addresses)[h := a]
    {
      hide Mirrors, DistinctHandles;
      MirrorsSize(slots, device.addresses);
      ghost var table := device.addresses;
      h := device.PublicationAdd(a);
      AddMirrors(slots, Slot(h, a), table);
      addresses := addresses + [(a, h)];
      slots := slots + [Slot(h, a)];
    }

    predicate HasAddress(a: Address)
      reads this
    {
      exists i :: 0 <= i < |addresses| && addresses[i].0 == a
    }

    /** The handle is bound to the address; the oldest entry of a full cache gives way. */
    method GetAddressHandle(a: Address) returns (h: Handle)
      requires Valid()
      modifies this`addresses, this`slots, device`addresses
      ensures Valid()
      ensures slots == if old(HasAddress(a)) then old(slots)
                       else (if |old(slots)| >= MAX_ADDRESSES then old(slots)[1..] else old(slots)) + [Slot(h, a)]
      ensures h in device.addresses && device.addresses[h] == a
    {
      hide Mirrors, DistinctHandles;
      var list := seq(|addresses|, i requires 0 <= i < |addresses| reads this => addresses[i].0);
      var k := Find(list, a);
      if k < |addresses| {
        h := addresses[k].1;
        assert slots[k].value == a;
        MirrorsAt(slots, device.addresses, k);
        return;
      }
      assert forall i | 0 <= i < |slots| :: list[i] == slots[i].value != a;
      if |addresses| >= MAX_ADDRESSES {
        DeleteOldestAddress();
      }
      h := AddAddress(a);
    }

    /** The node's transmission: with the two handles the device sends under the node's key to
        the node's address. */
    method SendNode(n: Node) returns (binding: Binding, destination: Address)
      requires Valid()
      modifies this, device
      ensures Valid()
      ensures if HasKey(old(entries), n.devkey) then entries == old(entries) else AddedTo(old(entries), entries, n)
      ensures if old(HasAddress(n.address)) then slots == old(slots) else AddedAddress(old(slots), slots, n.address)
      ensures destination == n.address && binding.key == n.devkey
      ensures binding.address == n.address <==>
                (HasKey(old(entries), n.devkey) ==> CachedFor(old(entries), n.devkey, n.address))
    {
      hide Mirrors, DistinctHandles, DistinctBindings, AddedTo;
      var keyHandle := GetDevkeyHandle(n);
      var addressHandle := GetAddressHandle(n.address);
      binding := device.keys[keyHandle];
      destination := device.addresses[addressHandle];
    }

    /** A packet to an address: it goes out under the application key. */
    method SendAddr(a: Address) returns (destination: Address)
      requires Valid()
      modifies this`addresses, this`slots, device`addresses
      ensures Valid() && destination == a
    {
      hide Mirrors, DistinctHandles;
      var addressHandle := GetAddressHandle(a);
      destination := device.addresses[addressHandle];
    }

    /** A run of transmissions to nodes of different keys and addresses leaves those sent to last in
        the caches, in order: ten keys and thirty addresses. */
    method SendEach(ns: seq<Node>)
      requires Valid() && entries == [] && slots == []
      requires forall i, j | 0 <= i < j < |ns| :: ns[i].devkey != ns[j].devkey && ns[i].address != ns[j].address
      modifies this, device
      ensures Valid()
      ensures |entries| == if |ns| < MAX_DEVKEYS then |ns| else MAX_DEVKEYS
      ensures forall i | 0 <= i < |entries| ::
                var n := ns[|ns| - |entries| + i]; entries[i].value == Binding(n.devkey, n.address)
      ensures |slots| == if |ns| < MAX_ADDRESSES then |ns| else MAX_ADDRESSES
      ensures forall i | 0 <= i < |slots| :: slots[i].value == ns[|ns| - |slots| + i].address
    {
      hide Mirrors, DistinctHandles, DistinctBindings, AddedTo, AddedAddress;
      for k := 0 to |ns|
        invariant Valid()
        invariant LastKeys(entries, ns[..k]) && LastAddresses(slots, ns[..k])
      {
        assert !HasKey(entries, ns[k].devkey);
        assert !HasAddress(ns[k].address) by {
          assert forall i | 0 <= i < |slots| :: addresses[i].0 == slots[i].value != ns[k].address;
        }
        ghost var keys, list := entries, slots;
        hide LastKeys, LastAddresses;
        var b, d := SendNode(ns[k]);
        assert ns[..k + 1] == ns[..k] + [ns[k]];
        LastKeysNext(keys, entries, ns[..k], ns[k]);
        LastAddressesNext(list, slots, ns[..k], ns[k]);
      }
      assert ns[..|ns|] == ns;
    }

    /** Any run of transmissions to addresses and to nodes that do not share a device key: every
        packet goes where it should, and to a node under the node's own key, bound to its own
        address. */
    method SendAll(ds: seq<Destination>) returns (out: seq<Packet>)
      requires Valid() && entries == []
      requires forall i, j | 0 <= i < |ds| && 0 <= j < |ds| && ds[i].ToNode? && ds[j].ToNode? &&
                 ds[i].node.devkey == ds[j].node.devkey :: ds[i].node.address == ds[j].node.address
      modifies this, device
      ensures Valid() && |out| == |ds|
      ensures forall i | 0 <= i < |ds| :: out[i] == Intended(ds[i])
    {
      hide Mirrors, DistinctHandles, DistinctBindings;
      out := [];
      for k := 0 to |ds|
        invariant Valid() && |out| == k
        invariant forall e | e in entries :: Of(e, ds[..k])
        invariant forall i | 0 <= i < k :: out[i] == Intended(ds[i])
      {
        ghost var before := entries;
        match ds[k] {
          case ToAddress(a) =>
            var d := SendAddr(a);
            out := out + [Packet(None, d)];
          case ToNode(n) =>
            var b, d := SendNode(n);
            if HasKey(before, n.devkey) {
              OwnEntry(before, ds, k, n);
            } else {
              AddedKeeps(before, entries, n);
            }
            out := out + [Packet(Some(b), d)];
        }
        forall e | e in entries ensures Of(e, ds[..k + 1]) {
          if e in before {
            OfMore(e, ds[..k], ds[..k + 1]);
          } else {
            assert ds[..k + 1][k] == ds[k];
          }
        }
      }
    }
  }

  /** The entries are those of the last nodes, as many as there are room for. */
  ghost predicate LastKeys(es: seq<Entry>, ns: seq<Node>) {
    && |es| == (if |ns| < MAX_DEVKEYS then |ns| else MAX_DEVKEYS)
    && forall i | 0 <= i < |es| ::
         var n := ns[|ns| - |es| + i]; es[i].value == Binding(n.devkey, n.address)
  }

  ghost predicate LastAddresses(es: seq<Slot<Address>>, ns: seq<Node>) {
    && |es| == (if |ns| < MAX_ADDRESSES then |ns| else MAX_ADDRESSES)
    && forall i | 0 <= i < |es| :: es[i].value == ns[|ns| - |es| + i].address
  }

  lemma LastKeysNext(before: seq<Entry>, after: seq<Entry>, ns: seq<Node>, n: Node)
    requires LastKeys(before, ns) && AddedTo(before, after, n)
    requires forall i | 0 <= i < |ns| :: ns[i].address != n.address
    ensures LastKeys(after, ns + [n])
  {
    forall i | 0 <= i < |before| ensures before[i].value.address != n.address {
      assert before[i].value.address == ns[|ns| - |before| + i].address;
    }
    LastKeysShift(before, after, ns, n);
  }

  lemma LastKeysShift(before: seq<Entry>, after: seq<Entry>, ns: seq<Node>, n: Node)
    requires LastKeys(before, ns) && after != [] && after[|after| - 1].value == Binding(n.devkey, n.address)
    requires after[..|after| - 1] == if |before| < MAX_DEVKEYS then before else before[1..]
    ensures LastKeys(after, ns + [n])
  {
    forall i | 0 <= i < |after| - 1
      ensures var m := (ns + [n])[|ns| + 1 - |after| + i]; after[i].value == Binding(m.devkey, m.address)
    {
      assert after[i] == after[..|after| - 1][i];
    }
  }

  lemma LastAddressesNext(before: seq<Slot<Address>>, after: seq<Slot<Address>>, ns: seq<Node>, n: Node)
    requires LastAddresses(before, ns) && AddedAddress(before, after, n.address)
    ensures LastAddresses(after, ns + [n])
  {
    forall i | 0 <= i < |after| - 1 ensures after[i].value == (ns + [n])[|ns| + 1 - |after| + i].address {
      assert after[i] == after[..|after| - 1][i];
    }
  }

  /** What a transmission is for, and how its packet leaves: a packet to an address goes under the
      application key. */
  datatype Destination = ToNode(node: Node) | ToAddress(address: Address)

  datatype Packet = Packet(binding: Option<Binding>, destination: Address)

  function Intended(d: Destination): Packet {
    match d
    case ToNode(n) => Packet(Some(Binding(n.devkey, n.address)), n.address)
    case ToAddress(a) => Packet(None, a)
  }

  /** An entry for the key of a node was made for its address. */
  lemma OwnEntry(entries: seq<Entry>, ds: seq<Destination>, k: nat, n: Node)
    requires k < |ds| && ds[k] == ToNode(n) && HasKey(entries, n.devkey)
    requires forall e | e in entries :: Of(e, ds[..k])
    requires forall i, j | 0 <= i < |ds| && 0 <= j < |ds| && ds[i].ToNode? && ds[j].ToNode? &&
               ds[i].node.devkey == ds[j].node.devkey :: ds[i].node.address == ds[j].node.address
    ensures CachedFor(entries, n.devkey, n.address)
  {
    var i :| 0 <= i < |entries| && entries[i].value.key == n.devkey;
    assert entries[i] in entries && Of(entries[i], ds[..k]);
    assert entries[i].value == Binding(n.devkey, n.address);
  }

  /** Two nodes with one device key and different addresses: the second packet goes to its node, but
      under a key bound to another address. */
  method SharedKey(m: HandleManager, n: Node, other: Node) returns (binding: Binding, destination: Address)
    requires m.Valid() && m.entries == [] && n.devkey == other.devkey && n.address != other.address
    modifies m, m.device
    ensures m.Valid() && destination == other.address
    ensures binding.key == other.devkey && binding.address != other.address
  {
    hide Mirrors, DistinctHandles, DistinctBindings;
    var b, d := m.SendNode(n);
    var last := m.entries[|m.entries| - 1];
    assert HasKey(m.entries, other.devkey) && forall e | e in m.entries :: e.value == last.value;
    binding, destination := m.SendNode(other);
  }

  /** A node with the address of another and a key of its own, as after it was provisioned again: its
      key takes the place of the other's, and the entry in between stays. */
  method NewKey(m: HandleManager, n: Node, between: Node, again: Node)
    requires m.Valid() && m.entries == []
    requires n.address == again.address != between.address
    requires n.devkey != between.devkey && n.devkey != again.devkey && between.devkey != again.devkey
    modifies m, m.device
    ensures m.Valid() && |m.entries| == 2
    ensures m.entries[0].value == Binding(between.devkey, between.address)
    ensures m.entries[1].value == Binding(again.devkey, again.address)
  {
    hide Mirrors, DistinctHandles, DistinctBindings;
    var b, d := m.SendNode(n);
    assert |m.entries| == 1;
    b, d := m.SendNode(between);
    assert |m.entries| == 2 && m.entries[0] == m.entries[..1][0];
    ghost var before := m.entries;
    b, d := m.SendNode(again);
    assert m.entries[..|m.entries| - 1] == before[..0] + before[1..] == [before[1]];
    assert m.entries[0] == m.entries[..|m.entries| - 1][0];
  }

  /** The entry was made for one of the nodes. */
  predicate Of(e: Entry, ds: seq<Destination>) {
    exists j :: 0 <= j < |ds| && ds[j].ToNode? && e.value == Binding(ds[j].node.devkey, ds[j].node.address)
  }

  lemma OfMore(e: Entry, a: seq<Destination>, b: seq<Destination>)
    requires Of(e, a) && a <= b
    ensures Of(e, b)
  {
    var j :| 0 <= j < |a| && a[j].ToNode? && e.value == Binding(a[j].node.devkey, a[j].node.address);
    assert b[j] == a[j];
  }
}
