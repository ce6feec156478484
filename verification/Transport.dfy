/** The transport model's objects: they carry out the functions of TransportSpec. */
module Transport {
  import opened Options
  import opened Bytes
  import opened TransportSpec

  /** A packet under reassembly, one slot a fragment. */
  class FragmentedPkt {
    const length: nat
    const packets: array<seq<Byte>>

    ghost function View(): Packet
      reads packets
    {
      Packet(length, packets[..])
    }

    constructor (length: nat)
      ensures fresh(packets) && View() == NewPacket(length)
    {
      this.length := length;
      packets := new seq<Byte>[SlotCount(length)](_ => []);
    }

    method AddData(number: nat, data: seq<Byte>) returns (fault: Option<Fault>)
      modifies packets
      ensures match Add(old(View()), number, data)
              case Ok(p) => View() == p && fault == None
              case Err(f) => View() == old(View()) && fault == Some(f)
    {
      if number >= length {
        return Some(OutsideRange);
      }
      if number >= packets.Length {
        return Some(NoSlot);
      }
      if |packets[number]| == 0 {
        packets[number] := data;
      }
      fault := None;
    }

    method IsComplete() returns (complete: bool)
      ensures complete == Complete(View())
    {
      for i := 0 to packets.Length
        invariant forall j | 0 <= j < i :: packets[j] != []
      {
        if packets[i] == [] {
          assert View().slots[i] == [];
          return false;
        }
      }
      complete := true;
    }

    method GetData() returns (data: Option<seq<Byte>>)
      ensures data == Payload(View())
    {
      var complete := IsComplete();
      if !complete {
        return None;
      }
      var bytes: seq<Byte> := [];
      for i := 0 to packets.Length
        invariant bytes == Concat(packets[..i])
      {
        assert packets[..i + 1] == packets[..i] + [packets[i]];
        ConcatSnoc(packets[..i], packets[i]);
        bytes := bytes + packets[i];
      }
      assert packets[..packets.Length] == packets[..];
      data := Some(bytes);
    }
  }

  /** The packets under reassembly, one a source. */
  class TransportModel {
    var frpkt: map<nat, FragmentedPkt>

    ghost function Repr(): set<object>
      reads this
    {
      {this} + set src | src in frpkt :: frpkt[src].packets
    }

    /** No two sources share their slots. */
    ghost predicate Valid()
      reads this
    {
      forall a, b | a in frpkt && b in frpkt && a != b :: frpkt[a].packets != frpkt[b].packets
    }

    ghost function View(): Packets
      reads Repr()
    {
      map src | src in frpkt :: frpkt[src].View()
    }

    constructor ()
      ensures Valid() && fresh(Repr()) && View() == map[]
    {
      frpkt := map[];
    }

    method DataHandler(src: nat, event: Event) returns (outcome: Outcome)
      requires Valid()
      modifies Repr()
      ensures Valid() && fresh(Repr() - old(Repr()))
      ensures (View(), outcome) == Handle(old(View()), src, event)
    {
      hide Payload, Add;
      outcome := Quiet;
      match event {
        case Start(length) =>
          var packet := new FragmentedPkt(length);
          frpkt := frpkt[src := packet];
          assert View() == old(View())[src := NewPacket(length)];
        case Fragment(number, data) =>
          if src !in frpkt {
            return Raised(NoStart);
          }
          var fault := frpkt[src].AddData(number, data);
          assert View() == old(View())[src := frpkt[src].View()];
          if fault.Some? {
            assert View() == old(View());
            outcome := Raised(fault.value);
          }
        case End(_) =>
          if src !in frpkt {
            return Raised(NoStart);
          }
          var complete := frpkt[src].IsComplete();
          if complete {
            var data := frpkt[src].GetData();
            SomePayload(frpkt[src].View());
            outcome := Delivered(data.value);
          } else {
            NoPayload(frpkt[src].View());
            outcome := Incomplete;
          }
          assert View() == old(View())[src := frpkt[src].View()] == old(View());
        case Other =>
          SameView(old(View()), src);
      }
    }
  }

  lemma SomePayload(p: Packet)
    requires Complete(p)
    ensures Payload(p).Some?
  {
  }

  lemma NoPayload(p: Packet)
    requires !Complete(p)
    ensures Payload(p).None?
  {
  }

  lemma SameView(ps: Packets, src: nat)
    ensures src in ps ==> ps[src := ps[src]] == ps
  {
  }

  /** Send a payload: in one message up to seven bytes, and otherwise in a start, one message a
      fragment and an end. A length that does not fit two bytes fails before anything is sent. */
  method SendMsg(data: seq<Byte>) returns (msgs: seq<seq<Byte>>, ok: bool)
    ensures ok <==> |data| < 0x1_0000
    ensures !ok ==> msgs == []
    ensures ok && |data| <= 7 ==> |msgs| == 1 && Deserialize(msgs[0]) == Single(data)
    ensures ok && |data| > 7 ==> IsStream(msgs, data)
  {
    hide Deserialize, Piece;
    if |data| <= 7 {
      SingleMessage(data);
      return [SEND + data], true;
    }
    if |data| >= 0x1_0000 {
      return [], false;
    }
    var n := SlotCount(|data|);
    msgs := [FRAGMENT_START + Le16(|data|)];
    StartMessage(|data|);
    for i := 0 to n
      invariant |msgs| == i + 1 && Deserialize(msgs[0]) == Part(Start(|data|))
      invariant forall j: nat | j < i :: Deserialize(msgs[j + 1]) == Part(Fragment(j, Piece(data, j)))
    {
      var from := i * FRAG_SIZE;
      var to := if (i + 1) * FRAG_SIZE <= |data| then (i + 1) * FRAG_SIZE else |data|;
      PieceIs(data, i, from, to);
      DataMessage(i, data[from..to]);
      msgs := msgs + [FRAGMENT_DATA + Le16(i) + data[from..to]];
    }
    EndMessage();
    msgs := msgs + [FRAGMENT_END + [5, 1, 2, 3, 4, 5]];
    ok := true;
  }

  lemma SingleMessage(data: seq<Byte>)
    ensures Deserialize(SEND + data) == Single(data)
  {
    VendorOpcode(0xC2, data);
  }

  lemma PieceIs(data: seq<Byte>, i: nat, from: nat, to: nat)
    requires i < SlotCount(|data|) && from == i * FRAG_SIZE
    requires to == if (i + 1) * FRAG_SIZE <= |data| then (i + 1) * FRAG_SIZE else |data|
    ensures from <= to <= |data| && data[from..to] == Piece(data, i)
  {
  }
}
