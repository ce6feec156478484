/** The provisioning manager with its provisioner: methods that carry out the functions of
    ProvisioningSpec on the objects they share. */
module Provisioning {
  import opened Options
  import opened ReplayProtection
  import Spec = ProvisioningSpec
  import opened ProvisioningSpec

  /** The node database, which keeps one entry a hardware address. */
  class Database {
    var nodes: map<string, nat>

    constructor (nodes: map<string, nat>)
      ensures this.nodes == nodes
    {
      this.nodes := nodes;
    }

    method StoreNode(mac: string, address: nat)
      modifies this
      ensures nodes == old(nodes)[mac := address]
    {
      nodes := nodes[mac := address];
    }

    method RemoveNode(mac: string)
      modifies this
      ensures nodes == old(nodes) - {mac}
    {
      nodes := nodes - {mac};
    }
  }

  /** The manager and its provisioner in one object, since each calls the other. */
  class ProvManager {
    const nodeDb: Database
    const replayCache: ReplayCache
    var scanning: bool
    var provisioning: bool
    var provOnlyOne: bool
    var provFilter: Filter
    var node: Option<Target>
    var handling: bool // the handler of provisioning events is registered
    var timed: bool    // the handler of the scan timeout is registered
    var sent: seq<Command>

    ghost function Repr(): set<object> {
      {this, nodeDb, replayCache}
    }

    ghost predicate Valid()
      reads Repr()
    {
      replayCache.Valid() && (handling ==> node.Some?)
    }

    ghost function View(): State
      reads Repr()
    {
      State(scanning, provisioning, provOnlyOne, provFilter, node, handling, timed,
            nodeDb.nodes, replayCache.history, sent)
    }

    constructor (nodeDb: Database, replayCache: ReplayCache)
      requires replayCache.Valid()
      ensures Valid() && this.nodeDb == nodeDb && this.replayCache == replayCache
      ensures View() == Initial().(nodes := nodeDb.nodes, history := replayCache.history)
    {
      this.nodeDb := nodeDb;
      this.replayCache := replayCache;
      scanning, provisioning, provOnlyOne := false, false, false;
      provFilter := Filter([], []);
      node := None;
      handling, timed := false, false;
      sent := [];
    }

    method SendMsg(c: Command)
      requires Valid()
      modifies this
      ensures Valid() && View() == Spec.Sent(old(View()), [c])
    {
      sent := sent + [c];
    }

    method StartScan(filter: Filter, timeout: bool, one: bool, listener: bool)
      requires Valid()
      modifies this
      ensures Valid() && View() == StartScanning(old(View()), filter, timeout, one, listener)
    {
      provOnlyOne := one;
      if scanning || listener {
        return;
      }
      scanning := true;
      provFilter := filter;
      if timeout {
        timed := true;
      }
      SendMsg(ScanStart);
    }

    method StopScan()
      requires Valid()
      modifies this
      ensures Valid() && View() == StopScanning(old(View()))
    {
      if !scanning {
        return;
      }
      scanning := false;
      SendMsg(ScanStop);
    }

    /** The lowest address that no stored node has, if there is one. */
    method ObtainUnicastAddr() returns (address: Option<nat>)
      requires Valid()
      modifies this
      ensures Valid()
      ensures address.Some? ==>
                && AddressOk(address.value)
                && (forall m | m in nodeDb.nodes :: nodeDb.nodes[m] != address.value)
                && (forall b: nat | NODE_START_UNICAST <= b < address.value :: b in nodeDb.nodes.Values)
      ensures address.None? ==> forall b: nat | AddressOk(b) :: b in nodeDb.nodes.Values
      ensures View() == if address.Some? then Spec.Sent(old(View()), [ClearReplayCache(address.value)]) else old(View())
      ensures address == FirstFree(Used(old(View())), NODE_START_UNICAST)
    {
      var used := nodeDb.nodes.Values;
      var a := NODE_START_UNICAST;
      while a < ADDRESS_END
        invariant NODE_START_UNICAST <= a <= ADDRESS_END
        invariant forall b: nat | NODE_START_UNICAST <= b < a :: b in used
        invariant FirstFree(used, NODE_START_UNICAST) == FirstFree(used, a)
      {
        if a !in used {
          SendMsg(ClearReplayCache(a));
          return Some(a);
        }
        a := a + 1;
      }
      address := None;
    }

    /** Hand a node to the device, unless one is being provisioned. */
    method Provision(mac: string)
      requires Valid()
      modifies this, replayCache
      ensures Valid()
      ensures View() == if old(provisioning) then old(View()) else StartProvisioning(old(View()), mac)
    {
      hide FirstFree, HandOver;
      if provisioning {
        return;
      }
      SendMsg(ScanStop);
      provisioning := true;
      var address := ObtainUnicastAddr();
      if address.None? {
        return;
      }
      ProvStart(mac, address.value);
    }

    method ProvStart(mac: string, address: nat)
      requires Valid()
      modifies this, replayCache
      ensures Valid() && View() == HandOver(old(View()), mac, address)
    {
      node := Some(Target(mac, address));
      replayCache.RemoveNode(address);
      SendMsg(KeypairSet);
      handling := true;
      SendMsg(Command.Provision(mac, address));
      assert old(sent) + [KeypairSet] + [Command.Provision(mac, address)]
          == old(sent) + [KeypairSet, Command.Provision(mac, address)];
    }

    method EndProvisioning()
      requires Valid()
      modifies this
      ensures Valid() && View() == EndProvision(old(View()))
    {
      provisioning := false;
      if provOnlyOne {
        StopScan();
      }
      if scanning {
        SendMsg(ScanStart);
      }
    }

    /** An announcement reaches the manager while it scans. */
    method UnprovHandler(mac: string, uuid: string)
      requires Valid()
      modifies Repr()
      ensures Valid() && View() == Announced(old(View()), mac, uuid)
    {
      hide StartProvisioning;
      if mac in nodeDb.nodes {
        nodeDb.RemoveNode(mac);
      } else {
        assert nodeDb.nodes - {mac} == nodeDb.nodes;
      }
      if !provisioning && Passes(provFilter, mac, uuid) {
        Provision(mac);
      }
    }

    /** An event of the link reaches the provisioner while it provisions. */
    method ProvHandler(e: Event)
      requires Valid() && handling
      modifies Repr()
      ensures Valid()
      ensures e == LinkClosed || e == Capabilities || e == Ecdh || e == Complete ==> View() == Handle(old(View()), e)
      ensures !(e == LinkClosed || e == Capabilities || e == Ecdh || e == Complete) ==> View() == old(View())
    {
      match e {
        case LinkClosed =>
          handling := false;
          EndProvisioning();
          node := None;
        case Capabilities => SendMsg(OobUse);
        case Ecdh => SendMsg(EcdhSecret);
        case Complete => nodeDb.StoreNode(node.value.mac, node.value.address);
        case _ =>
      }
    }

    method ScanTimeoutHandler()
      requires Valid() && timed
      modifies this
      ensures Valid() && View() == Handle(old(View()), ScanTimeout)
    {
      StopScan();
      timed := false;
    }

    /** An event reaches the handlers that are registered; on every step the addresses of the stored
        nodes stay distinct. */
    method Dispatch(e: Event)
      requires Valid() && Inv(View())
      modifies Repr()
      ensures Valid() && View() == Handle(old(View()), e) && Inv(View())
    {
      StepKeepsInv(View(), Label.Dispatch(e));
      hide Announced, EndProvision, Inv;
      match e {
        case Announcement(mac, uuid) =>
          if scanning {
            UnprovHandler(mac, uuid);
          }
        case ScanTimeout =>
          if timed {
            ScanTimeoutHandler();
          }
        case _ =>
          if handling {
            ProvHandler(e);
          }
      }
    }
  }
}
