/** Provisioning: scanning, the choice of an address, and what every run keeps. */
module ProvisioningSpec {
  import Finite
  import opened Options
  import opened ReplayProtection
  import opened HexText

  const NODE_START_UNICAST: nat := 21
  const CACHE_SIZE: nat := 0x7000
  const ADDRESS_END: nat := NODE_START_UNICAST + CACHE_SIZE

  /** Prefixes of the identifiers and of the hardware addresses to provision, as lower-case
      hexadecimal digits. */
  datatype Filter = Filter(uuids: seq<string>, macs: seq<string>)

  predicate Passes(f: Filter, mac: string, uuid: string) {
    (exists p | p in f.uuids :: p <= uuid) || (exists p | p in f.macs :: p <= mac)
  }

  datatype Command =
    | ScanStart
    | ScanStop
    | ClearReplayCache(address: nat)
    | KeypairSet
    | Provision(mac: string, address: nat)
    | OobUse
    | EcdhSecret

  datatype Target = Target(mac: string, address: nat)

  /** The flags of the manager, the node of the provisioner, whether its handler and the handler of
      the scan timeout are registered, the stored nodes with their addresses, the replay cache and
      what has been sent. The handler of announcements is registered while scanning. */
  datatype State = State(
    scanning: bool, provisioning: bool, onlyOne: bool, filter: Filter,
    target: Option<Target>, handling: bool, timed: bool,
    nodes: map<string, nat>, history: seq<CacheEvent>, sent: seq<Command>)

  datatype Event =
    | Announcement(mac: string, uuid: string)
    | LinkClosed
    | Capabilities
    | Ecdh
    | Complete
    | ScanTimeout
    | Unrelated      // among them the established link and a failure, which are only logged

  function Sent(s: State, cs: seq<Command>): State {
    s.(sent := s.sent + cs)
  }

  // ---- The operations

  function StartScanning(s: State, filter: Filter, timeout: bool, one: bool, listener: bool): State {
    if s.scanning || listener then s.(onlyOne := one)
    else Sent(s.(onlyOne := one, scanning := true, filter := filter, timed := s.timed || timeout), [ScanStart])
  }

  function StopScanning(s: State): State {
    if !s.scanning then s else Sent(s.(scanning := false), [ScanStop])
  }

  function FirstFree(used: set<nat>, from: nat): (a: Option<nat>)
    decreases ADDRESS_END - from
  {
    if from >= ADDRESS_END then None else if from !in used then Some(from) else FirstFree(used, from + 1)
  }

  function Used(s: State): set<nat> {
    s.nodes.Values
  }

  /** The commands that hand a node with its address to the device. */
  function HandOver(s: State, mac: string, a: nat): State {
    Sent(s.(target := Some(Target(mac, a)), handling := true, history := s.history + [Removal(a)]),
         [KeypairSet, Provision(mac, a)])
  }

  /** Take the lowest free address, forget what the replay cache knows of it and hand the node to
      the device. Without a free address only the flag of the manager changes. */
  function StartProvisioning(s: State, mac: string): State {
    var begun := Sent(s, [ScanStop]).(provisioning := true);
    match FirstFree(Used(s), NODE_START_UNICAST)
    case None => begun
    case Some(a) => HandOver(Sent(begun, [ClearReplayCache(a)]), mac, a)
  }

  function Announced(s: State, mac: string, uuid: string): State {
    var t := s.(nodes := s.nodes - {mac});
    if !s.provisioning && Passes(s.filter, mac, uuid) then StartProvisioning(t, mac) else t
  }

  function EndProvision(s: State): State {
    var t := s.(provisioning := false);
    var u := if t.onlyOne then StopScanning(t) else t;
    if u.scanning then Sent(u, [ScanStart]) else u
  }

  /** An event reaches the handlers that are registered. */
  function Handle(s: State, e: Event): State {
    match e
    case Announcement(mac, uuid) => if s.scanning then Announced(s, mac, uuid) else s
    case LinkClosed => if s.handling then EndProvision(s.(handling := false)).(target := None) else s
    case Capabilities => if s.handling then Sent(s, [OobUse]) else s
    case Ecdh => if s.handling then Sent(s, [EcdhSecret]) else s
    case Complete =>
      if s.handling && s.target.Some? then s.(nodes := s.nodes[s.target.value.mac := s.target.value.address]) else s
    case ScanTimeout => if s.timed then StopScanning(s).(timed := false) else s
    case Unrelated => s
  }

  /** Everything that happens: events, calls of the application, the removal of a stored node, and
      messages and removals that reach the replay cache. */
  datatype Label =
    | Dispatch(event: Event)
    | StartScan(filter: Filter, timeout: bool, one: bool, listener: bool)
    | StopScan
    | RemoveNode(mac: string)
    | Cache(entry: CacheEvent)

  function Step(s: State, l: Label): State {
    match l
    case Dispatch(e) => Handle(s, e)
    case StartScan(filter, timeout, one, listener) => StartScanning(s, filter, timeout, one, listener)
    case StopScan => StopScanning(s)
    case RemoveNode(mac) => s.(nodes := s.nodes - {mac})
    case Cache(e) => s.(history := s.history + [e])
  }

  function Run(s: State, ls: seq<Label>): State {
    if ls == [] then s else Step(Run(s, ls[..|ls| - 1]), ls[|ls| - 1])
  }

  // ---- Addresses

  lemma {:induction false} FirstFreeIsLowest(used: set<nat>, from: nat)
    ensures var a := FirstFree(used, from);
      && (a.Some? ==> from <= a.value < ADDRESS_END && a.value !in used
                      && forall b: nat | from <= b < a.value :: b in used)
      && (a.None? ==> forall b: nat | from <= b < ADDRESS_END :: b in used)
    decreases ADDRESS_END - from
  {
    if from < ADDRESS_END && from in used {
      FirstFreeIsLowest(used, from + 1);
    }
  }

  lemma {:induction false} ValuesBound(nodes: map<string, nat>)
    ensures |nodes.Values| <= |nodes|
    decreases |nodes|
  {
    if nodes == map[] {
      assert nodes.Values == {};
    } else {
      var mac :| mac in nodes;
      var rest := nodes - {mac};
      ValuesBound(rest);
      forall a | a in nodes.Values ensures a in rest.Values + {nodes[mac]} {
        var m :| m in nodes && nodes[m] == a;
        assert m != mac ==> rest[m] == a;
      }
      Finite.SubsetSize(nodes.Values, rest.Values + {nodes[mac]});
      assert |rest.Values + {nodes[mac]}| <= |rest.Values| + 1;
      assert nodes.Keys == rest.Keys + {mac};
    }
  }

  /** With fewer than 0x7000 stored nodes an address is always found. */
  lemma AddressIsFound(s: State)
    requires |s.nodes| < CACHE_SIZE
    ensures FirstFree(Used(s), NODE_START_UNICAST).Some?
  {
    ValuesBound(s.nodes);
    FirstFreeIsLowest(Used(s), NODE_START_UNICAST);
    Finite.Missing(Used(s), NODE_START_UNICAST, ADDRESS_END);
  }

  predicate AddressOk(a: nat) {
    NODE_START_UNICAST <= a < ADDRESS_END
  }

  /** The addresses are unicast addresses: section 3.4.2.2 of the Bluetooth Mesh Profile v1.0.1. */
  predicate Unicast(a: nat) {
    0x0001 <= a <= 0x7FFF
  }

  ghost predicate NodesOk(nodes: map<string, nat>) {
    && (forall m | m in nodes :: AddressOk(nodes[m]) && Unicast(nodes[m]))
    && (forall m, n | m in nodes && n in nodes && m != n :: nodes[m] != nodes[n])
  }

  /** The address is good for the node, whether it is stored yet or not. */
  ghost predicate Reserved(nodes: map<string, nat>, target: Target) {
    AddressOk(target.address) && forall m | m in nodes && m != target.mac :: nodes[m] != target.address
  }

  /** The stored nodes and the one being provisioned have addresses of their own. */
  ghost predicate Inv(s: State) {
    && NodesOk(s.nodes)
    && (s.handling ==> s.target.Some? && s.provisioning)
    && (s.target.Some? ==> Reserved(s.nodes, s.target.value))
  }

  lemma RemovalKeepsInv(s: State, mac: string)
    requires Inv(s)
    ensures Inv(s.(nodes := s.nodes - {mac}))
  {
  }

  lemma ProvisioningKeepsInv(s: State, mac: string)
    requires Inv(s)
    ensures Inv(StartProvisioning(s, mac))
  {
    hide FirstFree;
    FirstFreeIsLowest(Used(s), NODE_START_UNICAST);
    assert forall m | m in s.nodes :: s.nodes[m] in Used(s);
  }

  lemma CompletionKeepsInv(s: State)
    requires Inv(s)
    ensures Inv(Handle(s, Complete))
  {
  }

  lemma StepKeepsInv(s: State, l: Label)
    requires Inv(s)
    ensures Inv(Step(s, l))
  {
    hide NodesOk, Reserved, StartProvisioning, Passes;
    match l
    case RemoveNode(mac) => RemovalKeepsInv(s, mac);
    case Dispatch(e) =>
      if e.Announcement? {
        RemovalKeepsInv(s, e.mac);
        ProvisioningKeepsInv(s.(nodes := s.nodes - {e.mac}), e.mac);
      } else if e.Complete? {
        CompletionKeepsInv(s);
      }
    case _ =>
  }

  /** Over every run of scans, announcements, provisionings, failures, closed links, timeouts and
      removals, the stored nodes keep pairwise different unicast addresses from 21 up. */
  lemma {:induction false} AddressesStayDistinct(s: State, ls: seq<Label>)
    requires Inv(s)
    ensures Inv(Run(s, ls))
  {
    if ls != [] {
      AddressesStayDistinct(s, ls[..|ls| - 1]);
      hide Inv, Step;
      StepKeepsInv(Run(s, ls[..|ls| - 1]), ls[|ls| - 1]);
    }
  }

  /** Until its link is closed, the node handed to the device is the only one: no other is
      provisioned, and none but it is stored. */
  lemma {:induction false} OneNodeAtATime(s: State, ls: seq<Label>)
    requires Inv(s) && s.handling && Label.Dispatch(LinkClosed) !in ls
    ensures var t := Run(s, ls);
      && t.handling && t.target == s.target && SendsOnly(s.sent, t.sent)
      && t.nodes.Keys <= s.nodes.Keys + {s.target.value.mac}
  {
    if ls != [] {
      var init, last := ls[..|ls| - 1], ls[|ls| - 1];
      assert last in ls;
      OneNodeAtATime(s, init);
      AddressesStayDistinct(s, init);
      hide Step, Provisions, Inv;
      LinkStep(Run(s, init), last);
    }
  }

  lemma LinkStep(s: State, l: Label)
    requires Inv(s) && s.handling && l != Label.Dispatch(LinkClosed)
    ensures var t := Step(s, l);
      && t.handling && t.target == s.target && SendsOnly(s.sent, t.sent)
      && t.nodes.Keys <= s.nodes.Keys + {s.target.value.mac}
  {
    hide StartProvisioning, EndProvision, Passes, NodesOk, Reserved, SendsOnly;
    SendsNothing(s.sent);
    forall c | c in {ScanStart, ScanStop, OobUse, EcdhSecret} ensures SendsOnly(s.sent, s.sent + [c]) {
      SendsOne(s.sent, c);
    }
  }

  lemma SendsNothing(sent: seq<Command>)
    ensures SendsOnly(sent, sent)
  {
  }

  lemma SendsOne(sent: seq<Command>, c: Command)
    requires !Provisions(c)
    ensures SendsOnly(sent, sent + [c])
  {
  }

  // ---- Scanning

  /** Whether the device scans after these commands. */
  function Scans(sent: seq<Command>): bool {
    if sent == [] then false
    else
      match sent[|sent| - 1]
      case ScanStart => true
      case ScanStop => false
      case _ => Scans(sent[..|sent| - 1])
  }

  lemma ScansNext(sent: seq<Command>, c: Command)
    ensures Scans(sent + [c]) == if c.ScanStart? then true else if c.ScanStop? then false else Scans(sent)
  {
    assert (sent + [c])[..|sent|] == sent;
  }

  /** The device scans only while the manager does, and then whenever no node is provisioned. */
  predicate ScanOk(s: State) {
    && (Scans(s.sent) ==> s.scanning)
    && (s.scanning && !s.provisioning ==> Scans(s.sent))
  }

  lemma ProvisioningKeepsScan(s: State, mac: string)
    requires ScanOk(s)
    ensures ScanOk(StartProvisioning(s, mac))
  {
    hide FirstFree;
    ScansNext(s.sent, ScanStop);
    var a := FirstFree(Used(s), NODE_START_UNICAST);
    if a.Some? {
      var sent := s.sent + [ScanStop];
      ScansNext(sent, ClearReplayCache(a.value));
      ScansNext(sent + [ClearReplayCache(a.value)], KeypairSet);
      ScansNext(sent + [ClearReplayCache(a.value)] + [KeypairSet], Provision(mac, a.value));
      assert StartProvisioning(s, mac).sent
          == sent + [ClearReplayCache(a.value)] + [KeypairSet] + [Provision(mac, a.value)];
    }
  }

  /** The commands that are sent one by one. */
  lemma CommandKeepsScan(s: State)
    ensures Scans(s.sent + [ScanStart]) && !Scans(s.sent + [ScanStop])
    ensures Scans(s.sent + [OobUse]) == Scans(s.sent + [EcdhSecret]) == Scans(s.sent)
  {
    ScansNext(s.sent, ScanStart);
    ScansNext(s.sent, ScanStop);
    ScansNext(s.sent, OobUse);
    ScansNext(s.sent, EcdhSecret);
  }

  lemma EndKeepsScan(s: State)
    requires ScanOk(s)
    ensures ScanOk(EndProvision(s))
  {
    var t := s.(provisioning := false);
    CommandKeepsScan(t);
    CommandKeepsScan(if t.onlyOne then StopScanning(t) else t);
    hide Scans;
  }

  lemma StepKeepsScan(s: State, l: Label)
    requires ScanOk(s)
    ensures ScanOk(Step(s, l))
  {
    CommandKeepsScan(s);
    hide StartProvisioning, EndProvision, Passes, Scans;
    if l.Dispatch? && l.event.Announcement? {
      ProvisioningKeepsScan(s.(nodes := s.nodes - {l.event.mac}), l.event.mac);
    } else if l.Dispatch? && l.event.LinkClosed? {
      EndKeepsScan(s.(handling := false));
    }
  }

  lemma {:induction false} ScanFollowsManager(s: State, ls: seq<Label>)
    requires ScanOk(s)
    ensures ScanOk(Run(s, ls))
  {
    if ls != [] {
      ScanFollowsManager(s, ls[..|ls| - 1]);
      hide ScanOk, Step;
      StepKeepsScan(Run(s, ls[..|ls| - 1]), ls[|ls| - 1]);
    }
  }

  /** A message from the address reaches the replay cache. */
  predicate Speaks(l: Label, address: nat) {
    l.Cache? && l.entry.Message? && l.entry.src == address
  }

  lemma SilenceStep(s: State, l: Label, address: nat)
    requires Received(s.history, address) == [] && !Speaks(l, address)
    ensures Received(Step(s, l).history, address) == []
  {
    hide StartProvisioning, Passes, Received;
    if l.Cache? {
      ReceivedSnoc(s.history, l.entry, address);
    } else if l.Dispatch? && l.event.Announcement? {
      ProvisioningSilence(s.(nodes := s.nodes - {l.event.mac}), l.event.mac, address);
    }
  }

  lemma ProvisioningSilence(s: State, mac: string, address: nat)
    requires Received(s.history, address) == []
    ensures Received(StartProvisioning(s, mac).history, address) == []
  {
    hide FirstFree, Received;
    var a := FirstFree(Used(s), NODE_START_UNICAST);
    if a.Some? {
      ReceivedSnoc(s.history, Removal(a.value), address);
    }
  }

  lemma {:induction false} SilenceRun(s: State, ls: seq<Label>, address: nat)
    requires Received(s.history, address) == [] && forall l | l in ls :: !Speaks(l, address)
    ensures Received(Run(s, ls).history, address) == []
  {
    if ls != [] {
      var init, last := ls[..|ls| - 1], ls[|ls| - 1];
      assert last in ls && forall l | l in init :: l in ls;
      SilenceRun(s, init, address);
      hide Step, Received, Speaks;
      SilenceStep(Run(s, init), last, address);
    }
  }

  /** A node handed to the device starts with a clean replay cache: in every run in which no message
      from its address has come in since, its first one is accepted, whatever its number and
      whoever had the address before. */
  lemma FirstMessageAccepted(s: State, mac: string, ls: seq<Label>, number: nat)
    requires FirstFree(Used(s), NODE_START_UNICAST).Some?
    requires var a := FirstFree(Used(s), NODE_START_UNICAST).value; forall l | l in ls :: !Speaks(l, a)
    ensures var t := StartProvisioning(s, mac);
      && t.target == Some(Target(mac, FirstFree(Used(s), NODE_START_UNICAST).value))
      && Newest(Run(t, ls).history, t.target.value.address, number)
  {
    hide FirstFree, Run;
    var a := FirstFree(Used(s), NODE_START_UNICAST).value;
    ReceivedSnoc(s.history, Removal(a), a);
    SilenceRun(StartProvisioning(s, mac), ls, a);
  }

  // ---- When the addresses run out

  /** The manager waits for a provisioning that nothing will end. */
  predicate Stuck(s: State) {
    s.provisioning && !s.handling
  }

  predicate Exhausted(s: State) {
    FirstFree(Used(s), NODE_START_UNICAST).None?
  }

  /** A step gets stuck exactly when a wanted node is announced, none is being provisioned, and the
      other nodes hold all addresses. */
  lemma GetsStuck(s: State, l: Label)
    requires Inv(s)
    ensures Stuck(Step(s, l)) <==>
              || Stuck(s)
              || (l.Dispatch? && l.event.Announcement? && s.scanning && !s.provisioning
                  && Passes(s.filter, l.event.mac, l.event.uuid)
                  && Exhausted(s.(nodes := s.nodes - {l.event.mac})))
  {
    hide FirstFree, Passes;
  }

  predicate Provisions(c: Command) {
    c.Provision?
  }

  /** What the step sends goes behind what was sent, and none of it provisions. */
  ghost predicate SendsOnly(before: seq<Command>, after: seq<Command>) {
    before <= after && forall i | |before| <= i < |after| :: !Provisions(after[i])
  }

  lemma StuckStep(s: State, l: Label)
    requires Stuck(s)
    ensures var t := Step(s, l); Stuck(t) && t.nodes.Keys <= s.nodes.Keys && SendsOnly(s.sent, t.sent)
  {
  }

  /** From then on no node is ever provisioned again, whatever nodes are removed and whatever the
      application does: the sends of the continuation hold no provisioning, and no node is added. */
  lemma {:induction false} StuckForever(s: State, ls: seq<Label>)
    requires Stuck(s)
    ensures var t := Run(s, ls);
      Stuck(t) && t.nodes.Keys <= s.nodes.Keys && SendsOnly(s.sent, t.sent)
  {
    if ls != [] {
      StuckForever(s, ls[..|ls| - 1]);
      hide Step, Provisions;
      StuckStep(Run(s, ls[..|ls| - 1]), ls[|ls| - 1]);
    }
  }

  // ---- A run that gets stuck

  function Initial(): State {
    State(false, false, false, Filter([], []), None, false, false, map[], [], [])
  }

  /** Every node is wanted. */
  const EVERY: Filter := Filter([""], [])

  /** A node is announced, provisioned and stored, and its link is closed. */
  function Commission(mac: string): seq<Label> {
    [Dispatch(Announcement(mac, "")), Dispatch(Complete), Dispatch(LinkClosed)]
  }

  /** Scan, and commission one node after the other. */
  function CommissionAll(macs: seq<string>): seq<Label> {
    if macs == [] then [StartScan(EVERY, false, false, false)]
    else CommissionAll(macs[..|macs| - 1]) + Commission(macs[|macs| - 1])
  }

  ghost predicate Different(macs: seq<string>) {
    forall i, j | 0 <= i < j < |macs| :: macs[i] != macs[j]
  }

  /** The nodes are stored under successive addresses, and the next one can come. */
  ghost predicate Commissioned(s: State, macs: seq<string>) {
    && s.scanning && !s.provisioning && !s.handling && !s.onlyOne && s.filter == EVERY
    && (forall i | 0 <= i < |macs| :: macs[i] in s.nodes && s.nodes[macs[i]] == NODE_START_UNICAST + i)
    && forall m | m in s.nodes :: m in macs
  }

  lemma UsedAddresses(s: State, macs: seq<string>, a: nat)
    requires Commissioned(s, macs)
    ensures a in Used(s) <==> NODE_START_UNICAST <= a < NODE_START_UNICAST + |macs|
  {
    if a in Used(s) {
      var m :| m in s.nodes && s.nodes[m] == a;
      var i :| 0 <= i < |macs| && macs[i] == m;
    }
    if NODE_START_UNICAST <= a < NODE_START_UNICAST + |macs| {
      assert s.nodes[macs[a - NODE_START_UNICAST]] in Used(s);
    }
  }

  lemma NextAddress(s: State, macs: seq<string>)
    requires Commissioned(s, macs) && |macs| <= CACHE_SIZE
    ensures FirstFree(Used(s), NODE_START_UNICAST)
         == if |macs| < CACHE_SIZE then Some(NODE_START_UNICAST + |macs|) else None
  {
    hide FirstFree, Used, Commissioned;
    FirstFreeIsLowest(Used(s), NODE_START_UNICAST);
    forall a: nat ensures a in Used(s) <==> NODE_START_UNICAST <= a < NODE_START_UNICAST + |macs| {
      UsedAddresses(s, macs, a);
    }
    assert NODE_START_UNICAST + |macs| !in Used(s);
  }

  lemma EveryIsWanted(s: State, macs: seq<string>, mac: string)
    requires Commissioned(s, macs) && mac !in macs
    ensures Handle(s, Announcement(mac, "")) == StartProvisioning(s, mac)
  {
    hide StartProvisioning;
    assert Passes(EVERY, mac, "") by {
      assert EVERY.uuids[0] == "" && "" in EVERY.uuids;
    }
    hide Passes;
    assert mac !in s.nodes && s.nodes - {mac} == s.nodes;
    assert s.(nodes := s.nodes - {mac}) == s;
  }

  lemma RunThree(s: State, before: seq<Label>, a: Label, b: Label, c: Label)
    ensures Run(s, before + [a, b, c]) == Step(Step(Step(Run(s, before), a), b), c)
  {
    hide Step;
    RunSnoc(s, before, a);
    RunSnoc(s, before + [a], b);
    RunSnoc(s, before + [a] + [b], c);
    assert before + [a] + [b] + [c] == before + [a, b, c];
  }

  lemma RunSnoc(s: State, before: seq<Label>, l: Label)
    ensures Run(s, before + [l]) == Step(Run(s, before), l)
  {
    assert (before + [l])[..|before|] == before;
  }

  lemma CommissionNext(s: State, macs: seq<string>, mac: string)
    requires Commissioned(s, macs) && mac !in macs && |macs| < CACHE_SIZE
    ensures Commissioned(Step(Step(Step(s, Dispatch(Announcement(mac, ""))), Dispatch(Complete)), Dispatch(LinkClosed)),
                         macs + [mac])
  {
    NextAddress(s, macs);
    EveryIsWanted(s, macs, mac);
    hide FirstFree, Passes;
    var t := StartProvisioning(s, mac);
    var a := NODE_START_UNICAST + |macs|;
    assert t.target == Some(Target(mac, a)) && t.handling && t.nodes == s.nodes;
    var u := Handle(t, Complete);
    assert u == t.(nodes := s.nodes[mac := a]);
    var v := Handle(u, LinkClosed);
    assert v.nodes == u.nodes;
  }

  lemma {:induction false} CommissionRun(macs: seq<string>)
    requires Different(macs) && |macs| <= CACHE_SIZE
    ensures Commissioned(Run(Initial(), CommissionAll(macs)), macs)
  {
    hide Step, Commissioned;
    if macs == [] {
      NothingCommissioned();
    } else {
      var init, mac := macs[..|macs| - 1], macs[|macs| - 1];
      CommissionRun(init);
      assert init + [mac] == macs;
      RunThree(Initial(), CommissionAll(init),
               Dispatch(Announcement(mac, "")), Dispatch(Complete), Dispatch(LinkClosed));
      CommissionNext(Run(Initial(), CommissionAll(init)), init, mac);
    }
  }

  lemma NothingCommissioned()
    ensures Commissioned(Run(Initial(), CommissionAll([])), [])
  {
    var scan := StartScan(EVERY, false, false, false);
    RunSnoc(Initial(), [], scan);
    assert [] + [scan] == [scan];
  }

  lemma {:induction false} DifferentCount(macs: seq<string>)
    requires Different(macs)
    ensures |set m | m in macs| == |macs|
  {
    if macs == [] {
      assert (set m | m in macs) == {};
    } else {
      var init, mac := macs[..|macs| - 1], macs[|macs| - 1];
      DifferentCount(init);
      assert (set m | m in macs) == (set m | m in init) + {mac};
    }
  }

  /** From the initial state: 0x7000 nodes are provisioned one after the other, whatever their
      hardware addresses, and the announcement of one more gets the manager stuck. */
  lemma FullMeshGetsStuck(macs: seq<string>, mac: string)
    requires |macs| == CACHE_SIZE && Different(macs) && mac !in macs
    ensures var s := Run(Initial(), CommissionAll(macs));
      && |s.nodes| == CACHE_SIZE && !Stuck(s)
      && Stuck(Run(Initial(), CommissionAll(macs) + [Dispatch(Announcement(mac, ""))]))
  {
    var ls := CommissionAll(macs);
    var s := Run(Initial(), ls);
    CommissionRun(macs);
    RunSnoc(Initial(), ls, Dispatch(Announcement(mac, "")));
    hide Run, CommissionAll, FirstFree, Passes;
    NextAddress(s, macs);
    EveryIsWanted(s, macs, mac);
    DifferentCount(macs);
    assert s.nodes.Keys == set m | m in macs;
  }

  /** Hardware addresses that differ in their last two bytes. */
  function Mac(i: nat): string
    requires i < 0x1_0000
  {
    "00000000" + Hex4(i)
  }

  lemma MacsDiffer(i: nat, j: nat)
    requires i < j < 0x1_0000
    ensures Mac(i) != Mac(j)
  {
    Hex4Number(i);
    Hex4Number(j);
    hide Hex4, HexNumber;
    assert Mac(i)[8..] == Hex4(i) && Mac(j)[8..] == Hex4(j);
  }

  /** Such a run with hardware addresses of its own. */
  lemma StuckRun()
    ensures var macs := seq(CACHE_SIZE, i requires 0 <= i < CACHE_SIZE => Mac(i));
      var ls := CommissionAll(macs);
      && |Run(Initial(), ls).nodes| == CACHE_SIZE && !Stuck(Run(Initial(), ls))
      && Stuck(Run(Initial(), ls + [Dispatch(Announcement(Mac(CACHE_SIZE), ""))]))
  {
    var macs := seq(CACHE_SIZE, i requires 0 <= i < CACHE_SIZE => Mac(i));
    hide Mac, Run, CommissionAll;
    forall i, j | 0 <= i < j < |macs| ensures macs[i] != macs[j] {
      MacsDiffer(i, j);
    }
    forall i | 0 <= i < |macs| ensures macs[i] != Mac(CACHE_SIZE) {
      MacsDiffer(i, CACHE_SIZE);
    }
    FullMeshGetsStuck(macs, Mac(CACHE_SIZE));
  }
}
