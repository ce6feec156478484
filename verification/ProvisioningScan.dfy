/** Scanning for one node, and what every step of the manager sends and stores. */
module ProvisioningScan {
  import opened Options
  import opened ProvisioningSpec

  // ---- Each step

  /** A node is announced that the scan looks for, while none is being provisioned. */
  predicate Wanted(s: State, l: Label) {
    && l.Dispatch? && l.event.Announcement? && s.scanning && !s.provisioning
    && Passes(s.filter, l.event.mac, l.event.uuid)
  }

  /** The lowest address that is free without the node. */
  function FreeWithout(s: State, mac: string): Option<nat> {
    FirstFree((s.nodes - {mac}).Values, NODE_START_UNICAST)
  }

  predicate Closes(s: State, l: Label) {
    l == Dispatch(LinkClosed) && s.handling
  }

  /** What the step sends to the device. */
  function Commands(s: State, l: Label): seq<Command> {
    if Wanted(s, l) then
      match FreeWithout(s, l.event.mac)
      case None => [ScanStop]
      case Some(a) => [ScanStop, ClearReplayCache(a), KeypairSet, Provision(l.event.mac, a)]
    else if Closes(s, l) && s.scanning then [if s.onlyOne then ScanStop else ScanStart]
    else if l == Dispatch(Capabilities) && s.handling then [OobUse]
    else if l == Dispatch(Ecdh) && s.handling then [EcdhSecret]
    else if l == Dispatch(ScanTimeout) && s.timed && s.scanning then [ScanStop]
    else if l.StartScan? && !s.scanning && !l.listener then [ScanStart]
    else if l.StopScan? && s.scanning then [ScanStop]
    else []
  }

  /** A provisioning stops the scan of the device and hands the node over behind its cleared address;
      when its link is closed the device scans again, or the scan ends if it was for one node. */
  lemma StepSends(s: State, l: Label)
    ensures Step(s, l).sent == s.sent + Commands(s, l)
  {
    hide FirstFree, Passes;
    if Wanted(s, l) {
      var a := FreeWithout(s, l.event.mac);
      assert a.Some? ==>
          s.sent + [ScanStop] + [ClearReplayCache(a.value)] + [KeypairSet, Provision(l.event.mac, a.value)]
          == s.sent + [ScanStop, ClearReplayCache(a.value), KeypairSet, Provision(l.event.mac, a.value)];
    } else {
      assert s.sent + [] == s.sent;
    }
  }

  lemma AnnouncedFields(s: State, mac: string, uuid: string)
    ensures var r := Announced(s, mac, uuid);
      var a := if !s.provisioning && Passes(s.filter, mac, uuid) then FreeWithout(s, mac) else None;
      && r.scanning == s.scanning && r.filter == s.filter && r.onlyOne == s.onlyOne && r.timed == s.timed
      && r.nodes == s.nodes - {mac}
      && r.handling == (s.handling || a.Some?)
      && r.target == (if a.Some? then Some(Target(mac, a.value)) else s.target)
  {
    hide FirstFree, Passes;
  }

  lemma EndFields(s: State)
    ensures var r := EndProvision(s);
      && r.scanning == (s.scanning && !s.onlyOne)
      && r == s.(provisioning := false, scanning := r.scanning, sent := r.sent)
  {
  }

  /** Whether the manager scans behind a step, for which nodes, and for how many. */
  lemma StepScans(s: State, l: Label)
    ensures var r := Step(s, l); var starts := l.StartScan? && !s.scanning && !l.listener;
      && (r.scanning <==>
            || starts
            || (s.scanning && !l.StopScan? && !(Closes(s, l) && s.onlyOne) && !(l == Dispatch(ScanTimeout) && s.timed)))
      && r.filter == (if starts then l.filter else s.filter)
      && r.onlyOne == (if l.StartScan? then l.one else s.onlyOne)
      && (r.timed <==> (s.timed && l != Dispatch(ScanTimeout)) || (starts && l.timeout))
  {
    if l.Dispatch? && l.event.Announcement? {
      AnnouncedFields(s, l.event.mac, l.event.uuid);
    }
    EndFields(s.(handling := false));
    hide Announced, EndProvision, FreeWithout, Passes;
  }

  /** An announcement while scanning takes the node out, provisioned or not; a completion stores the
      node that was handed over. */
  lemma StepStores(s: State, l: Label)
    ensures Step(s, l).nodes ==
              if l.Dispatch? && l.event.Announcement? && s.scanning then s.nodes - {l.event.mac}
              else if l == Dispatch(Complete) && s.handling && s.target.Some?
              then s.nodes[s.target.value.mac := s.target.value.address]
              else if l.RemoveNode? then s.nodes - {l.mac}
              else s.nodes
  {
    if l.Dispatch? && l.event.Announcement? {
      AnnouncedFields(s, l.event.mac, l.event.uuid);
    }
    EndFields(s.(handling := false));
    hide Announced, EndProvision, FreeWithout, Passes;
  }

  /** Which node is handed over, and until when. */
  lemma StepHands(s: State, l: Label)
    ensures var r := Step(s, l);
      && (r.handling <==>
            (s.handling && l != Dispatch(LinkClosed)) || (Wanted(s, l) && FreeWithout(s, l.event.mac).Some?))
      && r.target ==
           (if Closes(s, l) then None
            else if Wanted(s, l) && FreeWithout(s, l.event.mac).Some?
            then Some(Target(l.event.mac, FreeWithout(s, l.event.mac).value))
            else s.target)
  {
    if l.Dispatch? && l.event.Announcement? {
      AnnouncedFields(s, l.event.mac, l.event.uuid);
    }
    EndFields(s.(handling := false));
    hide Announced, EndProvision, FreeWithout, Passes;
  }

  // ---- A scan for one node

  /** Nothing is handed over, and no node is new; or one node is handed over, and no other is new; or
      one has been, and the scan is at its end. */
  ghost predicate AtMostOne(earlier: set<string>, s: State) {
    && s.onlyOne
    && ((!s.handling && s.nodes.Keys <= earlier)
        || (s.handling && s.target.Some? && s.nodes.Keys <= earlier + {s.target.value.mac})
        || (!s.handling && !s.scanning && exists mac :: s.nodes.Keys <= earlier + {mac}))
  }

  lemma OneStep(earlier: set<string>, s: State, l: Label)
    requires Inv(s) && AtMostOne(earlier, s) && !l.StartScan?
    ensures AtMostOne(earlier, Step(s, l))
  {
    StepScans(s, l);
    StepStores(s, l);
    StepHands(s, l);
    hide Step, FreeWithout, Passes, NodesOk, Reserved;
  }

  lemma {:induction false} OneRun(earlier: set<string>, s: State, ls: seq<Label>)
    requires Inv(s) && AtMostOne(earlier, s) && forall l | l in ls :: !l.StartScan?
    ensures AtMostOne(earlier, Run(s, ls))
  {
    if ls != [] {
      var init, last := ls[..|ls| - 1], ls[|ls| - 1];
      assert last in ls && forall l | l in init :: l in ls;
      OneRun(earlier, s, init);
      AddressesStayDistinct(s, init);
      hide Step, Inv, AtMostOne;
      OneStep(earlier, Run(s, init), last);
    }
  }

  /** After a scan for one node has been started, at most one node is stored that was not there
      before, in every run until the next scan is started. */
  lemma OneScanOneNode(s: State, filter: Filter, timeout: bool, listener: bool, ls: seq<Label>)
    requires Inv(s) && forall l | l in ls :: !l.StartScan?
    ensures var t := Run(Step(s, StartScan(filter, timeout, true, listener)), ls);
      exists mac :: t.nodes.Keys <= s.nodes.Keys + {mac}
  {
    var l := StartScan(filter, timeout, true, listener);
    StepScans(s, l);
    StepStores(s, l);
    StepHands(s, l);
    StepKeepsInv(s, l);
    hide Step, Inv;
    OneRun(s.nodes.Keys, Step(s, l), ls);
    var t := Run(Step(s, l), ls);
    if !t.handling && t.nodes.Keys <= s.nodes.Keys {
      assert t.nodes.Keys <= s.nodes.Keys + {""};
    }
  }

  /** Without a scan nothing is provisioned. */
  predicate Resting(s: State) {
    !s.scanning && !s.handling
  }

  lemma RestingStep(s: State, l: Label)
    requires Resting(s) && !l.StartScan?
    ensures var t := Step(s, l); Resting(t) && t.nodes.Keys <= s.nodes.Keys && t.sent == s.sent
  {
    StepSends(s, l);
    StepScans(s, l);
    StepStores(s, l);
    StepHands(s, l);
    hide Step, Passes, FreeWithout;
    assert s.sent + [] == s.sent;
  }

  lemma {:induction false} RestingRun(s: State, ls: seq<Label>)
    requires Resting(s) && forall l | l in ls :: !l.StartScan?
    ensures var t := Run(s, ls); Resting(t) && t.nodes.Keys <= s.nodes.Keys && t.sent == s.sent
  {
    if ls != [] {
      var init, last := ls[..|ls| - 1], ls[|ls| - 1];
      assert last in ls && forall l | l in init :: l in ls;
      RestingRun(s, init);
      hide Step;
      RestingStep(Run(s, init), last);
    }
  }

  /** When the link of a node is closed, the device goes on scanning exactly if the manager was and
      the scan is not for one node; otherwise nothing is sent, provisioned or stored any more, in every
      run until the next scan is started. */
  lemma ScanEndsWithNode(s: State, ls: seq<Label>)
    requires Inv(s) && ScanOk(s) && s.handling && forall l | l in ls :: !l.StartScan?
    ensures var r := Step(s, Dispatch(LinkClosed));
      && !r.handling && (r.scanning <==> s.scanning && !s.onlyOne) && (Scans(r.sent) <==> r.scanning)
      && (!r.scanning ==>
            var t := Run(r, ls); !t.scanning && t.sent == r.sent && t.nodes.Keys <= r.nodes.Keys)
  {
    var l := Dispatch(LinkClosed);
    var r := Step(s, l);
    StepScans(s, l);
    StepSends(s, l);
    StepHands(s, l);
    StepKeepsScan(s, l);
    assert !r.provisioning;
    hide Step, Run, Inv, Scans;
    if !r.scanning {
      RestingRun(r, ls);
    }
  }

  // ---- A scan for hardware addresses

  /** Only nodes whose hardware address starts with f0 are wanted. */
  const BY_ADDRESS: Filter := Filter([], ["f0"])

  lemma AddressPasses()
    ensures !Passes(BY_ADDRESS, "aa0000000001", "f0") && Passes(BY_ADDRESS, "f00000000002", "")
  {
    assert "aa0000000001"[0] != "f0"[0];
    assert BY_ADDRESS.macs[0] == "f0" && "f0" in BY_ADDRESS.macs && "f0" <= "f00000000002";
  }

  lemma NobodyStored(mac: string, s: State)
    requires s.nodes == map[]
    ensures FreeWithout(s, mac) == Some(NODE_START_UNICAST)
  {
    assert (s.nodes - {mac}).Values == {};
  }

  /** Of two nodes the one with another hardware address is passed over, whatever its identifier. */
  lemma ScanByAddress()
    ensures var ls := [StartScan(BY_ADDRESS, false, true, false),
                       Dispatch(Announcement("aa0000000001", "f0")), Dispatch(Announcement("f00000000002", ""))];
      && !Run(Initial(), ls[..2]).handling
      && Run(Initial(), ls).target == Some(Target("f00000000002", NODE_START_UNICAST))
  {
    var scan := StartScan(BY_ADDRESS, false, true, false);
    var other, own := Dispatch(Announcement("aa0000000001", "f0")), Dispatch(Announcement("f00000000002", ""));
    var ls := [scan, other, own];
    var s1 := Step(Initial(), scan);
    var s2 := Step(s1, other);
    AddressPasses();
    StepScans(Initial(), scan);
    assert s1 == Initial().(onlyOne := true, scanning := true, filter := BY_ADDRESS, sent := s1.sent);
    hide Passes, Step, FreeWithout;
    StepStores(s1, other);
    StepHands(s1, other);
    StepScans(s1, other);
    StepHands(s2, own);
    NobodyStored("f00000000002", s2);
    RunSnoc(Initial(), [], scan);
    RunSnoc(Initial(), [scan], other);
    RunSnoc(Initial(), [scan, other], own);
    assert [] + [scan] == [scan] && [scan] + [other] == ls[..2] == [scan, other] && [scan, other] + [own] == ls;
  }
}
