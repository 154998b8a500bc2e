/** The OvS network fabric of staging/kos/pkg/networkfabric/ovs/ovs.go: its locks and the bridge it commands. */
module OvsFabrics {
  import opened Options
  import opened UInt32
  import opened MacAddresses
  import opened OvsFlows

  /** The bridge.  A command that fails has no effect; `fail` says that it does for reasons of its own. */
  class Bridge {
    var ports: Ports
    var flows: Table

    constructor (vtep: Port)
      ensures ports == map[VTEP := vtep] && flows == DefaultFlows()
    {
      ports, flows := map[VTEP := vtep], DefaultFlows();
    }

    method AddPort(name: string, port: Port, fail: bool) returns (ok: bool)
      modifies this`ports
      ensures ok <==> !fail && name !in old(ports)
      ensures ports == if ok then old(ports)[name := port] else old(ports)
    {
      ok := !fail && name !in ports;
      if ok {
        ports := ports[name := port];
      }
    }

    method DelPort(name: string, fail: bool) returns (ok: bool)
      modifies this`ports
      ensures ok <==> !fail && name in old(ports)
      ensures ports == if ok then old(ports) - {name} else old(ports)
    {
      ok := !fail && name in ports;
      if ok {
        ports := ports - {name};
      }
    }

    method OfPort(name: string, fail: bool) returns (port: Option<Port>)
      ensures port == if !fail && name in ports then Some(ports[name]) else None
    {
      port := if !fail && name in ports then Some(ports[name]) else None;
    }

    /** The bundle makes the additions one transaction. */
    method AddFlows(more: Table, fail: bool) returns (ok: bool)
      modifies this`flows
      ensures ok == !fail && flows == if ok then old(flows) + more else old(flows)
    {
      ok := !fail;
      if ok {
        flows := flows + more;
      }
    }

    method DelFlows(specs: seq<Spec>, fail: bool) returns (ok: bool)
      modifies this`flows
      ensures ok == !fail && flows == if ok then Without(old(flows), specs) else old(flows)
    {
      ok := !fail;
      if ok {
        flows := Without(flows, specs);
      }
    }
  }

  /** Which commands of a call fail. */
  datatype Faults = Faults(port: bool, ofPort: bool, flows: bool, cleanUp: bool)

  /**
   Who is who: `live` interfaces were created and not yet deleted; of these, the `bare` ones were left without
   flows by a deletion that failed half way.
   */
  ghost predicate Accounted(locked: set<Pair>, ports: Ports, live: set<Ifc>, bare: set<Ifc>) {
    && OwnPorts(ports) && bare <= live
    && (forall i :: i in bare ==> i.Local?)
    && (forall i :: i in live ==> PairOf(i) in locked && Plugged(ports, i))
    && (forall p :: p in locked ==> exists i :: i in live && PairOf(i) == p)
    && (forall i, j :: i in live && j in live && i != j ==>
                         PairOf(i) != PairOf(j) && (i.Local? && j.Local? ==> i.name != j.name))
  }

  class OvsFabric {
    var lockedVniIpPairs: set<Pair>
    const bridge: Bridge
    ghost var live: set<Ifc>
    ghost var bare: set<Ifc>

    ghost predicate Valid()
      reads this, bridge
    {
      && Accounted(lockedVniIpPairs, bridge.ports, live, bare)
      && Sound(bridge.ports, bridge.flows, live - bare)
    }

    /** Every interface has its flows, except those whose deletion has begun. */
    ghost predicate Complete()
      reads this, bridge
    {
      AllInstalled(bridge.ports, bridge.flows, live - bare)
    }

    constructor (vtep: Port)
      ensures Valid() && Complete() && fresh(bridge)
      ensures PictureOf(this) == Picture({}, map[VTEP := vtep], DefaultFlows(), {}, {})
    {
      lockedVniIpPairs, live, bare := {}, {}, {};
      bridge := new Bridge(vtep);
    }

    method LockVniIpPair(vni: uint32, ip: uint32) returns (ok: bool)
      modifies this`lockedVniIpPairs
      ensures ok <==> Pair(vni, ip) !in old(lockedVniIpPairs)
      ensures lockedVniIpPairs == old(lockedVniIpPairs) + {Pair(vni, ip)}
    {
      ok := Pair(vni, ip) !in lockedVniIpPairs;
      if ok {
        lockedVniIpPairs := lockedVniIpPairs + {Pair(vni, ip)};
      }
    }

    method UnlockVniIpPair(vni: uint32, ip: uint32)
      modifies this`lockedVniIpPairs
      ensures lockedVniIpPairs == old(lockedVniIpPairs) - {Pair(vni, ip)}
    {
      lockedVniIpPairs := lockedVniIpPairs - {Pair(vni, ip)};
    }

    /**
     `port` is the number the bridge gives the new device, one not in use.  When the clean-up fails too the
     device stays behind, but neither its flows nor the lock do.
     */
    method CreateLocalIfc(i: Ifc, port: Port, faults: Faults) returns (ok: bool)
      requires Valid() && i.Local? && port !in bridge.ports.Values
      modifies this, bridge
      ensures Valid()
      ensures ok <==> PairOf(i) !in old(lockedVniIpPairs) && i.name !in old(bridge.ports)
                      && !faults.port && !faults.ofPort && !faults.flows
      ensures live == old(live) + (if ok then {i} else {}) && bare == old(bare)
      ensures ok ==> i !in old(live)
      ensures bridge.flows == if ok then old(bridge.flows) + LocalFlows(port, i.vni, i.mac, i.ip) else old(bridge.flows)
      ensures lockedVniIpPairs == old(lockedVniIpPairs) + (if ok then {PairOf(i)} else {})
      ensures var left := PairOf(i) !in old(lockedVniIpPairs) && i.name !in old(bridge.ports) && !faults.port
              && faults.cleanUp;
              bridge.ports == if ok || left then old(bridge.ports)[i.name := port] else old(bridge.ports)
      ensures old(Complete()) && (ok ==> forall j :: j in old(live - bare) ==> Apart(i, j)) ==> Complete()
    {
      hide Sound, AllInstalled, FlowsOf, Apart, Installed;
      ok := LockVniIpPair(i.vni, i.ip);
      if !ok {
        return;
      }
      ok := bridge.AddPort(i.name, port, faults.port);
      if ok {
        PluggingIsHarmless(old(bridge.ports), i.name, port, bridge.flows, live - bare);
        var ofPort := bridge.OfPort(i.name, faults.ofPort);
        ok := ofPort.Some?;
        if ok {
          ok := bridge.AddFlows(LocalFlows(ofPort.value, i.vni, i.mac, i.ip), faults.flows);
        }
        if !ok {
          label Cleaning:
          var cleaned := bridge.DelPort(i.name, faults.cleanUp);
          if cleaned {
            assert bridge.ports == old(bridge.ports);
          }
        }
      }
      if !ok {
        UnlockVniIpPair(i.vni, i.ip);
        assert lockedVniIpPairs == old(lockedVniIpPairs);
      } else {
        NewcomerIsAccounted(old(lockedVniIpPairs), bridge.ports, live, bare, i);
        assert LocalFlows(port, i.vni, i.mac, i.ip) == FlowsOf(bridge.ports, i) by {
          LocalFlowsOf(bridge.ports, i);
        }
        AddingIsSound(bridge.ports, old(bridge.flows), live - bare, i);
        assert live + {i} - bare == live - bare + {i};
        if AllInstalled(bridge.ports, old(bridge.flows), live - bare) && forall j :: j in live - bare ==> Apart(i, j) {
          AddingKeepsInstalled(bridge.ports, old(bridge.flows), live - bare, i);
        }
        live := live + {i};
      }
    }

    /** Stops at the first command that fails. */
    method DeleteLocalIfc(i: Ifc, faults: Faults) returns (ok: bool)
      requires Valid() && i in live && i.Local?
      modifies this, bridge
      ensures Valid()
      ensures ok <==> !faults.ofPort && !faults.flows && !faults.port
      ensures live == old(live) - (if ok then {i} else {})
      ensures bare == if ok then old(bare) - {i}
                      else if faults.ofPort || faults.flows then old(bare)
                      else old(bare) + {i}
      ensures bridge.ports == if ok then old(bridge.ports) - {i.name} else old(bridge.ports)
      ensures bridge.flows == if faults.ofPort || faults.flows then old(bridge.flows)
                              else Without(old(bridge.flows), LocalSpecs(old(bridge.ports[i.name]), i.vni, i.mac, i.ip))
      ensures lockedVniIpPairs == old(lockedVniIpPairs) - (if ok then {PairOf(i)} else {})
      ensures old(Complete()) && (forall j :: j in old(live - bare) && j != i ==> Apart(i, j)) ==> Complete()
    {
      hide Sound, AllInstalled, FlowsOf, SpecsOf, Apart, Installed;
      var ofPort := bridge.OfPort(i.name, faults.ofPort);
      if ofPort.None? {
        return false;
      }
      LocalFlowsOf(bridge.ports, i);
      DeletingIsSound(bridge.ports, bridge.flows, live - bare, i);
      if AllInstalled(bridge.ports, bridge.flows, live - bare)
         && forall j :: j in live - bare && j != i ==> Apart(i, j) {
        DeletingKeepsInstalled(bridge.ports, bridge.flows, live - bare, i);
      }
      ok := bridge.DelFlows(LocalSpecs(ofPort.value, i.vni, i.mac, i.ip), faults.flows);
      if !ok {
        return;
      }
      assert live - (bare + {i}) == live - bare - {i};
      ok := bridge.DelPort(i.name, faults.port);
      if !ok {
        bare := bare + {i};
        return;
      }
      assert live - {i} - (bare - {i}) == live - bare - {i};
      UnpluggingIsHarmless(old(bridge.ports), i.name, bridge.flows, live - bare - {i});
      LeaverIsAccounted(lockedVniIpPairs, old(bridge.ports), bridge.ports, live, bare, i);
      UnlockVniIpPair(i.vni, i.ip);
      live, bare := live - {i}, bare - {i};
    }

    method CreateRemoteIfc(i: Ifc, faults: Faults) returns (ok: bool)
      requires Valid() && i.Remote?
      modifies this, bridge
      ensures Valid() && bridge.ports == old(bridge.ports)
      ensures ok <==> PairOf(i) !in old(lockedVniIpPairs) && !faults.flows
      ensures live == old(live) + (if ok then {i} else {}) && bare == old(bare)
      ensures ok ==> i !in old(live)
      ensures bridge.flows == if ok then old(bridge.flows) + RemoteFlows(i.vni, i.mac, i.host, i.ip)
                              else old(bridge.flows)
      ensures lockedVniIpPairs == old(lockedVniIpPairs) + (if ok then {PairOf(i)} else {})
      ensures old(Complete()) && (ok ==> forall j :: j in old(live - bare) ==> Apart(i, j)) ==> Complete()
    {
      hide Sound, AllInstalled, FlowsOf, Apart, Installed;
      ok := LockVniIpPair(i.vni, i.ip);
      if !ok {
        return;
      }
      ok := bridge.AddFlows(RemoteFlows(i.vni, i.mac, i.host, i.ip), faults.flows);
      if !ok {
        UnlockVniIpPair(i.vni, i.ip);
        assert lockedVniIpPairs == old(lockedVniIpPairs);
        return;
      }
      RemoteFlowsOf(bridge.ports, i);
      NewcomerIsAccounted(old(lockedVniIpPairs), bridge.ports, live, bare, i);
      AddingIsSound(bridge.ports, old(bridge.flows), live - bare, i);
      assert live + {i} - bare == live - bare + {i};
      if AllInstalled(bridge.ports, old(bridge.flows), live - bare) && forall j :: j in live - bare ==> Apart(i, j) {
        AddingKeepsInstalled(bridge.ports, old(bridge.flows), live - bare, i);
      }
      live := live + {i};
    }

    method DeleteRemoteIfc(i: Ifc, faults: Faults) returns (ok: bool)
      requires Valid() && i in live && i.Remote?
      modifies this, bridge
      ensures Valid() && bridge.ports == old(bridge.ports)
      ensures ok == !faults.flows
      ensures live == old(live) - (if ok then {i} else {}) && bare == old(bare)
      ensures bridge.flows == if ok then Without(old(bridge.flows), RemoteSpecs(i.vni, i.mac, i.ip))
                              else old(bridge.flows)
      ensures lockedVniIpPairs == old(lockedVniIpPairs) - (if ok then {PairOf(i)} else {})
      ensures old(Complete()) && (forall j :: j in old(live - bare) && j != i ==> Apart(i, j)) ==> Complete()
    {
      hide Sound, AllInstalled, FlowsOf, SpecsOf, Apart, Installed;
      RemoteFlowsOf(bridge.ports, i);
      DeletingIsSound(bridge.ports, bridge.flows, live - bare, i);
      if AllInstalled(bridge.ports, bridge.flows, live - bare)
         && forall j :: j in live - bare && j != i ==> Apart(i, j) {
        DeletingKeepsInstalled(bridge.ports, bridge.flows, live - bare, i);
      }
      ok := bridge.DelFlows(RemoteSpecs(i.vni, i.mac, i.ip), faults.flows);
      if !ok {
        return;
      }
      assert live - {i} - bare == live - bare - {i};
      assert bare == bare - {i};
      LeaverIsAccounted(lockedVniIpPairs, bridge.ports, bridge.ports, live, bare, i);
      UnlockVniIpPair(i.vni, i.ip);
      live := live - {i};
    }
  }

  lemma LocalFlowsOf(ports: Ports, i: Ifc)
    requires i.Local? && Plugged(ports, i)
    ensures FlowsOf(ports, i) == LocalFlows(ports[i.name], i.vni, i.mac, i.ip)
    ensures SpecsOf(ports, i) == LocalSpecs(ports[i.name], i.vni, i.mac, i.ip)
  {
  }

  /** A new device under a new name and number changes nothing for the interfaces there. */
  lemma PluggingIsHarmless(ports: Ports, name: string, port: Port, flows: Table, served: set<Ifc>)
    requires OwnPorts(ports) && name !in ports && port !in ports.Values
    requires Sound(ports, flows, served)
    ensures Sound(ports[name := port], flows, served) && OwnPorts(ports[name := port])
    ensures AllInstalled(ports, flows, served) ==> AllInstalled(ports[name := port], flows, served)
  {
    var ports' := ports[name := port];
    forall i, k, a | Agrees(ports, i, k, a) ensures Agrees(ports', i, k, a) {
    }
    forall a | a in ports ensures ports[a] != port {
      assert ports[a] in ports.Values;
    }
    if AllInstalled(ports, flows, served) {
      forall i | i in served ensures Plugged(ports', i) && Installed(ports', flows, i) {
        assert Installed(ports, flows, i);
      }
    }
  }

  lemma NewcomerIsAccounted(locked: set<Pair>, ports: Ports, live: set<Ifc>, bare: set<Ifc>, i: Ifc)
    requires OwnPorts(ports) && Plugged(ports, i) && Accounted(locked, ports, live, bare) && PairOf(i) !in locked
    requires i.Local? ==> forall j :: j in live && j.Local? ==> j.name != i.name
    ensures Accounted(locked + {PairOf(i)}, ports, live + {i}, bare)
  {
    forall p | p in locked + {PairOf(i)} ensures exists j :: j in live + {i} && PairOf(j) == p {
      if p == PairOf(i) {
        assert i in live + {i};
      } else {
        var j :| j in live && PairOf(j) == p;
        assert j in live + {i};
      }
    }
  }

  lemma RemoteFlowsOf(ports: Ports, i: Ifc)
    requires i.Remote?
    ensures FlowsOf(ports, i) == RemoteFlows(i.vni, i.mac, i.host, i.ip)
    ensures SpecsOf(ports, i) == RemoteSpecs(i.vni, i.mac, i.ip)
  {
  }

  /** Removing the device of none of the interfaces changes nothing for them. */
  lemma UnpluggingIsHarmless(ports: Ports, name: string, flows: Table, served: set<Ifc>)
    requires OwnPorts(ports) && name != VTEP && Sound(ports, flows, served)
    requires forall j :: j in served && j.Local? ==> j.name != name
    ensures Sound(ports - {name}, flows, served) && OwnPorts(ports - {name})
    ensures AllInstalled(ports, flows, served) ==> AllInstalled(ports - {name}, flows, served)
  {
    var ports' := ports - {name};
    forall k | k in flows && k !in DefaultFlows() ensures exists i :: i in served && Agrees(ports', i, k, flows[k]) {
      var i :| i in served && Agrees(ports, i, k, flows[k]);
      assert Agrees(ports', i, k, flows[k]);
    }
    forall i | i in served ensures Plugged(ports', i) && TagIn(ports', flows, i) {
      assert Plugged(ports, i) && TagIn(ports, flows, i);
    }
    if AllInstalled(ports, flows, served) {
      forall i | i in served ensures Plugged(ports', i) && Installed(ports', flows, i) {
        assert Installed(ports, flows, i);
      }
    }
  }

  lemma LeaverIsAccounted(locked: set<Pair>, ports: Ports, ports': Ports, live: set<Ifc>, bare: set<Ifc>, i: Ifc)
    requires Accounted(locked, ports, live, bare) && i in live
    requires ports' == if i.Local? then ports - {i.name} else ports
    ensures Accounted(locked - {PairOf(i)}, ports', live - {i}, bare - {i})
  {
    forall p | p in locked - {PairOf(i)} ensures exists j :: j in live - {i} && PairOf(j) == p {
      var j :| j in live && PairOf(j) == p;
      assert j in live - {i};
    }
  }

  /**
   Whatever calls were made and failed, a frame from a local interface, or tunnelled to the bridge, only gets to
   interfaces of its network; one from a device left behind or half deleted gets nowhere.
   */
  lemma NetworksAreIsolated(f: OvsFabric, name: string, frame: Frame, d: Delivery)
    requires f.Valid() && name in f.bridge.ports && frame.inPort == f.bridge.ports[name]
    requires Outcome(f.bridge.ports[VTEP], f.bridge.flows, frame, d)
    ensures forall i :: i in f.live - f.bare && i.Local? && i.name == name ==>
                          d == Dropped || Reaches(f.bridge.ports, f.live - f.bare, i.vni, frame, d)
    ensures name == VTEP ==>
              d == Dropped || (d.ToPort? && Reaches(f.bridge.ports, f.live - f.bare, frame.tunId, frame, d))
    ensures Unserved(f.bridge.ports, f.live - f.bare, name) && frame.tunId == 0
            && (forall i :: i in f.live ==> i.vni != 0)
            ==> d == Dropped
  {
    hide Sound, Outcome, Reaches;
    var ports, flows, served := f.bridge.ports, f.bridge.flows, f.live - f.bare;
    forall i | i in served && i.Local? && i.name == name
      ensures d == Dropped || Reaches(ports, served, i.vni, frame, d) {
      LocalFramesStayInNetwork(ports, flows, served, i, frame, d);
    }
    if name == VTEP {
      TunnelledFramesStayInNetwork(ports, flows, served, frame, d);
    }
    if Unserved(ports, served, name) && frame.tunId == 0 && forall i :: i in f.live ==> i.vni != 0 {
      StrayFramesAreDropped(ports, flows, served, name, frame, d);
    }
  }

  /** In a complete fabric frames get just where they are addressed. */
  lemma FramesAreDelivered(f: OvsFabric, frame: Frame, d: Delivery)
    requires f.Valid() && f.Complete()
    ensures VTEP in f.bridge.ports && forall i :: i in f.live ==> Plugged(f.bridge.ports, i)
    ensures forall i :: i in f.live - f.bare && i.Local? && frame.inPort == f.bridge.ports[i.name] ==>
              (Outcome(f.bridge.ports[VTEP], f.bridge.flows, frame, d)
               <==> SentRight(f.bridge.ports, f.live - f.bare, i, frame, d))
    ensures frame.inPort == f.bridge.ports[VTEP] ==>
              (Outcome(f.bridge.ports[VTEP], f.bridge.flows, frame, d)
               <==> ArrivesRight(f.bridge.ports, f.live - f.bare, frame, d))
  {
    hide Sound, AllInstalled, Outcome, SentRight, ArrivesRight;
    var ports, flows, served := f.bridge.ports, f.bridge.flows, f.live - f.bare;
    forall i | i in served && i.Local? && frame.inPort == ports[i.name]
      ensures Outcome(ports[VTEP], flows, frame, d) <==> SentRight(ports, served, i, frame, d) {
      LocalFramesGoWhereAddressed(ports, flows, served, i, frame, d);
    }
    if frame.inPort == ports[VTEP] {
      TunnelledFramesGoWhereAddressed(ports, flows, served, frame, d);
    }
  }

  // ---- Runs ----

  datatype Call = Create(ifc: Ifc, port: Port, faults: Faults) | Delete(ifc: Ifc, faults: Faults)

  /** The MAC address is the connection agent's, for a private guest address of a legitimate network. */
  predicate Proper(i: Ifc) {
    i.mac == GenerateMacAddr(i.vni, i.ip) && IsVni(i.vni) && IsPrivate(i.ip)
  }

  lemma ProperAreApart(i: Ifc, j: Ifc)
    requires Proper(i) && Proper(j) && PairOf(i) != PairOf(j)
    ensures !(i.vni == j.vni && i.mac == j.mac)
    ensures i.Local? && j.Local? ==> (i.name != j.name ==> Apart(i, j))
    ensures i.Remote? || j.Remote? ==> Apart(i, j)
  {
    hide GenerateMacAddr, IsVni, IsPrivate;
    if i.mac == j.mac {
      MacIsInjectiveOnPrivate(i.vni, i.ip, j.vni, j.ip);
    }
  }

  lemma LiveAreApart(locked: set<Pair>, ports: Ports, live: set<Ifc>, bare: set<Ifc>, i: Ifc)
    requires Accounted(locked, ports, live, bare) && Proper(i) && forall j :: j in live ==> Proper(j)
    requires i in live || (PairOf(i) !in locked && (i.Local? ==> i.name !in ports))
    ensures forall j :: j in live && j != i ==> Apart(i, j)
  {
    hide Proper, Apart;
    forall j | j in live && j != i ensures Apart(i, j) {
      ProperAreApart(i, j);
    }
  }

  /** What a caller can tell from the replies: the interfaces created and not yet deleted, and the bridge's devices. */
  datatype Ledger = Ledger(created: set<Ifc>, ports: Ports)

  predicate PairIsFree(l: Ledger, i: Ifc) {
    forall j :: j in l.created ==> PairOf(j) != PairOf(i)
  }

  /** The call gets as far as plugging the device in. */
  predicate PlugsIn(l: Ledger, c: Call)
    requires c.Create? && c.ifc.Local?
  {
    PairIsFree(l, c.ifc) && c.ifc.name !in l.ports && c.port !in l.ports.Values && !c.faults.port
  }

  /** Exactly when a call succeeds. */
  predicate Succeeds(l: Ledger, c: Call) {
    match c
    case Delete(i, faults) =>
      i in l.created && !faults.flows && (i.Local? ==> !faults.ofPort && !faults.port)
    case Create(i, port, faults) =>
      if i.Remote? then PairIsFree(l, i) && !faults.flows
      else PlugsIn(l, c) && !faults.ofPort && !faults.flows
  }

  /** What a call leaves; a device may stay behind when the clean-up after a failure fails too. */
  function Next(l: Ledger, c: Call): Ledger {
    match c
    case Delete(i, _) =>
      if Succeeds(l, c) then Ledger(l.created - {i}, if i.Local? then l.ports - {i.name} else l.ports) else l
    case Create(i, port, faults) =>
      if i.Remote? then if Succeeds(l, c) then l.(created := l.created + {i}) else l
      else if Succeeds(l, c) then Ledger(l.created + {i}, l.ports[i.name := port])
      else if PlugsIn(l, c) && faults.cleanUp then l.(ports := l.ports[i.name := port])
      else l
  }

  function LedgerAfter(start: Ledger, calls: seq<Call>): Ledger {
    if calls == [] then start else Next(LedgerAfter(start, calls[..|calls| - 1]), calls[|calls| - 1])
  }

  function Replies(start: Ledger, calls: seq<Call>): seq<bool> {
    if calls == [] then []
    else Replies(start, calls[..|calls| - 1]) + [Succeeds(LedgerAfter(start, calls[..|calls| - 1]), calls[|calls| - 1])]
  }

  /** All there is to a fabric. */
  datatype Picture = Picture(locked: set<Pair>, ports: Ports, flows: Table, live: set<Ifc>, bare: set<Ifc>)

  ghost function PictureOf(f: OvsFabric): Picture
    reads f, f.bridge
  {
    Picture(f.lockedVniIpPairs, f.bridge.ports, f.bridge.flows, f.live, f.bare)
  }

  /** What a call makes of it. */
  function Called(p: Picture, c: Call): Picture {
    match c
    case Create(i, port, faults) =>
      if PairOf(i) in p.locked then p
      else if i.Remote? then
        if faults.flows then p
        else p.(locked := p.locked + {PairOf(i)}, flows := p.flows + RemoteFlows(i.vni, i.mac, i.host, i.ip),
                live := p.live + {i})
      else if i.name in p.ports || port in p.ports.Values || faults.port then p
      else if faults.ofPort || faults.flows then
        if faults.cleanUp then p.(ports := p.ports[i.name := port]) else p
      else p.(locked := p.locked + {PairOf(i)}, ports := p.ports[i.name := port],
              flows := p.flows + LocalFlows(port, i.vni, i.mac, i.ip), live := p.live + {i})
    case Delete(i, faults) =>
      if i !in p.live || faults.flows then p
      else if i.Remote? then
        p.(locked := p.locked - {PairOf(i)}, flows := Without(p.flows, RemoteSpecs(i.vni, i.mac, i.ip)),
           live := p.live - {i})
      else if faults.ofPort || i.name !in p.ports then p
      else
        var left := Without(p.flows, LocalSpecs(p.ports[i.name], i.vni, i.mac, i.ip));
        if faults.port then p.(flows := left, bare := p.bare + {i})
        else Picture(p.locked - {PairOf(i)}, p.ports - {i.name}, left, p.live - {i}, p.bare - {i})
  }

  function AllCalled(p: Picture, calls: seq<Call>): Picture {
    if calls == [] then p else Called(AllCalled(p, calls[..|calls| - 1]), calls[|calls| - 1])
  }

  predicate AllProper(calls: seq<Call>) {
    forall c :: c in calls ==> Proper(c.ifc)
  }

  ghost predicate LedgerIs(f: OvsFabric, l: Ledger)
    reads f, f.bridge
  {
    f.live == l.created && f.bridge.ports == l.ports
  }

  lemma LockedMeansTaken(locked: set<Pair>, ports: Ports, live: set<Ifc>, bare: set<Ifc>, i: Ifc)
    requires Accounted(locked, ports, live, bare)
    ensures PairOf(i) !in locked <==> PairIsFree(Ledger(live, ports), i)
  {
  }

  lemma LivePlugged(locked: set<Pair>, ports: Ports, live: set<Ifc>, bare: set<Ifc>, i: Ifc)
    requires Accounted(locked, ports, live, bare) && i in live
    ensures Plugged(ports, i)
  {
  }

  /** One call, by a caller that deletes only what it created; the bridge never gives a number in use. */
  method Perform(f: OvsFabric, c: Call, l: Ledger) returns (ok: bool)
    requires f.Valid() && LedgerIs(f, l)
    modifies f, f.bridge
    ensures f.Valid() && ok == Succeeds(l, c) && LedgerIs(f, Next(l, c))
    ensures PictureOf(f) == Called(old(PictureOf(f)), c)
    ensures old(f.Complete()) && Proper(c.ifc) && (forall j :: j in l.created ==> Proper(j)) ==> f.Complete()
  {
    hide Sound, AllInstalled, Apart, Proper, Accounted, PairIsFree;
    LockedMeansTaken(f.lockedVniIpPairs, f.bridge.ports, f.live, f.bare, c.ifc);
    if Proper(c.ifc) && (forall j :: j in f.live ==> Proper(j))
       && (c.ifc in f.live
           || (PairOf(c.ifc) !in f.lockedVniIpPairs && (c.ifc.Local? ==> c.ifc.name !in f.bridge.ports))) {
      LiveAreApart(f.lockedVniIpPairs, f.bridge.ports, f.live, f.bare, c.ifc);
    }
    ok := false;
    match c {
      case Create(i, port, faults) =>
        if i.Remote? {
          ok := f.CreateRemoteIfc(i, faults);
        } else if port !in f.bridge.ports.Values {
          ok := f.CreateLocalIfc(i, port, faults);
        }
      case Delete(i, faults) =>
        if i in l.created {
          if i.Remote? {
            ok := f.DeleteRemoteIfc(i, faults);
          } else {
            LivePlugged(f.lockedVniIpPairs, f.bridge.ports, f.live, f.bare, i);
            ok := f.DeleteLocalIfc(i, faults);
          }
        }
    }
    assert f.lockedVniIpPairs == Called(old(PictureOf(f)), c).locked;
    assert f.live == Called(old(PictureOf(f)), c).live;
    assert f.bare == Called(old(PictureOf(f)), c).bare;
    assert f.bridge.ports == Called(old(PictureOf(f)), c).ports;
    assert f.bridge.flows == Called(old(PictureOf(f)), c).flows;
  }

  /**
   A run of calls with any faults.  Every reply is the one expected, the locked pairs are just those of the
   interfaces created and not yet deleted, no two of which share one; and with the agent's MAC addresses all their
   flows are there.
   */
  method RunCalls(f: OvsFabric, calls: seq<Call>, vtep: Port) returns (replies: seq<bool>)
    requires f.Valid() && f.Complete() && LedgerIs(f, Ledger({}, map[VTEP := vtep]))
    modifies f, f.bridge
    ensures f.Valid() && replies == Replies(Ledger({}, map[VTEP := vtep]), calls)
    ensures LedgerIs(f, LedgerAfter(Ledger({}, map[VTEP := vtep]), calls))
    ensures PictureOf(f) == AllCalled(old(PictureOf(f)), calls)
    ensures forall p :: p in f.lockedVniIpPairs <==> exists i :: i in f.live && PairOf(i) == p
    ensures forall i, j :: i in f.live && j in f.live && PairOf(i) == PairOf(j) ==> i == j
    ensures AllProper(calls) ==> f.Complete()
  {
    hide Sound, AllInstalled, Apart, Proper, Accounted, Succeeds, Next, Called;
    replies := [];
    var l := Ledger({}, map[VTEP := vtep]);
    ghost var start := l;
    for n := 0 to |calls|
      invariant f.Valid() && replies == Replies(start, calls[..n])
      invariant LedgerIs(f, l) && l == LedgerAfter(start, calls[..n])
      invariant PictureOf(f) == AllCalled(old(PictureOf(f)), calls[..n])
      invariant AllProper(calls) ==> f.Complete() && forall j :: j in l.created ==> Proper(j)
    {
      var c := calls[n];
      assert c in calls && calls[..n + 1][..n] == calls[..n];
      var ok := Perform(f, c, l);
      CreatedComeFrom(l, c);
      replies := replies + [ok];
      l := Next(l, c);
    }
    assert calls[..|calls|] == calls;
    LocksAreLive(f.lockedVniIpPairs, f.bridge.ports, f.live, f.bare);
  }

  lemma CreatedComeFrom(l: Ledger, c: Call)
    ensures forall j :: j in Next(l, c).created ==> j in l.created || j == c.ifc
  {
    hide Succeeds;
  }

  lemma LocksAreLive(locked: set<Pair>, ports: Ports, live: set<Ifc>, bare: set<Ifc>)
    requires Accounted(locked, ports, live, bare)
    ensures forall p :: p in locked <==> exists i :: i in live && PairOf(i) == p
    ensures forall i, j :: i in live && j in live && PairOf(i) == PairOf(j) ==> i == j
  {
  }
}
