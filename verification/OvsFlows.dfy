/**
 The OpenFlow flows of staging/kos/pkg/networkfabric/ovs/ovs.go as records, and what a bridge does with a
 frame: in each table some matching flow of the highest priority decides.
 */
module OvsFlows {
  import opened Options
  import opened UInt32
  import opened MacAddresses

  type Port = x: int | 0 <= x < 0x1_0000 witness 0

  datatype Match =
    | AnyFrame
    | FromPort(port: Port)
    | ToMac(vni: uint32, mac: MacAddr)
    | ToArpTarget(vni: uint32, ip: uint32)

  /** Adding a flow replaces the one with the same key. */
  datatype FlowKey = FlowKey(table: nat, priority: nat, what: Match)

  /** Tag sets the tunnel ID and resubmits to table 1; Tunnel sets the tunnel destination and outputs to the VTEP. */
  datatype FlowAction = Resubmit | Drop | Tag(vni: uint32) | Output(port: Port) | Tunnel(host: uint32)

  type Table = map<FlowKey, FlowAction>

  /** The priority of a flow that states none. */
  const NORMAL := 32768

  datatype Ifc =
    | Local(name: string, vni: uint32, mac: MacAddr, ip: uint32)
    | Remote(vni: uint32, mac: MacAddr, ip: uint32, host: uint32)

  datatype Pair = Pair(vni: uint32, ip: uint32)

  function PairOf(i: Ifc): Pair {
    Pair(i.vni, i.ip)
  }

  function DefaultFlows(): Table {
    map[FlowKey(0, 1, AnyFrame) := Resubmit, FlowKey(1, 1, AnyFrame) := Drop]
  }

  function LocalFlows(port: Port, vni: uint32, mac: MacAddr, ip: uint32): Table {
    map[FlowKey(0, NORMAL, FromPort(port)) := Tag(vni),
        FlowKey(1, NORMAL, ToMac(vni, mac)) := Output(port),
        FlowKey(1, NORMAL, ToArpTarget(vni, ip)) := Output(port)]
  }

  function RemoteFlows(vni: uint32, mac: MacAddr, host: uint32, ip: uint32): Table {
    map[FlowKey(1, NORMAL, ToMac(vni, mac)) := Tunnel(host), FlowKey(1, NORMAL, ToArpTarget(vni, ip)) := Tunnel(host)]
  }

  /** A deletion request; `anyTable` when it names no table. */
  datatype Spec = Spec(anyTable: bool, table: nat, what: Match)

  /** Deletion is not strict: it takes every flow that matches at least what the request does. */
  predicate Covers(s: Spec, k: FlowKey) {
    (s.anyTable || s.table == k.table) && (s.what == AnyFrame || s.what == k.what)
  }

  function LocalSpecs(port: Port, vni: uint32, mac: MacAddr, ip: uint32): seq<Spec> {
    [Spec(true, 0, FromPort(port)), Spec(true, 0, ToMac(vni, mac)), Spec(true, 0, ToArpTarget(vni, ip))]
  }

  function RemoteSpecs(vni: uint32, mac: MacAddr, ip: uint32): seq<Spec> {
    [Spec(false, 1, ToMac(vni, mac)), Spec(false, 1, ToArpTarget(vni, ip))]
  }

  predicate CoveredBy(specs: seq<Spec>, k: FlowKey) {
    exists i :: 0 <= i < |specs| && Covers(specs[i], k)
  }

  function Without(flows: Table, specs: seq<Spec>): Table {
    map k | k in flows && !CoveredBy(specs, k) :: flows[k]
  }

  /** The bridge's ports by device name; one of them is the tunnel endpoint. */
  type Ports = map<string, Port>

  const VTEP := "vtep"

  predicate Plugged(ports: Ports, i: Ifc) {
    i.Local? ==> i.name in ports && i.name != VTEP
  }

  function FlowsOf(ports: Ports, i: Ifc): Table
    requires Plugged(ports, i)
  {
    match i
    case Local(name, vni, mac, ip) => LocalFlows(ports[name], vni, mac, ip)
    case Remote(vni, mac, ip, host) => RemoteFlows(vni, mac, host, ip)
  }

  function SpecsOf(ports: Ports, i: Ifc): seq<Spec>
    requires Plugged(ports, i)
  {
    match i
    case Local(name, vni, mac, ip) => LocalSpecs(ports[name], vni, mac, ip)
    case Remote(vni, mac, ip, host) => RemoteSpecs(vni, mac, ip)
  }

  // ---- Frames ----

  /** `arpTarget` is the target address of an ARP frame; the tunnel ID is 0 unless the frame was tunnelled. */
  datatype Frame = Frame(inPort: Port, tunId: uint32, dlDst: MacAddr, arpTarget: Option<uint32>)

  datatype Delivery = Dropped | ToPort(port: Port) | ToHost(host: uint32, tunId: uint32)

  predicate Hits(m: Match, f: Frame) {
    match m
    case AnyFrame => true
    case FromPort(port) => f.inPort == port
    case ToMac(vni, mac) => f.tunId == vni && f.dlDst == mac
    case ToArpTarget(vni, ip) => f.tunId == vni && f.arpTarget == Some(ip)
  }

  predicate Candidate(flows: Table, table: nat, f: Frame, k: FlowKey) {
    k in flows && k.table == table && Hits(k.what, f)
  }

  /** Of several matching flows of the highest priority any may be taken. */
  ghost predicate Chosen(flows: Table, table: nat, f: Frame, k: FlowKey) {
    Candidate(flows, table, f, k) && forall k' :: Candidate(flows, table, f, k') ==> k'.priority <= k.priority
  }

  /** Nothing is sent back out of the port it came from. */
  function Sent(vtep: Port, f: Frame, a: FlowAction): Delivery {
    match a
    case Output(port) => if port == f.inPort then Dropped else ToPort(port)
    case Tunnel(host) => if vtep == f.inPort then Dropped else ToHost(host, f.tunId)
    case _ => Dropped
  }

  ghost predicate Outcome1(vtep: Port, flows: Table, f: Frame, d: Delivery) {
    || (exists k :: Chosen(flows, 1, f, k) && d == Sent(vtep, f, flows[k]))
    || (d == Dropped && forall k :: !Candidate(flows, 1, f, k))
  }

  ghost predicate Outcome(vtep: Port, flows: Table, f: Frame, d: Delivery) {
    || (exists k :: Chosen(flows, 0, f, k) &&
                    match flows[k]
                    case Tag(vni) => Outcome1(vtep, flows, f.(tunId := vni), d)
                    case Resubmit => Outcome1(vtep, flows, f, d)
                    case a => d == Sent(vtep, f, a))
    || (d == Dropped && forall k :: !Candidate(flows, 0, f, k))
  }

  // ---- Flows and the interfaces they serve ----

  predicate Agrees(ports: Ports, i: Ifc, k: FlowKey, a: FlowAction) {
    Plugged(ports, i) && k in FlowsOf(ports, i) && FlowsOf(ports, i)[k] == a
  }

  /** Every flow is a default one or belongs to an interface. */
  ghost predicate Justified(ports: Ports, flows: Table, served: set<Ifc>) {
    forall k :: k in flows && k !in DefaultFlows() ==> exists i :: i in served && Agrees(ports, i, k, flows[k])
  }

  predicate DefaultsIn(flows: Table) {
    forall k :: k in DefaultFlows() ==> k in flows && flows[k] == DefaultFlows()[k]
  }

  /** What comes out of a local interface is tagged with its network. */
  predicate TagIn(ports: Ports, flows: Table, i: Ifc)
    requires Plugged(ports, i)
  {
    i.Local? ==> FlowKey(0, NORMAL, FromPort(ports[i.name])) in flows
                 && flows[FlowKey(0, NORMAL, FromPort(ports[i.name]))] == Tag(i.vni)
  }

  /** All flows of the interface are there. */
  predicate Installed(ports: Ports, flows: Table, i: Ifc)
    requires Plugged(ports, i)
  {
    forall k :: k in FlowsOf(ports, i) ==> k in flows && flows[k] == FlowsOf(ports, i)[k]
  }

  predicate OwnPorts(ports: Ports) {
    VTEP in ports && forall a, b :: a in ports && b in ports && a != b ==> ports[a] != ports[b]
  }

  ghost predicate Sound(ports: Ports, flows: Table, served: set<Ifc>) {
    && OwnPorts(ports) && DefaultsIn(flows) && Justified(ports, flows, served)
    && (forall i :: i in served ==> Plugged(ports, i) && TagIn(ports, flows, i))
  }

  /** It has the MAC address, or asks for the guest address, of an interface of the network. */
  predicate Addressed(f: Frame, vni: uint32, i: Ifc) {
    i.vni == vni && (f.dlDst == i.mac || f.arpTarget == Some(i.ip))
  }

  /** The frame gets to an interface of the network that it is addressed to. */
  ghost predicate Reaches(ports: Ports, served: set<Ifc>, vni: uint32, f: Frame, d: Delivery) {
    exists i :: i in served && Addressed(f, vni, i) && Plugged(ports, i)
                && d == if i.Local? then ToPort(ports[i.name]) else ToHost(i.host, vni)
  }

  /** In table 1 a frame only gets to interfaces of its tunnel ID. */
  lemma Table1Isolates(ports: Ports, flows: Table, served: set<Ifc>, f: Frame, d: Delivery)
    requires Sound(ports, flows, served) && Outcome1(ports[VTEP], flows, f, d)
    ensures d == Dropped || Reaches(ports, served, f.tunId, f, d)
    ensures f.inPort == ports[VTEP] ==> !d.ToHost?
  {
    if d != Dropped {
      var k :| Chosen(flows, 1, f, k) && d == Sent(ports[VTEP], f, flows[k]);
      assert Candidate(flows, 1, f, k);
      assert k !in DefaultFlows();
      var i :| i in served && Agrees(ports, i, k, flows[k]);
    }
  }

  /** What a local interface sends is only delivered to interfaces of its network. */
  lemma LocalFramesStayInNetwork(ports: Ports, flows: Table, served: set<Ifc>, i: Ifc, f: Frame, d: Delivery)
    requires Sound(ports, flows, served) && i in served && i.Local?
    requires f.inPort == ports[i.name] && Outcome(ports[VTEP], flows, f, d)
    ensures d == Dropped || Reaches(ports, served, i.vni, f, d)
  {
    var tag := FlowKey(0, NORMAL, FromPort(ports[i.name]));
    assert TagIn(ports, flows, i);
    assert Candidate(flows, 0, f, tag);
    var k :| Chosen(flows, 0, f, k) &&
             match flows[k]
             case Tag(vni) => Outcome1(ports[VTEP], flows, f.(tunId := vni), d)
             case Resubmit => Outcome1(ports[VTEP], flows, f, d)
             case a => d == Sent(ports[VTEP], f, a);
    ChosenIsTag(ports, flows, served, f, k, tag);
    Table1Isolates(ports, flows, served, f.(tunId := i.vni), d);
  }

  /** The tagging flow beats the default one. */
  lemma ChosenIsTag(ports: Ports, flows: Table, served: set<Ifc>, f: Frame, k: FlowKey, tag: FlowKey)
    requires Sound(ports, flows, served) && Chosen(flows, 0, f, k)
    requires Candidate(flows, 0, f, tag) && tag.priority == NORMAL && tag.what == FromPort(f.inPort)
    ensures k == tag
  {
    hide OwnPorts, TagIn;
    assert k.priority >= NORMAL;
    assert k !in DefaultFlows();
    var i :| i in served && Agrees(ports, i, k, flows[k]);
  }

  /** A frame that arrives through the tunnel is only delivered to local interfaces of the network it names. */
  lemma TunnelledFramesStayInNetwork(ports: Ports, flows: Table, served: set<Ifc>, f: Frame, d: Delivery)
    requires Sound(ports, flows, served)
    requires f.inPort == ports[VTEP] && Outcome(ports[VTEP], flows, f, d)
    ensures d == Dropped || (d.ToPort? && Reaches(ports, served, f.tunId, f, d))
  {
    if d != Dropped {
      var k :| Chosen(flows, 0, f, k) &&
               match flows[k]
               case Tag(vni) => Outcome1(ports[VTEP], flows, f.(tunId := vni), d)
               case Resubmit => Outcome1(ports[VTEP], flows, f, d)
               case a => d == Sent(ports[VTEP], f, a);
      UnservedIsUntagged(ports, flows, served, VTEP, f, k);
      Table1Isolates(ports, flows, served, f, d);
    }
  }

  /** No interface is served under the name: the VTEP, or a device that a failure left behind. */
  ghost predicate Unserved(ports: Ports, served: set<Ifc>, name: string) {
    name in ports && forall i :: i in served && i.Local? ==> i.name != name
  }

  lemma UnservedIsUntagged(ports: Ports, flows: Table, served: set<Ifc>, name: string, f: Frame, k: FlowKey)
    requires Sound(ports, flows, served) && Unserved(ports, served, name)
    requires f.inPort == ports[name] && Candidate(flows, 0, f, k)
    ensures flows[k] == Resubmit
  {
    forall i | i in served ensures !Agrees(ports, i, k, flows[k]) {
      assert Plugged(ports, i);
      assert i.Local? ==> ports[i.name] != ports[name];
    }
    assert k in DefaultFlows();
  }

  /** What a device left behind sends goes nowhere, as no network has the number 0. */
  lemma StrayFramesAreDropped(ports: Ports, flows: Table, served: set<Ifc>, name: string, f: Frame, d: Delivery)
    requires Sound(ports, flows, served) && Unserved(ports, served, name) && forall i :: i in served ==> i.vni != 0
    requires f.inPort == ports[name] && f.tunId == 0 && Outcome(ports[VTEP], flows, f, d)
    ensures d == Dropped
  {
    if !(d == Dropped && forall k :: !Candidate(flows, 0, f, k)) {
      var k :| Chosen(flows, 0, f, k) &&
               match flows[k]
               case Tag(vni) => Outcome1(ports[VTEP], flows, f.(tunId := vni), d)
               case Resubmit => Outcome1(ports[VTEP], flows, f, d)
               case a => d == Sent(ports[VTEP], f, a);
      UnservedIsUntagged(ports, flows, served, name, f, k);
      Table1Isolates(ports, flows, served, f, d);
    }
  }

  /** The frame is for `to`, and no address of it is only another interface's. */
  ghost predicate IsFor(served: set<Ifc>, f: Frame, vni: uint32, to: Ifc) {
    && Addressed(f, vni, to)
    && forall i :: i in served && i.vni == vni ==>
         (f.dlDst == i.mac ==> f.dlDst == to.mac) && (f.arpTarget == Some(i.ip) ==> f.arpTarget == Some(to.ip))
  }

  /** With its flows in place an interface gets just what its network's local interfaces send it, itself apart. */
  lemma FrameIsDelivered(ports: Ports, flows: Table, served: set<Ifc>, from: Ifc, to: Ifc, f: Frame, d: Delivery)
    requires Sound(ports, flows, served) && from in served && from.Local? && f.inPort == ports[from.name]
    requires to in served && Installed(ports, flows, to) && IsFor(served, f, from.vni, to)
    ensures Outcome(ports[VTEP], flows, f, d)
            <==> d == if to.Remote? then ToHost(to.host, to.vni)
                      else if to.name == from.name then Dropped
                      else ToPort(ports[to.name])
  {
    hide Outcome, Outcome1, Installed;
    LocalFramesAreTagged(ports, flows, served, from, f, d);
    Table1Delivers(ports, flows, served, to, f.(tunId := from.vni), d);
    OtherPorts(ports, from, to);
  }

  /** What arrives for it through the tunnel, too; what arrives for a remote interface goes nowhere. */
  lemma TunnelledFrameIsDelivered(ports: Ports, flows: Table, served: set<Ifc>, to: Ifc, f: Frame, d: Delivery)
    requires Sound(ports, flows, served) && f.inPort == ports[VTEP]
    requires to in served && Installed(ports, flows, to) && IsFor(served, f, f.tunId, to)
    ensures Outcome(ports[VTEP], flows, f, d) <==> d == if to.Remote? then Dropped else ToPort(ports[to.name])
  {
    hide Outcome, Outcome1, Installed;
    TunnelledFramesAreResubmitted(ports, flows, served, f, d);
    Table1Delivers(ports, flows, served, to, f, d);
    assert Plugged(ports, to);
  }

  /**
   A local interface's frame gets to some interface of its network that it is addressed to, itself apart, or is
   dropped as there is none.
   */
  ghost predicate SentRight(ports: Ports, served: set<Ifc>, from: Ifc, f: Frame, d: Delivery)
    requires from.Local? && forall i :: i in served ==> Plugged(ports, i)
  {
    || (exists to :: to in served && Addressed(f, from.vni, to) && Plugged(ports, to)
                     && d == if to.Remote? then ToHost(to.host, to.vni)
                             else if to.name == from.name then Dropped
                             else ToPort(ports[to.name]))
    || (d == Dropped && forall to :: to in served ==> !Addressed(f, from.vni, to))
  }

  /** What arrives through the tunnel likewise gets to the local interfaces. */
  ghost predicate ArrivesRight(ports: Ports, served: set<Ifc>, f: Frame, d: Delivery)
    requires forall i :: i in served ==> Plugged(ports, i)
  {
    || (exists to :: to in served && Addressed(f, f.tunId, to) && Plugged(ports, to)
                     && d == if to.Remote? then Dropped else ToPort(ports[to.name]))
    || (d == Dropped && forall to :: to in served ==> !Addressed(f, f.tunId, to))
  }

  /** When all flows are in place these are the outcomes, and no others. */
  lemma LocalFramesGoWhereAddressed(ports: Ports, flows: Table, served: set<Ifc>, from: Ifc, f: Frame, d: Delivery)
    requires Sound(ports, flows, served) && AllInstalled(ports, flows, served)
    requires from in served && from.Local? && f.inPort == ports[from.name]
    ensures Outcome(ports[VTEP], flows, f, d)
            <==> SentRight(ports, served, from, f, d)
  {
    hide Outcome, Outcome1, AllInstalled;
    LocalFramesAreTagged(ports, flows, served, from, f, d);
    Table1IsExact(ports, flows, served, f.(tunId := from.vni), d);
    forall to | to in served && Addressed(f, from.vni, to) ensures Addressed(f.(tunId := from.vni), from.vni, to) {
      OtherPorts(ports, from, to);
    }
  }

  lemma TunnelledFramesGoWhereAddressed(ports: Ports, flows: Table, served: set<Ifc>, f: Frame, d: Delivery)
    requires Sound(ports, flows, served) && AllInstalled(ports, flows, served) && f.inPort == ports[VTEP]
    ensures Outcome(ports[VTEP], flows, f, d)
            <==> ArrivesRight(ports, served, f, d)
  {
    hide Outcome, Outcome1, AllInstalled;
    TunnelledFramesAreResubmitted(ports, flows, served, f, d);
    Table1IsExact(ports, flows, served, f, d);
  }

  lemma LocalFramesAreTagged(ports: Ports, flows: Table, served: set<Ifc>, from: Ifc, f: Frame, d: Delivery)
    requires Sound(ports, flows, served) && from in served && from.Local? && f.inPort == ports[from.name]
    ensures Outcome(ports[VTEP], flows, f, d) <==> Outcome1(ports[VTEP], flows, f.(tunId := from.vni), d)
  {
    hide Outcome1;
    var tag := FlowKey(0, NORMAL, FromPort(ports[from.name]));
    assert TagIn(ports, flows, from);
    assert Candidate(flows, 0, f, tag);
    forall k | Chosen(flows, 0, f, k) ensures k == tag {
      ChosenIsTag(ports, flows, served, f, k, tag);
    }
    NormalIsHighest(ports, flows, served, 0, f);
    assert Chosen(flows, 0, f, tag);
  }

  lemma TunnelledFramesAreResubmitted(ports: Ports, flows: Table, served: set<Ifc>, f: Frame, d: Delivery)
    requires Sound(ports, flows, served) && f.inPort == ports[VTEP]
    ensures Outcome(ports[VTEP], flows, f, d) <==> Outcome1(ports[VTEP], flows, f, d)
  {
    hide Outcome1;
    forall k | Candidate(flows, 0, f, k) ensures flows[k] == Resubmit && k == FlowKey(0, 1, AnyFrame) {
      UnservedIsUntagged(ports, flows, served, VTEP, f, k);
    }
    assert Chosen(flows, 0, f, FlowKey(0, 1, AnyFrame));
  }

  /** What table 1 does for an interface. */
  function Forwarding(ports: Ports, i: Ifc): FlowAction
    requires Plugged(ports, i)
  {
    if i.Local? then Output(ports[i.name]) else Tunnel(i.host)
  }

  /** A flow of table 1 that is not the default one is for an interface that the frame is addressed to. */
  lemma OwnerIsAddressed(ports: Ports, flows: Table, served: set<Ifc>, f: Frame, k: FlowKey) returns (i: Ifc)
    requires Sound(ports, flows, served) && Candidate(flows, 1, f, k) && k !in DefaultFlows()
    ensures i in served && Addressed(f, f.tunId, i) && Plugged(ports, i) && flows[k] == Forwarding(ports, i)
    ensures k == FlowKey(1, NORMAL, ToMac(f.tunId, i.mac)) || k == FlowKey(1, NORMAL, ToArpTarget(f.tunId, i.ip))
  {
    i :| i in served && Agrees(ports, i, k, flows[k]);
  }

  /** The flow for an interface that the frame is addressed to. */
  function FlowFor(f: Frame, i: Ifc): FlowKey {
    FlowKey(1, NORMAL, if f.dlDst == i.mac then ToMac(i.vni, i.mac) else ToArpTarget(i.vni, i.ip))
  }

  lemma FlowForIsCandidate(ports: Ports, flows: Table, f: Frame, to: Ifc)
    requires Plugged(ports, to) && Installed(ports, flows, to) && Addressed(f, f.tunId, to)
    ensures Candidate(flows, 1, f, FlowFor(f, to)) && flows[FlowFor(f, to)] == Forwarding(ports, to)
  {
    assert FlowFor(f, to) in FlowsOf(ports, to);
  }

  lemma Table1Delivers(ports: Ports, flows: Table, served: set<Ifc>, to: Ifc, f: Frame, d: Delivery)
    requires Sound(ports, flows, served) && Plugged(ports, to) && Installed(ports, flows, to)
    requires IsFor(served, f, f.tunId, to)
    ensures Outcome1(ports[VTEP], flows, f, d) <==> d == Sent(ports[VTEP], f, Forwarding(ports, to))
  {
    NormalIsHighest(ports, flows, served, 1, f);
    FlowForIsCandidate(ports, flows, f, to);
    assert Chosen(flows, 1, f, FlowFor(f, to));
    forall k | Chosen(flows, 1, f, k) ensures flows[k] == Forwarding(ports, to) {
      var i := OwnerIsAddressed(ports, flows, served, f, k);
      assert k in FlowsOf(ports, to);
    }
  }

  lemma Table1IsExact(ports: Ports, flows: Table, served: set<Ifc>, f: Frame, d: Delivery)
    requires Sound(ports, flows, served) && AllInstalled(ports, flows, served)
    ensures Outcome1(ports[VTEP], flows, f, d)
            <==> || (exists to :: to in served && Addressed(f, f.tunId, to)
                                  && d == Sent(ports[VTEP], f, Forwarding(ports, to)))
                 || (d == Dropped && forall to :: to in served ==> !Addressed(f, f.tunId, to))
  {
    hide Justified, DefaultsIn, TagIn, Installed, Outcome1, Addressed, Forwarding, Sent;
    if Outcome1(ports[VTEP], flows, f, d) {
      OutcomeIsFor(ports, flows, served, f, d);
    } else {
      if to :| to in served && Addressed(f, f.tunId, to) && d == Sent(ports[VTEP], f, Forwarding(ports, to)) {
        FlowForDecides(ports, flows, served, f, to);
      }
      if forall to :: to in served ==> !Addressed(f, f.tunId, to) {
        DefaultDecides(ports, flows, served, f);
      }
    }
  }

  lemma OutcomeIsFor(ports: Ports, flows: Table, served: set<Ifc>, f: Frame, d: Delivery)
    requires Sound(ports, flows, served) && AllInstalled(ports, flows, served) && Outcome1(ports[VTEP], flows, f, d)
    ensures || (exists i :: i in served && Addressed(f, f.tunId, i)
                            && d == Sent(ports[VTEP], f, Forwarding(ports, i)))
            || (d == Dropped && forall i :: i in served ==> !Addressed(f, f.tunId, i))
  {
    hide Installed, Addressed, Justified, DefaultsIn, TagIn, Forwarding;
    if k :| Chosen(flows, 1, f, k) && d == Sent(ports[VTEP], f, flows[k]) {
      ChosenIsFor(ports, flows, served, f, k);
    } else {
      DefaultIsCandidate(ports, flows, served, f);
    }
  }

  lemma FlowForDecides(ports: Ports, flows: Table, served: set<Ifc>, f: Frame, to: Ifc)
    requires Sound(ports, flows, served) && AllInstalled(ports, flows, served)
    requires to in served && Addressed(f, f.tunId, to)
    ensures Outcome1(ports[VTEP], flows, f, Sent(ports[VTEP], f, Forwarding(ports, to)))
  {
    hide AllInstalled, Addressed, Justified, DefaultsIn, TagIn, Forwarding, Sent, FlowFor;
    FlowForIsChosen(ports, flows, served, f, to);
  }

  lemma DefaultDecides(ports: Ports, flows: Table, served: set<Ifc>, f: Frame)
    requires Sound(ports, flows, served) && forall i :: i in served ==> !Addressed(f, f.tunId, i)
    ensures Outcome1(ports[VTEP], flows, f, Dropped)
  {
    hide Addressed, Justified, DefaultsIn, TagIn;
    DefaultIsCandidate(ports, flows, served, f);
  }

  lemma FlowForIsChosen(ports: Ports, flows: Table, served: set<Ifc>, f: Frame, to: Ifc)
    requires Sound(ports, flows, served) && AllInstalled(ports, flows, served)
    requires to in served && Addressed(f, f.tunId, to)
    ensures Chosen(flows, 1, f, FlowFor(f, to)) && flows[FlowFor(f, to)] == Forwarding(ports, to)
  {
    hide Sound, Addressed, Installed, Candidate;
    NormalIsHighest(ports, flows, served, 1, f);
    FlowForIsCandidate(ports, flows, f, to);
  }

  lemma ChosenIsFor(ports: Ports, flows: Table, served: set<Ifc>, f: Frame, k: FlowKey)
    requires Sound(ports, flows, served) && AllInstalled(ports, flows, served) && Chosen(flows, 1, f, k)
    ensures || (flows[k] == Drop && forall i :: i in served ==> !Addressed(f, f.tunId, i))
            || (exists i :: i in served && Addressed(f, f.tunId, i) && flows[k] == Forwarding(ports, i))
  {
    hide AllInstalled, Addressed, Justified, OwnPorts, TagIn;
    if k !in DefaultFlows() {
      var i := OwnerIsAddressed(ports, flows, served, f, k);
    } else {
      forall i | i in served ensures !Addressed(f, f.tunId, i) {
        if Addressed(f, f.tunId, i) {
          FlowForIsChosen(ports, flows, served, f, i);
        }
      }
    }
  }

  /** The default flow decides when no other one matches. */
  lemma DefaultIsCandidate(ports: Ports, flows: Table, served: set<Ifc>, f: Frame)
    requires Sound(ports, flows, served)
    ensures exists k :: Candidate(flows, 1, f, k)
    ensures (forall i :: i in served ==> !Addressed(f, f.tunId, i)) ==>
              Chosen(flows, 1, f, FlowKey(1, 1, AnyFrame)) && flows[FlowKey(1, 1, AnyFrame)] == Drop
  {
    var last := FlowKey(1, 1, AnyFrame);
    assert Candidate(flows, 1, f, last) && flows[last] == Drop;
    forall k | Candidate(flows, 1, f, k) && k !in DefaultFlows()
      ensures exists i :: i in served && Addressed(f, f.tunId, i) {
      var i := OwnerIsAddressed(ports, flows, served, f, k);
    }
  }

  lemma OtherPorts(ports: Ports, from: Ifc, to: Ifc)
    requires OwnPorts(ports) && Plugged(ports, from) && Plugged(ports, to) && from.Local?
    ensures ports[VTEP] != ports[from.name]
    ensures to.Local? ==> (to.name == from.name <==> ports[to.name] == ports[from.name])
  {
  }

  lemma NormalIsHighest(ports: Ports, flows: Table, served: set<Ifc>, table: nat, f: Frame)
    requires Sound(ports, flows, served)
    ensures forall k :: Candidate(flows, table, f, k) ==> k.priority <= NORMAL
  {
    forall k | Candidate(flows, table, f, k) ensures k.priority <= NORMAL {
      if k !in DefaultFlows() {
        var i :| i in served && Agrees(ports, i, k, flows[k]);
      }
    }
  }

  // ---- Adding and deleting ----

  /** The flows of one interface are told from another's by port, pair and MAC address. */
  lemma DeletionSparesIff(ports: Ports, i: Ifc, j: Ifc)
    requires OwnPorts(ports) && Plugged(ports, i) && Plugged(ports, j)
    requires PairOf(i) != PairOf(j) && (i.Local? && j.Local? ==> i.name != j.name)
    ensures (forall k :: k in FlowsOf(ports, j) ==> !CoveredBy(SpecsOf(ports, i), k)) <==>
            !(i.vni == j.vni && i.mac == j.mac)
  {
    if i.vni == j.vni && i.mac == j.mac {
      var k := FlowKey(1, NORMAL, ToMac(j.vni, j.mac));
      assert k in FlowsOf(ports, j);
      var n := if i.Local? then 1 else 0;
      assert Covers(SpecsOf(ports, i)[n], k);
    } else {
      forall k | k in FlowsOf(ports, j) ensures !CoveredBy(SpecsOf(ports, i), k) {
        forall n | 0 <= n < |SpecsOf(ports, i)| ensures !Covers(SpecsOf(ports, i)[n], k) {
        }
      }
    }
  }

  /** Two such interfaces of a network: 8.0.0.1 and 9.0.0.1 have the same MAC address. */
  lemma DeletionExample(vni: uint32) returns (ports: Ports, i: Ifc, j: Ifc)
    ensures OwnPorts(ports) && Plugged(ports, i) && Plugged(ports, j) && PairOf(i) != PairOf(j)
    ensures i.mac == GenerateMacAddr(i.vni, i.ip) && j.mac == GenerateMacAddr(j.vni, j.ip)
    ensures exists k :: k in FlowsOf(ports, j) && CoveredBy(SpecsOf(ports, i), k)
  {
    hide GenerateMacAddr, FlowsOf, CoveredBy;
    ports := map[VTEP := 1, "one" := 2, "other" := 3];
    i := Local("one", vni, GenerateMacAddr(vni, 0x0800_0001), 0x0800_0001);
    j := Local("other", vni, GenerateMacAddr(vni, 0x0900_0001), 0x0900_0001);
    MacCollisionExample(vni);
    DeletionSparesIff(ports, i, j);
  }

  /** An interface's own deletion takes all its flows and none of the default ones. */
  lemma DeletionIsComplete(ports: Ports, i: Ifc)
    requires Plugged(ports, i)
    ensures forall k :: k in FlowsOf(ports, i) ==> CoveredBy(SpecsOf(ports, i), k)
    ensures forall k :: k in DefaultFlows() ==> !CoveredBy(SpecsOf(ports, i), k)
  {
    forall k | k in FlowsOf(ports, i) ensures CoveredBy(SpecsOf(ports, i), k) {
      var specs := SpecsOf(ports, i);
      assert Covers(specs[0], k) || Covers(specs[1], k) || (i.Local? && Covers(specs[2], k));
    }
    forall k | k in DefaultFlows() ensures !CoveredBy(SpecsOf(ports, i), k) {
    }
  }

  /** Adding an interface's flows, whatever they replace. */
  lemma AddingIsSound(ports: Ports, flows: Table, served: set<Ifc>, i: Ifc)
    requires Sound(ports, flows, served) && Plugged(ports, i)
    requires i.Local? ==> forall j :: j in served && j.Local? ==> j.name != i.name
    ensures Sound(ports, flows + FlowsOf(ports, i), served + {i})
    ensures Installed(ports, flows + FlowsOf(ports, i), i)
  {
    var flows', served' := flows + FlowsOf(ports, i), served + {i};
    forall k | k in flows' && k !in DefaultFlows() ensures exists j :: j in served' && Agrees(ports, j, k, flows'[k]) {
      if k in FlowsOf(ports, i) {
        assert i in served' && Agrees(ports, i, k, flows'[k]);
      } else {
        var j :| j in served && Agrees(ports, j, k, flows[k]);
        assert j in served' && Agrees(ports, j, k, flows'[k]);
      }
    }
    forall j | j in served' ensures Plugged(ports, j) && TagIn(ports, flows', j) {
      if j in served {
        assert Plugged(ports, j) && TagIn(ports, flows, j);
      }
    }
  }

  /** Deleting an interface's flows leaves only flows of others. */
  lemma DeletingIsSound(ports: Ports, flows: Table, served: set<Ifc>, i: Ifc)
    requires Sound(ports, flows, served) && Plugged(ports, i)
    requires i.Local? ==> forall j :: j in served && j != i && j.Local? ==> j.name != i.name
    ensures Sound(ports, Without(flows, SpecsOf(ports, i)), served - {i})
  {
    var flows', served' := Without(flows, SpecsOf(ports, i)), served - {i};
    DeletionIsComplete(ports, i);
    forall k | k in flows' && k !in DefaultFlows() ensures exists j :: j in served' && Agrees(ports, j, k, flows'[k]) {
      var j :| j in served && Agrees(ports, j, k, flows[k]);
      assert j != i;
      assert j in served' && Agrees(ports, j, k, flows'[k]);
    }
    forall j | j in served' ensures Plugged(ports, j) && TagIn(ports, flows', j) {
      assert Plugged(ports, j) && TagIn(ports, flows, j);
      assert j.Local? && i.Local? ==> ports[j.name] != ports[i.name];
    }
  }

  ghost predicate AllInstalled(ports: Ports, flows: Table, served: set<Ifc>) {
    forall i :: i in served ==> Plugged(ports, i) && Installed(ports, flows, i)
  }

  /** Two interfaces share neither pair nor, in one network, MAC address, nor name. */
  predicate Apart(i: Ifc, j: Ifc) {
    PairOf(i) != PairOf(j) && !(i.vni == j.vni && i.mac == j.mac) && (i.Local? && j.Local? ==> i.name != j.name)
  }

  lemma AddingKeepsInstalled(ports: Ports, flows: Table, served: set<Ifc>, i: Ifc)
    requires OwnPorts(ports) && AllInstalled(ports, flows, served) && Plugged(ports, i)
    requires forall j :: j in served ==> Apart(i, j)
    ensures AllInstalled(ports, flows + FlowsOf(ports, i), served + {i})
  {
    var flows' := flows + FlowsOf(ports, i);
    forall j | j in served ensures Installed(ports, flows', j) {
      assert Installed(ports, flows, j);
      KeysApart(ports, i, j);
    }
  }

  lemma KeysApart(ports: Ports, i: Ifc, j: Ifc)
    requires OwnPorts(ports) && Plugged(ports, i) && Plugged(ports, j) && Apart(i, j)
    ensures forall k :: k in FlowsOf(ports, j) ==> k !in FlowsOf(ports, i)
  {
  }

  lemma DeletingKeepsInstalled(ports: Ports, flows: Table, served: set<Ifc>, i: Ifc)
    requires OwnPorts(ports) && AllInstalled(ports, flows, served) && Plugged(ports, i)
    requires forall j :: j in served && j != i ==> Apart(i, j)
    ensures AllInstalled(ports, Without(flows, SpecsOf(ports, i)), served - {i})
  {
    forall j | j in served && j != i ensures Installed(ports, Without(flows, SpecsOf(ports, i)), j) {
      assert Installed(ports, flows, j);
      DeletionSparesIff(ports, i, j);
    }
  }
}
