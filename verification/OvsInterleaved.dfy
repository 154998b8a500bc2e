/**
 The calls of the OvS fabric of staging/kos/pkg/networkfabric/ovs/ovs.go with their commands interleaved: any
 number of calls are under way, each command is a step that may fail, and so are taking and giving back a lock.
 For one interface there is one call at a time, by the worker of its attachment.
 */
module OvsInterleaved {
  import opened OvsFlows
  import opened OvsFabrics

  /** How far the creation or deletion of an interface has got. */
  datatype Stage =
    | Locked
    | HasDevice
    | Numbered(port: Port)              // creation has read the device's number
    | CleaningUp
    | Abandoned                         // only the lock is left to give back
    | Up
    | Going(port: Port, bare: bool)     // deletion has read the number; `bare` if the flows are gone already
    | Bare
    | Gone                              // only the lock is left to give back

  datatype Entry = Entry(ifc: Ifc, stage: Stage)

  type Id = nat

  datatype State = State(locked: set<Pair>, ports: Ports, flows: Table, entries: map<Id, Entry>)

  datatype Action =
    | Lock(k: Id, ifc: Ifc)
    | AddPort(k: Id, port: Port)
    | ReadNumber(k: Id)
    | AddFlows(k: Id)
    | CreateFails(k: Id)                // the next command of a creation fails
    | CleanUp(k: Id, fails: bool)
    | Unlock(k: Id)
    | ReadToDelete(k: Id)
    | DelFlows(k: Id)
    | DelPort(k: Id)
    | DeleteFails(k: Id)                // the next command of a deletion fails

  predicate At(s: State, k: Id, stage: Stage) {
    k in s.entries && s.entries[k].stage == stage
  }

  /** A creation of the interface adds its flows next. */
  predicate AddsFlows(e: Entry) {
    if e.ifc.Local? then e.stage.Numbered? else e.stage == Locked
  }

  /** A deletion of the interface deletes its flows next. */
  predicate DeletesFlows(e: Entry) {
    if e.ifc.Local? then e.stage.Going? else e.stage == Up
  }

  /** `properOnly` says that all calls are for the agent's MAC addresses. */
  predicate Enabled(properOnly: bool, s: State, a: Action) {
    match a
    case Lock(k, ifc) => k !in s.entries && PairOf(ifc) !in s.locked && (properOnly ==> Proper(ifc))
    case AddPort(k, port) =>
      At(s, k, Locked) && s.entries[k].ifc.Local? && s.entries[k].ifc.name !in s.ports && port !in s.ports.Values
    case ReadNumber(k) => At(s, k, HasDevice) && s.entries[k].ifc.Local? && s.entries[k].ifc.name in s.ports
    case AddFlows(k) => k in s.entries && AddsFlows(s.entries[k])
    case CreateFails(k) => k in s.entries && (s.entries[k].stage in {Locked, HasDevice} || s.entries[k].stage.Numbered?)
    case CleanUp(k, fails) => At(s, k, CleaningUp) && s.entries[k].ifc.Local?
    case Unlock(k) => At(s, k, Abandoned) || At(s, k, Gone)
    case ReadToDelete(k) =>
      (At(s, k, Up) || At(s, k, Bare)) && s.entries[k].ifc.Local? && s.entries[k].ifc.name in s.ports
    case DelFlows(k) => k in s.entries && DeletesFlows(s.entries[k])
    case DelPort(k) => At(s, k, Bare) && s.entries[k].ifc.Local?
    case DeleteFails(k) => k in s.entries && s.entries[k].stage.Going?
  }

  function Move(s: State, k: Id, stage: Stage): State
    requires k in s.entries
  {
    s.(entries := s.entries[k := s.entries[k].(stage := stage)])
  }

  /** The flows a creation adds, by the number it has read. */
  function Added(e: Entry): Table
    requires AddsFlows(e)
  {
    if e.ifc.Local? then LocalFlows(e.stage.port, e.ifc.vni, e.ifc.mac, e.ifc.ip)
    else RemoteFlows(e.ifc.vni, e.ifc.mac, e.ifc.host, e.ifc.ip)
  }

  function Requested(e: Entry): seq<Spec>
    requires DeletesFlows(e)
  {
    if e.ifc.Local? then LocalSpecs(e.stage.port, e.ifc.vni, e.ifc.mac, e.ifc.ip)
    else RemoteSpecs(e.ifc.vni, e.ifc.mac, e.ifc.ip)
  }

  function Apply(properOnly: bool, s: State, a: Action): State
    requires Enabled(properOnly, s, a)
  {
    match a
    case Lock(k, ifc) => s.(locked := s.locked + {PairOf(ifc)}, entries := s.entries[k := Entry(ifc, Locked)])
    case AddPort(k, port) => Move(s, k, HasDevice).(ports := s.ports[s.entries[k].ifc.name := port])
    case ReadNumber(k) => Move(s, k, Numbered(s.ports[s.entries[k].ifc.name]))
    case AddFlows(k) => Move(s, k, Up).(flows := s.flows + Added(s.entries[k]))
    case CreateFails(k) => Move(s, k, if s.entries[k].stage == Locked then Abandoned else CleaningUp)
    case CleanUp(k, fails) =>
      Move(s, k, Abandoned).(ports := if fails then s.ports else s.ports - {s.entries[k].ifc.name})
    case Unlock(k) => s.(locked := s.locked - {PairOf(s.entries[k].ifc)}, entries := s.entries - {k})
    case ReadToDelete(k) => Move(s, k, Going(s.ports[s.entries[k].ifc.name], s.entries[k].stage == Bare))
    case DelFlows(k) =>
      Move(s, k, if s.entries[k].ifc.Local? then Bare else Gone).(flows := Without(s.flows, Requested(s.entries[k])))
    case DelPort(k) => Move(s, k, Gone).(ports := s.ports - {s.entries[k].ifc.name})
    case DeleteFails(k) => Move(s, k, if s.entries[k].stage.bare then Bare else Up)
  }

  function Start(vtep: Port): State {
    State({}, map[VTEP := vtep], DefaultFlows(), map[])
  }

  ghost predicate IsRun(properOnly: bool, run: seq<State>, acts: seq<Action>) {
    && |run| == |acts| + 1 && (exists vtep :: run[0] == Start(vtep))
    && forall i :: 0 <= i < |acts| ==> Follows(properOnly, run[i], acts[i], run[i + 1])
  }

  ghost predicate Follows(properOnly: bool, s: State, a: Action, s': State) {
    Enabled(properOnly, s, a) && s' == Apply(properOnly, s, a)
  }

  // ---- The invariant ----

  /** The interface is a local one and its device is there. */
  predicate OwnsDevice(e: Entry) {
    e.ifc.Local? && e.stage !in {Locked, Abandoned, Gone}
  }

  /** All flows of the interface have been added and none deleted. */
  predicate Serves(e: Entry) {
    e.stage == Up || (e.stage.Going? && !e.stage.bare)
  }

  function Served(entries: map<Id, Entry>): set<Ifc> {
    set k | k in entries && Serves(entries[k]) :: entries[k].ifc
  }

  predicate EntryOk(properOnly: bool, ports: Ports, e: Entry) {
    && (properOnly ==> Proper(e.ifc))
    && (e.ifc.Remote? ==> e.stage in {Locked, Abandoned, Up, Gone})
    && (OwnsDevice(e) ==> e.ifc.name in ports && e.ifc.name != VTEP)
    && (e.stage.Numbered? || e.stage.Going? ==> e.ifc.name in ports && e.stage.port == ports[e.ifc.name])
  }

  predicate TwoOk(e: Entry, e': Entry) {
    PairOf(e.ifc) != PairOf(e'.ifc) && (OwnsDevice(e) && OwnsDevice(e') ==> e.ifc.name != e'.ifc.name)
  }

  ghost predicate EntriesOk(properOnly: bool, ports: Ports, entries: map<Id, Entry>) {
    && (forall k :: k in entries ==> EntryOk(properOnly, ports, entries[k]))
    && (forall k, n :: k in entries && n in entries && k != n ==> TwoOk(entries[k], entries[n]))
  }

  /** A pair is locked exactly while a call for it is under way or its interface is there. */
  ghost predicate LocksOk(locked: set<Pair>, entries: map<Id, Entry>) {
    forall p :: p in locked <==> exists k :: k in entries && PairOf(entries[k].ifc) == p
  }

  ghost predicate FlowsOk(properOnly: bool, s: State) {
    && Sound(s.ports, s.flows, Served(s.entries))
    && (properOnly ==> AllInstalled(s.ports, s.flows, Served(s.entries)))
  }

  ghost predicate Ok(properOnly: bool, s: State) {
    && OwnPorts(s.ports) && LocksOk(s.locked, s.entries)
    && EntriesOk(properOnly, s.ports, s.entries) && FlowsOk(properOnly, s)
  }

  /** An entry that does not serve comes or goes. */
  lemma ServedWithout(entries: map<Id, Entry>, k: Id)
    requires k in entries && !Serves(entries[k])
    ensures Served(entries - {k}) == Served(entries)
  {
    var fewer := entries - {k};
    forall i ensures i in Served(fewer) <==> i in Served(entries) {
      if n :| n in entries && Serves(entries[n]) && entries[n].ifc == i {
        assert n in fewer && Serves(fewer[n]) && fewer[n].ifc == i;
      }
      if n :| n in fewer && Serves(fewer[n]) && fewer[n].ifc == i {
        assert n in entries && Serves(entries[n]) && entries[n].ifc == i;
      }
    }
  }

  /** A step that moves one interface on changes what is served only by that interface. */
  lemma ServedAfter(properOnly: bool, ports: Ports, entries: map<Id, Entry>, k: Id, e: Entry)
    requires EntriesOk(properOnly, ports, entries) && k in entries && e.ifc == entries[k].ifc
    ensures Served(entries[k := e]) == if Serves(e) then Served(entries) + {e.ifc} else Served(entries) - {e.ifc}
    ensures e.ifc in Served(entries) <==> Serves(entries[k])
  {
    var entries' := entries[k := e];
    forall n | n in entries && n != k ensures entries[n].ifc != e.ifc {
      assert TwoOk(entries[n], entries[k]);
    }
    forall i ensures i in Served(entries') <==> if Serves(e) then i in Served(entries) || i == e.ifc
                                                else i in Served(entries) && i != e.ifc {
      if n :| n in entries' && Serves(entries'[n]) && entries'[n].ifc == i {
        assert n != k ==> n in entries && Serves(entries[n]) && entries[n].ifc == i;
      }
      if n :| n in entries && Serves(entries[n]) && entries[n].ifc == i {
        assert n != k ==> n in entries' && Serves(entries'[n]) && entries'[n].ifc == i;
      }
      if Serves(e) && i == e.ifc {
        assert k in entries' && Serves(entries'[k]) && entries'[k].ifc == i;
      }
    }
  }

  /** Locks do not change when an interface is moved on. */
  lemma LocksStay(locked: set<Pair>, entries: map<Id, Entry>, k: Id, e: Entry)
    requires LocksOk(locked, entries) && k in entries && e.ifc == entries[k].ifc
    ensures LocksOk(locked, entries[k := e])
  {
    var entries' := entries[k := e];
    forall p ensures p in locked <==> exists n :: n in entries' && PairOf(entries'[n].ifc) == p {
      if p in locked {
        var n :| n in entries && PairOf(entries[n].ifc) == p;
        assert n in entries' && PairOf(entries'[n].ifc) == p;
      }
      if n :| n in entries' && PairOf(entries'[n].ifc) == p {
        assert n in entries && PairOf(entries[n].ifc) == p;
      }
    }
  }

  lemma LocksChange(locked: set<Pair>, entries: map<Id, Entry>, k: Id, e: Entry)
    requires LocksOk(locked, entries)
    ensures k !in entries ==> LocksOk(locked + {PairOf(e.ifc)}, entries[k := e])
    ensures k in entries && (forall n :: n in entries && n != k ==> PairOf(entries[n].ifc) != PairOf(entries[k].ifc))
            ==> LocksOk(locked - {PairOf(entries[k].ifc)}, entries - {k})
  {
    if k !in entries {
      var entries' := entries[k := e];
      forall p ensures p in locked + {PairOf(e.ifc)} <==> exists n :: n in entries' && PairOf(entries'[n].ifc) == p {
        if p in locked {
          var n :| n in entries && PairOf(entries[n].ifc) == p;
          assert n in entries' && PairOf(entries'[n].ifc) == p;
        }
        if p == PairOf(e.ifc) {
          assert k in entries' && PairOf(entries'[k].ifc) == p;
        }
      }
    } else if forall n :: n in entries && n != k ==> PairOf(entries[n].ifc) != PairOf(entries[k].ifc) {
      var entries' := entries - {k};
      forall p
        ensures p in locked - {PairOf(entries[k].ifc)} <==> exists n :: n in entries' && PairOf(entries'[n].ifc) == p {
        if p in locked && p != PairOf(entries[k].ifc) {
          var n :| n in entries && PairOf(entries[n].ifc) == p;
          assert n in entries' && PairOf(entries'[n].ifc) == p;
        }
        if n :| n in entries' && PairOf(entries'[n].ifc) == p {
          assert n in entries && PairOf(entries[n].ifc) == p;
        }
      }
    }
  }

  /** What is served is apart from an interface of another entry that has its device. */
  lemma OthersApart(properOnly: bool, ports: Ports, entries: map<Id, Entry>, k: Id)
    requires EntriesOk(properOnly, ports, entries) && k in entries && (entries[k].ifc.Local? ==> OwnsDevice(entries[k]))
    ensures forall j :: j in Served(entries) && j != entries[k].ifc ==>
              && PairOf(j) != PairOf(entries[k].ifc)
              && (j.Local? && entries[k].ifc.Local? ==> j.name != entries[k].ifc.name)
    ensures properOnly ==> forall j :: j in Served(entries) && j != entries[k].ifc ==> Apart(entries[k].ifc, j)
  {
    hide Proper, Apart;
    forall j | j in Served(entries) && j != entries[k].ifc
      ensures PairOf(j) != PairOf(entries[k].ifc)
      ensures j.Local? && entries[k].ifc.Local? ==> j.name != entries[k].ifc.name
      ensures properOnly ==> Apart(entries[k].ifc, j) {
      var n :| n in entries && Serves(entries[n]) && entries[n].ifc == j;
      assert TwoOk(entries[k], entries[n]);
      assert EntryOk(properOnly, ports, entries[n]) && EntryOk(properOnly, ports, entries[k]);
      if properOnly {
        ProperAreApart(entries[k].ifc, j);
      }
    }
  }

  // ---- Steps ----

  /** A step of one interface that leaves the bridge alone and serves what was served. */
  lemma QuietMove(properOnly: bool, s: State, k: Id, stage: Stage)
    requires Ok(properOnly, s) && k in s.entries
    requires var e := s.entries[k].(stage := stage);
             EntryOk(properOnly, s.ports, e) && Serves(e) == Serves(s.entries[k])
             && (OwnsDevice(e) ==> OwnsDevice(s.entries[k]))
    ensures Ok(properOnly, Move(s, k, stage))
  {
    hide Sound, AllInstalled, LocksOk, OwnPorts, Served, Proper;
    var e := s.entries[k].(stage := stage);
    LocksStay(s.locked, s.entries, k, e);
    ServedAfter(properOnly, s.ports, s.entries, k, e);
    assert Served(s.entries[k := e]) == Served(s.entries);
    MovedOk(properOnly, s.ports, s.ports, s.entries, k, e);
  }

  /** The other entries are not concerned by a device they do not own. */
  lemma MovedOk(properOnly: bool, ports: Ports, ports': Ports, entries: map<Id, Entry>, k: Id, e: Entry)
    requires EntriesOk(properOnly, ports, entries) && k in entries && e.ifc == entries[k].ifc
    requires EntryOk(properOnly, ports', e)
    requires forall n :: n in entries && n != k && OwnsDevice(entries[n]) ==>
               && entries[n].ifc.name in ports'
               && (entries[n].ifc.name in ports ==> ports'[entries[n].ifc.name] == ports[entries[n].ifc.name])
               && (OwnsDevice(e) ==> entries[n].ifc.name != e.ifc.name)
    ensures EntriesOk(properOnly, ports', entries[k := e])
  {
    hide Proper;
    var entries' := entries[k := e];
    forall n | n in entries' ensures EntryOk(properOnly, ports', entries'[n]) {
      assert n != k ==> EntryOk(properOnly, ports, entries[n]);
    }
    forall m, n | m in entries' && n in entries' && m != n ensures TwoOk(entries'[m], entries'[n]) {
      assert TwoOk(entries[m], entries[n]);
    }
  }

  lemma LockStep(properOnly: bool, s: State, a: Action)
    requires Ok(properOnly, s) && a.Lock? && Enabled(properOnly, s, a)
    ensures Ok(properOnly, Apply(properOnly, s, a))
  {
    hide Sound, AllInstalled, OwnPorts, Proper;
    var e := Entry(a.ifc, Locked);
    var entries' := s.entries[a.k := e];
    LocksChange(s.locked, s.entries, a.k, e);
    forall n | n in s.entries ensures PairOf(s.entries[n].ifc) != PairOf(a.ifc) {
      assert PairOf(s.entries[n].ifc) in s.locked;
    }
    forall m, n | m in entries' && n in entries' && m != n ensures TwoOk(entries'[m], entries'[n]) {
      assert m != a.k && n != a.k ==> TwoOk(s.entries[m], s.entries[n]);
    }
    ServedWithout(entries', a.k);
    assert entries' - {a.k} == s.entries;
  }

  lemma AddPortStep(properOnly: bool, s: State, a: Action)
    requires Ok(properOnly, s) && a.AddPort? && Enabled(properOnly, s, a)
    ensures Ok(properOnly, Apply(properOnly, s, a))
  {
    hide Sound, AllInstalled, LocksOk, Served, Proper;
    var e := s.entries[a.k].(stage := HasDevice);
    LocksStay(s.locked, s.entries, a.k, e);
    ServedAfter(properOnly, s.ports, s.entries, a.k, e);
    assert Served(s.entries[a.k := e]) == Served(s.entries);
    PluggingIsHarmless(s.ports, e.ifc.name, a.port, s.flows, Served(s.entries));
    forall n | n in s.entries ensures EntryOk(properOnly, s.ports, s.entries[n]) {
    }
    MovedOk(properOnly, s.ports, s.ports[e.ifc.name := a.port], s.entries, a.k, e);
  }

  lemma AddFlowsStep(properOnly: bool, s: State, a: Action)
    requires Ok(properOnly, s) && a.AddFlows? && Enabled(properOnly, s, a)
    ensures Ok(properOnly, Apply(properOnly, s, a))
  {
    hide Sound, AllInstalled, LocksOk, OwnPorts, Served, Proper, Apart, FlowsOf;
    var was := s.entries[a.k];
    var e := was.(stage := Up);
    LocksStay(s.locked, s.entries, a.k, e);
    ServedAfter(properOnly, s.ports, s.entries, a.k, e);
    OthersApart(properOnly, s.ports, s.entries, a.k);
    assert Added(was) == FlowsOf(s.ports, e.ifc) by {
      AddedIs(properOnly, s.ports, was);
    }
    AddingIsSound(s.ports, s.flows, Served(s.entries), e.ifc);
    if properOnly {
      AddingKeepsInstalled(s.ports, s.flows, Served(s.entries), e.ifc);
    }
    MovedOk(properOnly, s.ports, s.ports, s.entries, a.k, e);
  }

  lemma AddedIs(properOnly: bool, ports: Ports, e: Entry)
    requires EntryOk(properOnly, ports, e) && AddsFlows(e)
    ensures Plugged(ports, e.ifc) && Added(e) == FlowsOf(ports, e.ifc)
  {
    if e.ifc.Local? {
      LocalFlowsOf(ports, e.ifc);
    } else {
      RemoteFlowsOf(ports, e.ifc);
    }
  }

  lemma RequestedIs(properOnly: bool, ports: Ports, e: Entry)
    requires EntryOk(properOnly, ports, e) && DeletesFlows(e)
    ensures Plugged(ports, e.ifc) && Requested(e) == SpecsOf(ports, e.ifc)
  {
    if e.ifc.Local? {
      LocalFlowsOf(ports, e.ifc);
    } else {
      RemoteFlowsOf(ports, e.ifc);
    }
  }

  lemma DelFlowsStep(properOnly: bool, s: State, a: Action)
    requires Ok(properOnly, s) && a.DelFlows? && Enabled(properOnly, s, a)
    ensures Ok(properOnly, Apply(properOnly, s, a))
  {
    hide Sound, AllInstalled, LocksOk, OwnPorts, Served, Proper, Apart, SpecsOf;
    var was := s.entries[a.k];
    var e := was.(stage := if was.ifc.Local? then Bare else Gone);
    LocksStay(s.locked, s.entries, a.k, e);
    ServedAfter(properOnly, s.ports, s.entries, a.k, e);
    OthersApart(properOnly, s.ports, s.entries, a.k);
    RequestedIs(properOnly, s.ports, was);
    DeletingIsSound(s.ports, s.flows, Served(s.entries), e.ifc);
    if properOnly {
      DeletingKeepsInstalled(s.ports, s.flows, Served(s.entries), e.ifc);
    }
    MovedOk(properOnly, s.ports, s.ports, s.entries, a.k, e);
  }

  /** The device of an interface that is not served is unplugged. */
  lemma UnplugStep(properOnly: bool, s: State, k: Id, stage: Stage)
    requires Ok(properOnly, s) && k in s.entries && s.entries[k].ifc.Local?
    requires OwnsDevice(s.entries[k]) && !Serves(s.entries[k]) && stage in {Abandoned, Gone}
    ensures Ok(properOnly, Move(s, k, stage).(ports := s.ports - {s.entries[k].ifc.name}))
  {
    hide Sound, AllInstalled, LocksOk, Served, Proper, Apart;
    var e := s.entries[k].(stage := stage);
    LocksStay(s.locked, s.entries, k, e);
    ServedAfter(properOnly, s.ports, s.entries, k, e);
    assert Served(s.entries[k := e]) == Served(s.entries);
    OthersApart(properOnly, s.ports, s.entries, k);
    UnpluggingIsHarmless(s.ports, e.ifc.name, s.flows, Served(s.entries));
    forall n | n in s.entries && n != k && OwnsDevice(s.entries[n]) ensures s.entries[n].ifc.name != e.ifc.name {
      assert TwoOk(s.entries[n], s.entries[k]);
    }
    MovedOk(properOnly, s.ports, s.ports - {e.ifc.name}, s.entries, k, e);
  }

  lemma UnlockStep(properOnly: bool, s: State, a: Action)
    requires Ok(properOnly, s) && a.Unlock? && Enabled(properOnly, s, a)
    ensures Ok(properOnly, Apply(properOnly, s, a))
  {
    hide Sound, AllInstalled, OwnPorts, Proper;
    forall n | n in s.entries && n != a.k ensures PairOf(s.entries[n].ifc) != PairOf(s.entries[a.k].ifc) {
      assert TwoOk(s.entries[n], s.entries[a.k]);
    }
    LocksChange(s.locked, s.entries, a.k, s.entries[a.k]);
    var entries' := s.entries - {a.k};
    ServedWithout(s.entries, a.k);
    forall m, n | m in entries' && n in entries' && m != n ensures TwoOk(entries'[m], entries'[n]) {
      assert TwoOk(s.entries[m], s.entries[n]);
    }
  }

  lemma StepKeepsOk(properOnly: bool, s: State, a: Action)
    requires Ok(properOnly, s) && Enabled(properOnly, s, a)
    ensures Ok(properOnly, Apply(properOnly, s, a))
  {
    hide LocksOk, FlowsOk, OwnPorts, Proper;
    match a
    case Lock(_, _) => LockStep(properOnly, s, a);
    case AddPort(_, _) => AddPortStep(properOnly, s, a);
    case AddFlows(_) => AddFlowsStep(properOnly, s, a);
    case DelFlows(_) => DelFlowsStep(properOnly, s, a);
    case Unlock(_) => UnlockStep(properOnly, s, a);
    case CleanUp(k, fails) =>
      assert EntryOk(properOnly, s.ports, s.entries[k]);
      if fails {
        QuietMove(properOnly, s, k, Abandoned);
      } else {
        UnplugStep(properOnly, s, k, Abandoned);
      }
    case DelPort(k) => UnplugStep(properOnly, s, k, Gone);
    case ReadNumber(k) =>
      assert EntryOk(properOnly, s.ports, s.entries[k]);
      QuietMove(properOnly, s, k, Numbered(s.ports[s.entries[k].ifc.name]));
    case CreateFails(k) =>
      assert EntryOk(properOnly, s.ports, s.entries[k]);
      QuietMove(properOnly, s, k, if s.entries[k].stage == Locked then Abandoned else CleaningUp);
    case ReadToDelete(k) =>
      assert EntryOk(properOnly, s.ports, s.entries[k]);
      QuietMove(properOnly, s, k, Going(s.ports[s.entries[k].ifc.name], s.entries[k].stage == Bare));
    case DeleteFails(k) =>
      assert EntryOk(properOnly, s.ports, s.entries[k]);
      QuietMove(properOnly, s, k, if s.entries[k].stage.bare then Bare else Up);
  }

  lemma StartIsOk(properOnly: bool, vtep: Port)
    ensures Ok(properOnly, Start(vtep))
  {
  }

  lemma {:induction false} RunsAreOk(properOnly: bool, run: seq<State>, acts: seq<Action>, i: nat)
    requires IsRun(properOnly, run, acts) && i < |run|
    ensures Ok(properOnly, run[i])
  {
    hide Ok, Enabled, Apply;
    if i == 0 {
      var vtep :| run[0] == Start(vtep);
      StartIsOk(properOnly, vtep);
    } else {
      RunsAreOk(properOnly, run, acts, i - 1);
      assert Follows(properOnly, run[i - 1], acts[i - 1], run[i - 1 + 1]);
      StepKeepsOk(properOnly, run[i - 1], acts[i - 1]);
    }
  }

  /**
   In every interleaving a pair is locked exactly while a call for it is under way or its interface is there, no
   two of them have one pair, and with the agent's MAC addresses an interface that is up has all its flows.
   */
  lemma LocksAreAccounted(properOnly: bool, run: seq<State>, acts: seq<Action>, i: nat)
    requires IsRun(properOnly, run, acts) && i < |run|
    ensures var s := run[i];
            && (forall p :: p in s.locked <==> exists k :: k in s.entries && PairOf(s.entries[k].ifc) == p)
            && (forall k, n | k in s.entries && n in s.entries && k != n ::
                  PairOf(s.entries[k].ifc) != PairOf(s.entries[n].ifc))
            && (properOnly ==> forall k :: k in s.entries && Serves(s.entries[k]) ==>
                  Plugged(s.ports, s.entries[k].ifc) && Installed(s.ports, s.flows, s.entries[k].ifc))
  {
    hide Sound, Installed, Proper;
    RunsAreOk(properOnly, run, acts, i);
    var s := run[i];
    forall k, n | k in s.entries && n in s.entries && k != n
      ensures PairOf(s.entries[k].ifc) != PairOf(s.entries[n].ifc) {
      assert TwoOk(s.entries[k], s.entries[n]);
    }
    forall k | k in s.entries && Serves(s.entries[k]) ensures s.entries[k].ifc in Served(s.entries) {
    }
  }

  /**
   In every interleaving what a local interface sends, or what arrives through the tunnel, only gets to interfaces of
   its network, and what any other device sends goes nowhere.
   */
  lemma NetworksStayIsolated(properOnly: bool, run: seq<State>, acts: seq<Action>, i: nat, name: string, f: Frame,
                             d: Delivery)
    requires IsRun(properOnly, run, acts) && i < |run|
    requires VTEP in run[i].ports && name in run[i].ports && f.inPort == run[i].ports[name]
    requires Outcome(run[i].ports[VTEP], run[i].flows, f, d)
    ensures var s := run[i];
            var served := Served(s.entries);
            && (forall j :: j in served && j.Local? && j.name == name ==>
                    d == Dropped || Reaches(s.ports, served, j.vni, f, d))
            && (name == VTEP ==> d == Dropped || (d.ToPort? && Reaches(s.ports, served, f.tunId, f, d)))
            && (Unserved(s.ports, served, name) && f.tunId == 0 && (forall j :: j in served ==> j.vni != 0) ==>
                    d == Dropped)
  {
    hide Sound, Outcome, Reaches, Served;
    RunsAreOk(properOnly, run, acts, i);
    var s := run[i];
    var served := Served(s.entries);
    forall j | j in served && j.Local? && j.name == name ensures d == Dropped || Reaches(s.ports, served, j.vni, f, d) {
      LocalFramesStayInNetwork(s.ports, s.flows, served, j, f, d);
    }
    if name == VTEP {
      TunnelledFramesStayInNetwork(s.ports, s.flows, served, f, d);
    }
    if Unserved(s.ports, served, name) && f.tunId == 0 && forall j :: j in served ==> j.vni != 0 {
      StrayFramesAreDropped(s.ports, s.flows, served, name, f, d);
    }
  }

  /**
   With the agent's MAC addresses the frames get through, in every interleaving: what a served local interface
   sends reaches any interface of its network that it is addressed to, itself apart, and is dropped just when there
   is none; what arrives through the tunnel likewise reaches the local interfaces.
   */
  lemma FramesGetThrough(run: seq<State>, acts: seq<Action>, i: nat, f: Frame, d: Delivery)
    requires IsRun(true, run, acts) && i < |run|
    ensures var s := run[i];
            var served := Served(s.entries);
            && VTEP in s.ports && (forall j :: j in served ==> Plugged(s.ports, j))
            && (forall from :: from in served && from.Local? && f.inPort == s.ports[from.name] ==>
                    (Outcome(s.ports[VTEP], s.flows, f, d) <==> SentRight(s.ports, served, from, f, d)))
            && (f.inPort == s.ports[VTEP] ==>
                    (Outcome(s.ports[VTEP], s.flows, f, d) <==> ArrivesRight(s.ports, served, f, d)))
  {
    hide Justified, DefaultsIn, TagIn, AllInstalled, Outcome, Served, SentRight, ArrivesRight, EntriesOk, LocksOk;
    RunsAreOk(true, run, acts, i);
    var s := run[i];
    var served := Served(s.entries);
    forall from | from in served && from.Local? && f.inPort == s.ports[from.name]
      ensures Outcome(s.ports[VTEP], s.flows, f, d) <==> SentRight(s.ports, served, from, f, d) {
      LocalFramesGoWhereAddressed(s.ports, s.flows, served, from, f, d);
    }
    if f.inPort == s.ports[VTEP] {
      TunnelledFramesGoWhereAddressed(s.ports, s.flows, served, f, d);
    }
  }
}
