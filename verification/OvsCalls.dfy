/**
 The fabric's calls taken one at a time are runs of the machine in which their commands interleave: the machine
 leaves out nothing that the calls can do, whichever of their commands fail.
 */
module OvsCalls {
  import opened Arithmetic
  import opened Options
  import opened OvsFlows
  import opened OvsFabrics
  import opened OvsInterleaved

  /** No call is under way. */
  predicate Idle(entries: map<Id, Entry>) {
    forall k :: k in entries ==> entries[k].stage in {Up, Bare}
  }

  function Live(entries: map<Id, Entry>): set<Ifc> {
    set k | k in entries :: entries[k].ifc
  }

  function BareOnes(entries: map<Id, Entry>): set<Ifc> {
    set k | k in entries && entries[k].stage == Bare :: entries[k].ifc
  }

  function Seen(s: State): Picture {
    Picture(s.locked, s.ports, s.flows, Live(s.entries), BareOnes(s.entries))
  }

  /** Each interface has one entry. */
  predicate OneEach(entries: map<Id, Entry>) {
    forall k, n :: k in entries && n in entries && k != n ==> entries[k].ifc != entries[n].ifc
  }

  lemma Comes(entries: map<Id, Entry>, k: Id, i: Ifc)
    requires k !in entries
    ensures Live(entries[k := Entry(i, Up)]) == Live(entries) + {i}
    ensures BareOnes(entries[k := Entry(i, Up)]) == BareOnes(entries)
  {
    var entries' := entries[k := Entry(i, Up)];
    forall j ensures j in Live(entries') <==> j in Live(entries) || j == i {
      if n :| n in entries && entries[n].ifc == j {
        assert n in entries' && entries'[n].ifc == j;
      }
      assert k in entries' && entries'[k].ifc == i;
    }
    forall j ensures j in BareOnes(entries') <==> j in BareOnes(entries) {
      if n :| n in entries && entries[n].stage == Bare && entries[n].ifc == j {
        assert n in entries' && entries'[n].stage == Bare && entries'[n].ifc == j;
      }
    }
  }

  lemma Leaves(entries: map<Id, Entry>, k: Id)
    requires OneEach(entries) && k in entries
    ensures Live(entries - {k}) == Live(entries) - {entries[k].ifc}
    ensures BareOnes(entries - {k}) == BareOnes(entries) - {entries[k].ifc}
  {
    var entries' := entries - {k};
    forall j ensures j in Live(entries') <==> j in Live(entries) && j != entries[k].ifc {
      if n :| n in entries && n != k && entries[n].ifc == j {
        assert n in entries' && entries'[n].ifc == j;
      }
    }
    forall j ensures j in BareOnes(entries') <==> j in BareOnes(entries) && j != entries[k].ifc {
      if n :| n in entries && n != k && entries[n].stage == Bare && entries[n].ifc == j {
        assert n in entries' && entries'[n].stage == Bare && entries'[n].ifc == j;
      }
    }
  }

  lemma IsBared(entries: map<Id, Entry>, k: Id)
    requires k in entries
    ensures Live(entries[k := Entry(entries[k].ifc, Bare)]) == Live(entries)
    ensures BareOnes(entries[k := Entry(entries[k].ifc, Bare)]) == BareOnes(entries) + {entries[k].ifc}
  {
    var entries' := entries[k := Entry(entries[k].ifc, Bare)];
    forall n | n in entries ensures n in entries' && entries'[n].ifc == entries[n].ifc {
    }
    forall n | n in entries' ensures n in entries && entries'[n].ifc == entries[n].ifc {
    }
    assert k in entries' && entries'[k].stage == Bare;
    forall j ensures j in BareOnes(entries') <==> j in BareOnes(entries) || j == entries[k].ifc {
      if n :| n in entries && entries[n].stage == Bare && entries[n].ifc == j {
        assert n in entries' && entries'[n].stage == Bare && entries'[n].ifc == j;
      }
    }
  }

  // ---- The steps of a call ----

  function After(p: bool, s: State, acts: seq<Action>): Option<State> {
    if acts == [] then Some(s)
    else
      var last := acts[|acts| - 1];
      match After(p, s, acts[..|acts| - 1])
      case None => None
      case Some(m) => if Enabled(p, m, last) then Some(Apply(p, m, last)) else None
  }

  ghost predicate Gets(p: bool, s: State, s': State) {
    exists acts :: After(p, s, acts) == Some(s')
  }

  lemma NoStep(p: bool, s: State)
    ensures Gets(p, s, s)
  {
    assert After(p, s, []) == Some(s);
  }

  lemma OneMore(p: bool, s: State, m: State, a: Action)
    requires Gets(p, s, m) && Enabled(p, m, a)
    ensures Gets(p, s, Apply(p, m, a))
  {
    var acts :| After(p, s, acts) == Some(m);
    assert (acts + [a])[..|acts|] == acts;
    assert After(p, s, acts + [a]) == Some(Apply(p, m, a));
  }

  /** With nothing else under way, and `k` a number for the new interface. */
  lemma CreateGets(p: bool, s: State, k: Id, c: Call) returns (s': State)
    requires Idle(s.entries) && k !in s.entries && c.Create? && (p ==> Proper(c.ifc))
    ensures Gets(p, s, s') && Idle(s'.entries) && Seen(s') == Called(Seen(s), c)
  {
    hide Gets, Proper, Live, BareOnes;
    var i := c.ifc;
    NoStep(p, s);
    s' := s;
    if PairOf(i) !in s.locked && (i.Local? && i.name !in s.ports ==> c.port !in s.ports.Values) {
      OneMore(p, s, s, Lock(k, i));
      var m := Apply(p, s, Lock(k, i));
      if if i.Remote? then c.faults.flows else i.name in s.ports || c.faults.port {
        GivesUp(p, s, m, k);
      } else if i.Remote? {
        OneMore(p, s, m, AddFlows(k));
        s' := Apply(p, m, AddFlows(k));
        assert s'.entries == s.entries[k := Entry(i, Up)];
        Comes(s.entries, k, i);
      } else {
        s' := PlugsInAndGets(p, s, m, k, c);
      }
    }
  }

  lemma PlugsInAndGets(p: bool, s: State, m: State, k: Id, c: Call) returns (s': State)
    requires Idle(s.entries) && k !in s.entries && c.Create? && c.ifc.Local? && Gets(p, s, m)
    requires PairOf(c.ifc) !in s.locked && c.ifc.name !in s.ports && c.port !in s.ports.Values && !c.faults.port
    requires m == s.(locked := s.locked + {PairOf(c.ifc)}, entries := s.entries[k := Entry(c.ifc, Locked)])
    ensures Gets(p, s, s') && Idle(s'.entries) && Seen(s') == Called(Seen(s), c)
  {
    hide Gets, Live, BareOnes;
    var i, faults := c.ifc, c.faults;
    OneMore(p, s, m, AddPort(k, c.port));
    s' := Apply(p, m, AddPort(k, c.port));
    if !faults.ofPort {
      OneMore(p, s, s', ReadNumber(k));
      s' := Apply(p, s', ReadNumber(k));
    }
    if faults.ofPort || faults.flows {
      CleansUp(p, s, s', k, c.port, faults.cleanUp);
      s' := s.(ports := if faults.cleanUp then s.ports[i.name := c.port] else s.ports);
    } else {
      OneMore(p, s, s', AddFlows(k));
      s' := Apply(p, s', AddFlows(k));
      assert s'.entries == s.entries[k := Entry(i, Up)];
      Comes(s.entries, k, i);
    }
  }

  lemma GivesUp(p: bool, s: State, m: State, k: Id)
    requires Gets(p, s, m) && At(m, k, Locked) && k !in s.entries && PairOf(m.entries[k].ifc) !in s.locked
    requires m == s.(locked := s.locked + {PairOf(m.entries[k].ifc)}, entries := s.entries[k := m.entries[k]])
    ensures Gets(p, s, s)
  {
    hide Gets;
    OneMore(p, s, m, CreateFails(k));
    var m1 := Apply(p, m, CreateFails(k));
    OneMore(p, s, m1, Unlock(k));
    assert Apply(p, m1, Unlock(k)).entries == s.entries;
  }

  lemma CleansUp(p: bool, s: State, m: State, k: Id, port: Port, fails: bool)
    requires Gets(p, s, m) && k in m.entries && (m.entries[k].stage == HasDevice || m.entries[k].stage.Numbered?)
    requires k !in s.entries && m.entries == s.entries[k := m.entries[k]] && m.flows == s.flows
    requires var i := m.entries[k].ifc;
             && i.Local? && i.name !in s.ports && m.ports == s.ports[i.name := port]
             && PairOf(i) !in s.locked && m.locked == s.locked + {PairOf(i)}
    ensures Gets(p, s, s.(ports := if fails then m.ports else s.ports))
  {
    hide Gets;
    OneMore(p, s, m, CreateFails(k));
    var m1 := Apply(p, m, CreateFails(k));
    OneMore(p, s, m1, CleanUp(k, fails));
    var m2 := Apply(p, m1, CleanUp(k, fails));
    OneMore(p, s, m2, Unlock(k));
    assert m2.ports == if fails then m.ports else s.ports;
    assert Apply(p, m2, Unlock(k)).entries == s.entries;
  }

  lemma DeleteGets(p: bool, s: State, c: Call) returns (s': State)
    requires Ok(p, s) && Idle(s.entries) && c.Delete?
    ensures Gets(p, s, s') && Idle(s'.entries) && Seen(s') == Called(Seen(s), c)
  {
    hide Gets, FlowsOk, LocksOk;
    var i, faults := c.ifc, c.faults;
    NoStep(p, s);
    s' := s;
    if i in Live(s.entries) && !(if i.Local? then faults.ofPort else faults.flows) {
      var k :| k in s.entries && s.entries[k].ifc == i;
      assert EntryOk(p, s.ports, s.entries[k]);
      HasOneEach(p, s.ports, s.entries);
      if i.Remote? {
        s' := DeleteRemoteGets(p, s, k, c);
      } else {
        s' := DeleteLocalGets(p, s, k, c);
      }
    }
  }

  lemma DeleteRemoteGets(p: bool, s: State, k: Id, c: Call) returns (s': State)
    requires OneEach(s.entries) && Idle(s.entries) && k in s.entries && s.entries[k] == Entry(c.ifc, Up)
    requires c.Delete? && c.ifc.Remote? && c.ifc in Live(s.entries) && !c.faults.flows && c.ifc !in BareOnes(s.entries)
    ensures Gets(p, s, s') && Idle(s'.entries) && Seen(s') == Called(Seen(s), c)
  {
    hide Gets, Live, BareOnes, OneEach;
    NoStep(p, s);
    OneMore(p, s, s, DelFlows(k));
    s' := Apply(p, s, DelFlows(k));
    OneMore(p, s, s', Unlock(k));
    s' := Apply(p, s', Unlock(k));
    assert s'.entries == s.entries - {k};
    Leaves(s.entries, k);
    assert BareOnes(s.entries) - {c.ifc} == BareOnes(s.entries);
  }

  lemma DeleteLocalGets(p: bool, s: State, k: Id, c: Call) returns (s': State)
    requires OneEach(s.entries) && Idle(s.entries) && k in s.entries && s.entries[k].ifc == c.ifc
    requires c.Delete? && c.ifc.Local? && c.ifc.name in s.ports && c.ifc in Live(s.entries) && !c.faults.ofPort
    ensures Gets(p, s, s') && Idle(s'.entries) && Seen(s') == Called(Seen(s), c)
  {
    hide Gets, Live, BareOnes, OneEach;
    if c.faults.flows {
      FlowsStay(p, s, k);
      return s;
    }
    s' := FlowsGo(p, s, k);
    if c.faults.port {
      IsBared(s.entries, k);
      return;
    }
    OneMore(p, s, s', DelPort(k));
    s' := Apply(p, s', DelPort(k));
    OneMore(p, s, s', Unlock(k));
    s' := Apply(p, s', Unlock(k));
    assert s'.entries == s.entries - {k};
    Leaves(s.entries, k);
  }

  lemma FlowsStay(p: bool, s: State, k: Id)
    requires (At(s, k, Up) || At(s, k, Bare)) && s.entries[k].ifc.Local? && s.entries[k].ifc.name in s.ports
    ensures Gets(p, s, s)
  {
    hide Gets;
    NoStep(p, s);
    OneMore(p, s, s, ReadToDelete(k));
    var m := Apply(p, s, ReadToDelete(k));
    OneMore(p, s, m, DeleteFails(k));
    assert Apply(p, m, DeleteFails(k)).entries == s.entries;
  }

  lemma FlowsGo(p: bool, s: State, k: Id) returns (m: State)
    requires (At(s, k, Up) || At(s, k, Bare)) && s.entries[k].ifc.Local? && s.entries[k].ifc.name in s.ports
    ensures Gets(p, s, m)
    ensures var i := s.entries[k].ifc;
            m == s.(flows := Without(s.flows, LocalSpecs(s.ports[i.name], i.vni, i.mac, i.ip)),
                    entries := s.entries[k := Entry(i, Bare)])
  {
    hide Gets, Without, LocalSpecs;
    NoStep(p, s);
    OneMore(p, s, s, ReadToDelete(k));
    m := Apply(p, s, ReadToDelete(k));
    OneMore(p, s, m, DelFlows(k));
    m := Apply(p, m, DelFlows(k));
    assert m.entries == s.entries[k := Entry(s.entries[k].ifc, Bare)];
  }

  lemma HasOneEach(p: bool, ports: Ports, entries: map<Id, Entry>)
    requires EntriesOk(p, ports, entries)
    ensures OneEach(entries)
  {
    forall k, n | k in entries && n in entries && k != n ensures entries[k].ifc != entries[n].ifc {
      assert TwoOk(entries[k], entries[n]);
    }
  }

  // ---- Runs ----

  ghost predicate Reached(p: bool, s: State) {
    exists run, acts :: IsRun(p, run, acts) && run[|acts|] == s
  }

  lemma {:induction false} GettingIsReaching(p: bool, s: State, acts: seq<Action>)
    requires Reached(p, s) && After(p, s, acts).Some?
    ensures Reached(p, After(p, s, acts).value)
  {
    if acts != [] {
      var init, a := acts[..|acts| - 1], acts[|acts| - 1];
      GettingIsReaching(p, s, init);
      var m := After(p, s, init).value;
      var run, before :| IsRun(p, run, before) && run[|before|] == m;
      var s' := Apply(p, m, a);
      var run', acts' := run + [s'], before + [a];
      forall i | 0 <= i < |acts'| ensures Follows(p, run'[i], acts'[i], run'[i + 1]) {
        assert i < |before| ==> Follows(p, run[i], before[i], run[i + 1]);
      }
      assert IsRun(p, run', acts') && run'[|acts'|] == s';
    }
  }

  /**
   Whatever calls are made of a fabric, one after the other and with any faults, the machine has a run to a state
   with the same locks, devices, flows and interfaces.
   */
  lemma {:induction false} CallsAreRuns(p: bool, calls: seq<Call>, vtep: Port) returns (s: State)
    requires p ==> AllProper(calls)
    ensures Reached(p, s) && Idle(s.entries)
    ensures Seen(s) == AllCalled(Picture({}, map[VTEP := vtep], DefaultFlows(), {}, {}), calls)
  {
    if calls == [] {
      s := Start(vtep);
      assert IsRun(p, [s], []) && [s][0] == s;
    } else {
      var init, c := calls[..|calls| - 1], calls[|calls| - 1];
      assert forall c' :: c' in init ==> c' in calls;
      var m := CallsAreRuns(p, init, vtep);
      ReachedIsOk(p, m);
      hide Called, Seen, Reached, Proper, Ok;
      if c.Create? {
        var k := NumberAbove(m.entries.Keys);
        s := CreateGets(p, m, k, c);
      } else {
        s := DeleteGets(p, m, c);
      }
      var acts :| After(p, m, acts) == Some(s);
      GettingIsReaching(p, m, acts);
    }
  }

  lemma ReachedIsOk(p: bool, s: State)
    requires Reached(p, s)
    ensures Ok(p, s)
  {
    hide Ok;
    var run, acts :| IsRun(p, run, acts) && run[|acts|] == s;
    RunsAreOk(p, run, acts, |acts|);
  }
}
