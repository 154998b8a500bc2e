/** The connection agent's handlers as methods, each a sequence of the state machine's steps by one worker. */
module AgentHandlers {
  import opened Options
  import opened AgentMachine
  import opened AgentInvariant
  import opened AgentSteps
  import opened AgentTheorems

  const NO_CHOICE := Choice(0, None, None, 0, false)

  /** Worker `k` leads from `s` to `s'` by steps of its own, with the choices given. */
  ghost predicate Leads(c: Config, s: State, k: Key, chs: seq<Choice>, s': State)
    decreases |chs|
  {
    if chs == [] then s == s'
    else k in s.working && WorkEnabled(c, s, k, chs[0]) && Leads(c, WorkStep(c, s, k, chs[0]), k, chs[1..], s')
  }

  ghost predicate Reaches(c: Config, s: State, k: Key, s': State) {
    exists chs :: Leads(c, s, k, chs, s')
  }

  lemma ReachesByStep(c: Config, s: State, k: Key, ch: Choice)
    requires k in s.working && WorkEnabled(c, s, k, ch)
    ensures Reaches(c, s, k, WorkStep(c, s, k, ch))
  {
    hide WorkStep, WorkEnabled;
    var s' := WorkStep(c, s, k, ch);
    var none: seq<Choice> := [];
    assert Leads(c, s', k, none, s');
    assert [ch][1..] == none;
    assert Leads(c, s, k, [ch], s');
  }

  lemma {:induction false} LeadsOn(c: Config, s: State, k: Key, chs: seq<Choice>, s1: State, chs1: seq<Choice>,
                                   s2: State)
    requires Leads(c, s, k, chs, s1) && Leads(c, s1, k, chs1, s2)
    ensures Leads(c, s, k, chs + chs1, s2)
    decreases |chs|
  {
    hide WorkStep, WorkEnabled;
    if chs == [] {
      assert chs + chs1 == chs1;
    } else {
      LeadsOn(c, WorkStep(c, s, k, chs[0]), k, chs[1..], s1, chs1, s2);
      assert (chs + chs1)[1..] == chs[1..] + chs1;
    }
  }

  lemma ReachesOn(c: Config, s: State, k: Key, s1: State, s2: State)
    requires Reaches(c, s, k, s1) && Reaches(c, s1, k, s2)
    ensures Reaches(c, s, k, s2)
  {
    hide Leads;
    var chs :| Leads(c, s, k, chs, s1);
    var chs1 :| Leads(c, s1, k, chs1, s2);
    LeadsOn(c, s, k, chs, s1, chs1, s2);
  }

  /** A handler keeps what every step keeps. */
  lemma {:induction false} LeadsKeepsAll(c: Config, s: State, k: Key, chs: seq<Choice>, s': State)
    requires AllOk(c, s) && Leads(c, s, k, chs, s')
    ensures AllOk(c, s')
    decreases |chs|
  {
    hide AllOk, WorkStep, WorkEnabled;
    if chs != [] {
      var a := Work(k, chs[0]);
      assert Enabled(c, s, a) && Apply(c, s, a) == WorkStep(c, s, k, chs[0]);
      StepKeepsAll(c, s, a);
      LeadsKeepsAll(c, WorkStep(c, s, k, chs[0]), k, chs[1..], s');
    }
  }

  /** What the lister of local attachments answers, and what that of a VNI's remote attachments would. */
  ghost predicate Answers(c: Config, asLocal: Option<Att>, asRemote: Vni -> Option<Att>) {
    && (asLocal.Some? ==> asLocal.value.onThisNode && Selected(c, asLocal.value))
    && (forall v :: asRemote(v).Some? ==>
            asRemote(v).value.vni == v && !asRemote(v).value.onThisNode && Selected(c, asRemote(v).value))
  }

  /** A pass gets past the vnState: a local attachment does, a remote one if others are local in its network. */
  predicate Stays(s: State, k: Key, att: Att) {
    att.onThisNode || (att.vni in s.vnStates && s.vnStates[att.vni].localAtts - {k} != {})
  }

  /** What the lookups find, given the one VNI the attachment was seen in, if any. */
  function LookedUp(s: State, seenIn: Option<Vni>, asLocal: Option<Att>, asRemote: Vni -> Option<Att>): Verdict {
    Classify(asLocal, if seenIn.Some? && seenIn.value in s.vnStates then asRemote(seenIn.value) else None)
  }

  /** The attachment was seen in just one VNI, that VNI is still of interest, and its lister has the attachment. */
  ghost predicate FoundRemote(s: State, k: Key, asRemote: Vni -> Option<Att>, att: Att) {
    exists v :: k in s.seen && s.seen[k] == {v} && v in s.vnStates && asRemote(v) == Some(att)
  }

  /** Other attachments of this node are in the network. */
  predicate HasOtherLocals(s: State, k: Key, vni: Vni) {
    vni in s.vnStates && s.vnStates[vni].localAtts - {k} != {}
  }

  /** The VNI whose lister of remote attachments is asked. */
  function ListerFor(s: State, seenIn: Option<Vni>): Option<Vni> {
    if seenIn.Some? && seenIn.value in s.vnStates then seenIn else None
  }

  function AttOf(v: Verdict): Option<Att> {
    if v.Existing? then Some(v.att) else None
  }

  /** Which of a pass's calls fail: deleting an interface, creating one, updating the status. */
  datatype Faults = Faults(drop: bool, create: bool, report: bool)

  class ConnectionAgent {
    const c: Config
    var vniToVnState: map<Vni, VnState>
    var nextId: nat
    var closed: set<nat>
    var nsnToVNStateVNI: map<Key, Vni>
    var nsnToVNIs: map<Key, set<Vni>>
    var nsnToLocalMainState: map<Key, LocalIfc>
    var nsnToRemoteIfc: map<Key, RemoteIfc>
    var fabric: set<(Vni, Ip)>
    var queue: set<Key>
    var backoff: set<Key>
    ghost var owing: set<Key>
    ghost var working: map<Key, Pc>

    ghost function Contents(): State
      reads this
    {
      State(vniToVnState, nextId, closed, nsnToVNStateVNI, nsnToVNIs, nsnToLocalMainState, nsnToRemoteIfc, fabric,
            queue, backoff, owing, working)
    }

    ghost predicate IsAt(k: Key, pc: Pc)
      reads this
    {
      k in working && working[k] == pc
    }

    constructor (c: Config)
      ensures this.c == c && Contents() == INIT && AllOk(c, Contents())
    {
      this.c := c;
      vniToVnState, nextId, closed, nsnToVNStateVNI, nsnToVNIs := map[], 0, {}, map[], map[];
      nsnToLocalMainState, nsnToRemoteIfc, fabric := map[], map[], {};
      queue, backoff, owing, working := {}, {}, {}, map[];
      new;
      InitIsOk(c);
    }

    // ---- Sections under a mutex ----

    /** The vnState of the attachment's VNI, made by a first local attachment and removed after a last one. */
    method EnterVnState(k: Key, att: Att) returns (removed: Option<VnState>, noVnState: bool)
      requires k in working
      modifies this`vniToVnState, this`nextId
      ensures vniToVnState == Join(old(Contents()), k, att).vnStates && nextId == Join(old(Contents()), k, att).nextId
      ensures !(removed.Some? && noVnState)
      ensures var pc := Join(old(Contents()), k, att).working[k];
              pc == if removed.Some? then ClosingChannel(removed.value, att.vni, Finish)
                    else if noVnState then Strayed(att) else Implementing(att)
    {
      removed, noVnState := None, false;
      if att.onThisNode {
        if att.vni !in vniToVnState {
          vniToVnState := vniToVnState[att.vni := VnState(nextId, {}, {})];
          nextId := nextId + 1;
        }
        var vs := vniToVnState[att.vni];
        vs := vs.(remoteAtts := vs.remoteAtts - {k}, localAtts := vs.localAtts + {k});
        vniToVnState := vniToVnState[att.vni := vs];
      } else if att.vni in vniToVnState {
        var vs := vniToVnState[att.vni];
        vs := vs.(remoteAtts := vs.remoteAtts + {k}, localAtts := vs.localAtts - {k});
        if vs.localAtts == {} {
          vniToVnState := vniToVnState - {att.vni};
          removed := Some(vs);
        } else {
          vniToVnState := vniToVnState[att.vni := vs];
        }
      } else {
        noVnState := true;
      }
    }

    /** Adds the attachment to the vnState of its VNI and records the VNI if it stays there. */
    method UpdateVnStateForExistingAtt(k: Key, att: Att) returns (removed: Option<VnState>, noVnState: bool)
      requires IsAt(k, Joining(att))
      modifies this
      ensures Contents() == WorkStep(c, old(Contents()), k, NO_CHOICE)
      ensures removed.Some? ==> IsAt(k, ClosingChannel(removed.value, att.vni, Finish))
      ensures noVnState ==> IsAt(k, Strayed(att))
      ensures removed.None? && !noVnState ==> IsAt(k, Implementing(att))
      ensures !(removed.Some? && noVnState)
      ensures removed.None? && !noVnState <==> Stays(old(Contents()), k, att)
      ensures noVnState <==> !att.onThisNode && att.vni !in old(vniToVnState)
      ensures removed.Some? ==> k in removed.value.remoteAtts && att.vni !in vniToVnState
      ensures SameIfcRecords(old(Contents()), Contents()) && backoff == old(backoff)
      ensures noVnState ==> k !in nsnToVNStateVNI
    {
      hide WorkStep, Join;
      StepOfJoining(c, Contents(), k, att);
      removed, noVnState := EnterVnState(k, att);
      if removed.None? && !noVnState {
        nsnToVNStateVNI := nsnToVNStateVNI[k := att.vni];
        working := working[k := Implementing(att)];
      } else {
        nsnToVNStateVNI := nsnToVNStateVNI - {k};
        working := working[k := if noVnState then Strayed(att) else ClosingChannel(removed.value, att.vni, Finish)];
      }
    }

    /** Takes the attachment out of a vnState, and the vnState out of the map if that was its last local one. */
    method RemoveAttFromVNState(k: Key, vni: Vni, ghost after: After) returns (removed: Option<VnState>)
      requires k in working
      modifies this
      ensures Contents() == Depart(old(Contents()), k, vni, after)
      ensures removed.Some? ==> IsAt(k, ClosingChannel(removed.value, vni, after))
      ensures removed.None? ==> IsAt(k, Resume(after))
    {
      removed := None;
      if vni in vniToVnState {
        var vs := vniToVnState[vni];
        vs := vs.(localAtts := vs.localAtts - {k});
        if vs.localAtts == {} {
          vniToVnState := vniToVnState - {vni};
          removed := Some(vs);
        } else {
          vniToVnState := vniToVnState[vni := vs.(remoteAtts := vs.remoteAtts - {k})];
        }
      }
      nsnToVNStateVNI := nsnToVNStateVNI - {k};
      working := working[k := if removed.Some? then ClosingChannel(removed.value, vni, after) else Resume(after)];
    }

    method AddVNI(k: Key, vni: Vni)
      modifies this`nsnToVNIs
      ensures Contents() == AddSeen(old(Contents()), k, vni)
    {
      nsnToVNIs := nsnToVNIs[k := (if k in nsnToVNIs then nsnToVNIs[k] else {}) + {vni}];
    }

    method RemoveSeenInVNI(k: Key, vni: Vni)
      modifies this`nsnToVNIs
      ensures Contents() == RemoveSeen(old(Contents()), k, vni)
    {
      if k in nsnToVNIs {
        var vnis := nsnToVNIs[k] - {vni};
        if vnis == {} {
          nsnToVNIs := nsnToVNIs - {k};
        } else {
          nsnToVNIs := nsnToVNIs[k := vnis];
        }
      }
    }

    // ---- Handlers ----

    /** The body of the loop over the remote attachments of an abandoned virtual network. */
    method RequeueRemote(k: Key, r: Key, todo: set<Key>, vni: Vni, ghost after: After)
      requires IsAt(k, Requeueing(todo, vni, after)) && r in todo
      modifies this`nsnToVNIs, this`queue, this`working
      ensures Reaches(c, old(Contents()), k, Contents())
      ensures Clearing(old(Contents()), Contents(), k, {}, {r}, vni, Requeueing(todo - {r}, vni, after))
    {
      hide Reaches, RemoveSeen, SeenIn, WorkStep, WorkEnabled;
      StepsOfRequeueing(c, Contents(), k, r);
      RemoveSeenFrame(Contents(), r, vni);
      RemoveSeenInVNI(r, vni);
      queue := queue + {r};
      working := working[k := Requeueing(todo - {r}, vni, after)];
      SeenAfterRemoval(old(Contents()), r, vni, Contents());
    }

    /** Closes the stop channel and queues the remote attachments, forgetting that they were seen there. */
    method ClearVNResources(k: Key, vs: VnState, vni: Vni, ghost after: After)
      requires IsAt(k, ClosingChannel(vs, vni, after))
      modifies this
      ensures Reaches(c, old(Contents()), k, Contents())
      ensures Clearing(old(Contents()), Contents(), k, {vs.id}, vs.remoteAtts, vni, Resume(after))
    {
      hide Reaches, Resume, WorkStep, Clearing;
      StepsAreThese(c, Contents(), k, vni);
      closed := closed + {vs.id};
      working := working[k := Requeueing(vs.remoteAtts, vni, after)];
      var todo := vs.remoteAtts;
      assert vs.remoteAtts - todo == {};
      while todo != {}
        invariant todo <= vs.remoteAtts && Reaches(c, old(Contents()), k, Contents())
        invariant Clearing(old(Contents()), Contents(), k, {vs.id}, vs.remoteAtts - todo, vni,
                           Requeueing(todo, vni, after))
      {
        var r :| r in todo;
        ghost var s0 := Contents();
        ClearingIsAt(old(Contents()), s0, k, {vs.id}, vs.remoteAtts - todo, vni, Requeueing(todo, vni, after));
        RequeueRemote(k, r, todo, vni, after);
        ReachesOn(c, old(Contents()), k, s0, Contents());
        ClearingOn(old(Contents()), s0, Contents(), k, {vs.id}, vs.remoteAtts - todo, {}, {r}, vni,
                   Requeueing(todo, vni, after), Requeueing(todo - {r}, vni, after));
        assert vs.remoteAtts - todo + {r} == vs.remoteAtts - (todo - {r}) && {vs.id} + {} == {vs.id};
        todo := todo - {r};
      }
      ghost var s0 := Contents();
      assert vs.remoteAtts - todo == vs.remoteAtts == vs.remoteAtts + {} && {vs.id} + {} == {vs.id};
      ClearingIsAt(old(Contents()), s0, k, {vs.id}, vs.remoteAtts, vni, Requeueing({}, vni, after));
      StepsAreThese(c, s0, k, vni);
      working := working[k := Resume(after)];
      ReachesOn(c, old(Contents()), k, s0, Contents());
      ClearingOn(old(Contents()), s0, Contents(), k, {vs.id}, vs.remoteAtts, {}, {}, vni,
                 Requeueing({}, vni, after), Resume(after));
    }

    method UpdateVNStateAfterAttDeparture(k: Key, vni: Vni, ghost after: After)
      requires k in working && WorkEnabled(c, Contents(), k, NO_CHOICE)
      requires WorkStep(c, Contents(), k, NO_CHOICE) == Depart(Contents(), k, vni, after)
      modifies this
      ensures Reaches(c, old(Contents()), k, Contents()) && IsAt(k, Resume(after))
      ensures nsnToVNStateVNI == old(nsnToVNStateVNI) - {k}
      ensures vniToVnState == Depart(old(Contents()), k, vni, after).vnStates
      ensures SameIfcRecords(old(Contents()), Contents()) && backoff == old(backoff)
    {
      hide Reaches, Resume, WorkStep, WorkEnabled, Depart;
      DepartIfcs(Contents(), k, vni, after);
      DepartEntry(Contents(), k, vni, after);
      ReachesByStep(c, Contents(), k, NO_CHOICE);
      var removed := RemoveAttFromVNState(k, vni, after);
      if removed.Some? {
        ghost var s1 := Contents();
        ClearVNResources(k, removed.value, vni, after);
        ClearingKeeps(s1, Contents(), k, {removed.value.id}, removed.value.remoteAtts, vni, Resume(after));
        ClearingIsAt(s1, Contents(), k, {removed.value.id}, removed.value.remoteAtts, vni, Resume(after));
        ReachesOn(c, old(Contents()), k, s1, Contents());
      }
    }

    /** The attachment leaves the vnState of a former VNI and enters that of its VNI. */
    method UpdateVNState(k: Key, att: Att) returns (removed: Option<VnState>, noVnState: bool)
      requires IsAt(k, Arriving(att))
      modifies this
      ensures Reaches(c, old(Contents()), k, Contents())
      ensures removed.Some? ==> IsAt(k, ClosingChannel(removed.value, att.vni, Finish))
      ensures noVnState ==> IsAt(k, Strayed(att))
      ensures removed.None? && !noVnState ==> IsAt(k, Implementing(att))
      ensures !(removed.Some? && noVnState)
      ensures removed.None? && !noVnState <==> Stays(old(Contents()), k, att)
      ensures noVnState <==> !att.onThisNode && att.vni !in old(vniToVnState)
      ensures removed.Some? ==> k in removed.value.remoteAtts && att.vni !in vniToVnState
      ensures SameIfcRecords(old(Contents()), Contents()) && backoff == old(backoff)
      ensures noVnState ==> k !in nsnToVNStateVNI
    {
      hide Reaches, Depart, Join, Stays;
      if k in nsnToVNStateVNI && nsnToVNStateVNI[k] != att.vni {
        UpdateVNStateAfterAttDeparture(k, nsnToVNStateVNI[k], Rejoin(att));
      } else {
        working := working[k := Joining(att)];
        ReachesByStep(c, old(Contents()), k, NO_CHOICE);
      }
      ghost var s1 := Contents();
      DepartStays(old(Contents()), k, att, if k in old(nsnToVNStateVNI) then old(nsnToVNStateVNI)[k] else att.vni,
                  Rejoin(att), s1);
      ReachesByStep(c, s1, k, NO_CHOICE);
      removed, noVnState := UpdateVnStateForExistingAtt(k, att);
      ReachesOn(c, old(Contents()), k, s1, Contents());
    }

    /** Deletes the recorded interface, if any, on the way to `next`; `fails` says that the fabric will not. */
    method DeleteIfc(k: Key, fails: bool, ghost next: Pc) returns (err: bool)
      requires k in working
      modifies this
      ensures Contents() == DropOr(old(Contents()), k, fails, next)
      ensures err <==> fails && (k in old(nsnToLocalMainState) || k in old(nsnToRemoteIfc))
      ensures IsAt(k, if err then Leaving(true, None) else next)
      ensures SameIfcRecords(if err then old(Contents()) else DropIfc(old(Contents()), k), Contents())
      ensures nsnToVNStateVNI == old(nsnToVNStateVNI) && backoff == old(backoff)
    {
      err := fails && (k in nsnToLocalMainState || k in nsnToRemoteIfc);
      if err {
        working := working[k := Leaving(true, None)];
        return;
      }
      if k in nsnToLocalMainState {
        fabric := fabric - {(nsnToLocalMainState[k].vni, nsnToLocalMainState[k].ip)};
        nsnToLocalMainState := nsnToLocalMainState - {k};
      } else if k in nsnToRemoteIfc {
        fabric := fabric - {(nsnToRemoteIfc[k].vni, nsnToRemoteIfc[k].ip)};
        nsnToRemoteIfc := nsnToRemoteIfc - {k};
      }
      working := working[k := next];
    }

    method ProcessDeletedAtt(k: Key, fails: bool) returns (err: bool)
      requires IsAt(k, Departing)
      modifies this
      ensures Reaches(c, old(Contents()), k, Contents())
      ensures IsAt(k, Leaving(err, None))
      ensures err <==> fails && (k in old(nsnToLocalMainState) || k in old(nsnToRemoteIfc))
      ensures k !in nsnToVNStateVNI
      ensures err ==> SameIfcRecords(old(Contents()), Contents())
      ensures !err ==> SameIfcRecords(DropIfc(old(Contents()), k), Contents())
      ensures backoff == old(backoff)
    {
      hide Reaches, Depart, DropOr, DropIfc;
      if k in nsnToVNStateVNI {
        UpdateVNStateAfterAttDeparture(k, nsnToVNStateVNI[k], DropIfcs);
      } else {
        working := working[k := DroppingIfc];
        ReachesByStep(c, old(Contents()), k, NO_CHOICE);
      }
      ghost var s1 := Contents();
      ReachesByStep(c, s1, k, NO_CHOICE.(fails := fails));
      err := DeleteIfc(k, fails, Leaving(false, None));
      DropSame(old(Contents()), s1, k);
      ReachesOn(c, old(Contents()), k, s1, Contents());
    }

    /** Makes the interface and records it, unless its VNI and address are taken or the fabric fails. */
    method CreateIfc(k: Key, att: Att, fails: bool) returns (err: bool)
      requires IsAt(k, Creating(att))
      modifies this
      ensures err <==> fails || (att.vni, att.ip) in old(fabric)
      ensures Contents() == CreateOr(c, old(Contents()), k, att, err)
      ensures !err ==> SameIfcRecords(AgentMachine.CreateIfc(c, old(Contents()), k, att), Contents())
      ensures backoff == old(backoff)
      ensures IsAt(k, if err then Leaving(true, None) else Completed(att))
    {
      hide MacOf, Completed;
      err := fails || (att.vni, att.ip) in fabric;
      if err {
        working := working[k := Leaving(true, None)];
        return;
      }
      fabric := fabric + {(att.vni, att.ip)};
      if HostOf(c, att) == c.hostIP {
        nsnToLocalMainState := nsnToLocalMainState[k := LocalIfc(att.vni, MacOf(att), att.ip)];
      } else {
        nsnToRemoteIfc := nsnToRemoteIfc[k := RemoteIfc(att.vni, MacOf(att), att.ip, att.hostIP)];
      }
      working := working[k := Completed(att)];
    }

    method CreateOrUpdateIfc(k: Key, att: Att, faults: Faults) returns (err: bool)
      requires IsAt(k, Implementing(att))
      modifies this
      ensures Reaches(c, old(Contents()), k, Contents())
      ensures IsAt(k, if err then Leaving(true, None) else Completed(att))
      ensures !err && !(k in old(nsnToLocalMainState) && k in old(nsnToRemoteIfc)) ==>
              !NeedsNewIfc(c, Contents(), k, att)
      ensures err ==> faults.drop || faults.create || (att.vni, att.ip) in old(fabric)
      ensures backoff == old(backoff)
    {
      hide Reaches, DropOr, CreateOr, Completed, HostOf, MacOf;
      var mac := MacOf(att);
      var needsNew := (k !in nsnToLocalMainState && k !in nsnToRemoteIfc)
        || (k in nsnToLocalMainState && IfcNeedsUpdate(c.hostIP, HostOf(c, att), nsnToLocalMainState[k].mac, mac))
        || (k in nsnToRemoteIfc
            && IfcNeedsUpdate(nsnToRemoteIfc[k].hostIP, HostOf(c, att), nsnToRemoteIfc[k].mac, mac));
      if !needsNew {
        ReachesByStep(c, old(Contents()), k, NO_CHOICE);
        working := working[k := Completed(att)];
        NeedsSame(c, old(Contents()), Contents(), k, att);
        return false;
      }
      ReachesByStep(c, old(Contents()), k, NO_CHOICE.(fails := faults.drop));
      err := DeleteIfc(k, faults.drop, Creating(att));
      if !err {
        ghost var s1 := Contents();
        DropRecords(old(Contents()), k);
        err := CreateIfc(k, att, faults.create);
        ReachesByStep(c, s1, k, NO_CHOICE.(fails := err));
        ReachesOn(c, old(Contents()), k, s1, Contents());
        if !err && !(k in old(nsnToLocalMainState) && k in old(nsnToRemoteIfc)) {
          MadeIsUpToDate(c, old(Contents()), s1, Contents(), k, att);
        }
      }
    }

    /** `reached` is the attachment if the pass got through to the end. */
    method ProcessExistingAtt(k: Key, att: Att, faults: Faults) returns (err: bool, reached: Option<Att>)
      requires IsAt(k, Arriving(att))
      modifies this
      ensures Reaches(c, old(Contents()), k, Contents())
      ensures IsAt(k, Leaving(err, reached)) && (reached.Some? ==> reached.value == att)
      ensures reached.Some? <==> !err && Stays(old(Contents()), k, att)
      ensures err ==> faults.drop || faults.create || faults.report || (att.vni, att.ip) in old(fabric)
      ensures !att.onThisNode && att.vni !in old(vniToVnState) ==>
                && k !in nsnToVNStateVNI
                && SameIfcRecords(if err then old(Contents()) else DropIfc(old(Contents()), k), Contents())
      ensures !err && reached.None? && att.vni in old(vniToVnState) ==> k in queue && att.vni !in vniToVnState
      ensures backoff == old(backoff)
    {
      hide DropIfc, Clearing;
      hide Reaches, RemoveSeen, WorkStep, WorkEnabled, Completed, Stays;
      reached := None;
      var removed, noVnState := UpdateVNState(k, att);
      ghost var s1 := Contents();
      if removed.Some? {
        ClearVNResources(k, removed.value, att.vni, Finish);
        ClearingKeeps(s1, Contents(), k, {removed.value.id}, removed.value.remoteAtts, att.vni, Resume(Finish));
        ClearingIsAt(s1, Contents(), k, {removed.value.id}, removed.value.remoteAtts, att.vni, Resume(Finish));
        ReachesOn(c, old(Contents()), k, s1, Contents());
        return false, None;
      }
      if noVnState {
        StepOfStrayed(c, s1, k);
        RemoveSeenInVNI(k, att.vni);
        working := working[k := Departing];
        ghost var s2 := Contents();
        err := ProcessDeletedAtt(k, faults.drop);
        DropSame(old(Contents()), s2, k);
        ReachesOn(c, s1, k, s2, Contents());
        ReachesOn(c, old(Contents()), k, s1, Contents());
        return;
      }
      err := CreateOrUpdateIfc(k, att, faults);
      ReachesOn(c, old(Contents()), k, s1, Contents());
      StepOfReporting(c, Contents(), k, att, faults.report);
      if err {
        return;
      }
      if !att.onThisNode {
        reached := Some(att);
        return;
      }
      ghost var s2 := Contents();
      err := faults.report;
      reached := if err then None else Some(att);
      working := working[k := Leaving(err, reached)];
      ReachesOn(c, old(Contents()), k, s2, Contents());
    }

    /** The attachment as it is now, or that it is gone, or neither if that cannot be told. */
    method GetAttachment(k: Key, asLocal: Option<Att>, asRemote: Vni -> Option<Att>)
      returns (att: Option<Att>, deleted: bool)
      requires IsAt(k, Starting) && Answers(c, asLocal, asRemote)
      modifies this`working
      ensures Reaches(c, old(Contents()), k, Contents())
      ensures IsAt(k, if att.Some? then Arriving(att.value) else if deleted then Departing else Leaving(false, None))
      ensures k in working && Contents() == old(Contents()).(working := old(working)[k := working[k]])
      ensures |SeenIn(old(Contents()), k)| > 1 ==> att.None? && !deleted
      ensures SeenIn(old(Contents()), k) == {} ==>
                var v := LookedUp(old(Contents()), None, asLocal, asRemote); att == AttOf(v) && deleted == v.Deleted?
      ensures forall vni :: SeenIn(old(Contents()), k) == {vni} ==>
                var v := LookedUp(old(Contents()), Some(vni), asLocal, asRemote);
                att == AttOf(v) && deleted == v.Deleted?
    {
      hide Reaches, WorkStep, WorkEnabled, Answers, LookedUp;
      var vnis := if k in nsnToVNIs then nsnToVNIs[k] else {};
      if |vnis| > 1 {
        StepsOfStarting(c, Contents(), k, 0);
        working := working[k := Leaving(false, None)];
        return None, false;
      }
      var found: Option<Att> := None;
      ghost var seenIn: Option<Vni> := None;
      if |vnis| == 1 {
        var vni :| vni in vnis;
        OnlyOne(vnis, vni);
        StepsOfStarting(c, Contents(), k, vni);
        seenIn := Some(vni);
        if vni in vniToVnState {
          found := asRemote(vni);
        }
      } else {
        StepsOfStarting(c, Contents(), k, 0);
      }
      working := working[k := LookingUp(ListerFor(Contents(), seenIn))];
      ghost var s2 := Contents();
      StepOfLookingUp(c, s2, k, seenIn, asLocal, asRemote);
      att, deleted := None, false;
      if asLocal.Some? && found.None? {
        att := asLocal;
      } else if asLocal.None? && found.Some? {
        att := found;
      } else {
        deleted := true;
      }
      LookedUpIs(s2, seenIn, asLocal, asRemote, found);
      SameLookUp(old(Contents()), s2, seenIn, asLocal, asRemote);
      working := working[k := if att.Some? then Arriving(att.value) else Departing];
      ReachesOn(c, old(Contents()), k, s2, Contents());
    }

    /**
     A pass by a worker nobody interferes with.  Afterwards all holds that holds in every reachable state, a
     failed attachment is in back-off, and one that was got through has just the interface it should have.
     */
    method ProcessQueueItem(k: Key, asLocal: Option<Att>, asRemote: Vni -> Option<Att>, faults: Faults)
      returns (err: bool, reached: Option<Att>)
      requires AllOk(c, Contents()) && IsAt(k, Starting) && Answers(c, asLocal, asRemote)
      modifies this
      ensures AllOk(c, Contents()) && Reaches(c, old(Contents()), k, Contents()) && k !in working
      ensures backoff == old(backoff) + if err then {k} else {}
      ensures reached.Some? ==> Matches(c, Contents(), k, reached.value)
      ensures Safe(Contents(), k)
      ensures var several := k in old(nsnToVNIs) && |old(nsnToVNIs)[k]| > 1;
              && (several ==> !err && Contents() == old(Contents()).(working := old(working) - {k}))
              && (!several && asLocal.Some? && (forall a :: !FoundRemote(old(Contents()), k, asRemote, a)) ==>
                    err || reached == asLocal)
              && (!several && (asLocal.Some? <==> exists a :: FoundRemote(old(Contents()), k, asRemote, a)) ==>
                    && reached.None? && k !in nsnToVNStateVNI
                    && (err || (k !in nsnToLocalMainState && k !in nsnToRemoteIfc)))
      ensures forall a :: asLocal.None? && FoundRemote(old(Contents()), k, asRemote, a) ==>
                || err
                || (if HasOtherLocals(old(Contents()), k, a.vni) then reached == Some(a)
                    else if a.vni in old(vniToVnState) then k in queue && a.vni !in vniToVnState
                    else k !in nsnToVNStateVNI && k !in nsnToLocalMainState && k !in nsnToRemoteIfc)
      ensures err ==> faults.drop || faults.create || faults.report
                      || (asLocal.Some? && (asLocal.value.vni, asLocal.value.ip) in old(fabric))
                      || exists a :: FoundRemote(old(Contents()), k, asRemote, a) && (a.vni, a.ip) in old(fabric)
    {
      hide Reaches, AllOk, Matches, Safe, WorkStep, WorkEnabled, SeenIn, LookedUp, FoundRemote;
      hide DropIfc, IfcOk;
      reached := None;
      err := false;
      var att, deleted := GetAttachment(k, asLocal, asRemote);
      AnswerIs(old(Contents()), c, k, asLocal, asRemote, att, deleted);
      NotBoth(c, Contents(), old(Contents()), k);
      ghost var s1 := Contents();
      DropRecords(s1, k);
      assert old(working)[k := working[k]] - {k} == old(working) - {k};
      if att.Some? {
        err, reached := ProcessExistingAtt(k, att.value, faults);
        ReachesOn(c, old(Contents()), k, s1, Contents());
      } else if deleted {
        err := ProcessDeletedAtt(k, faults.drop);
        ReachesOn(c, old(Contents()), k, s1, Contents());
      }
      ghost var s2 := Contents();
      PassIsRight(c, old(Contents()), k, s2, err, reached);
      StepOfLeaving(c, s2, k);
      if err {
        backoff := backoff + {k};
      }
      working := working - {k};
      ReachesOn(c, old(Contents()), k, s2, Contents());
      PassIsOver(c, old(Contents()), k, s2, Contents(), reached);
    }
  }

  /** The answer of the lookups, by what was seen and what the listers answer. */
  lemma AnswerIs(s: State, c: Config, k: Key, asLocal: Option<Att>, asRemote: Vni -> Option<Att>, att: Option<Att>,
                 deleted: bool)
    requires Answers(c, asLocal, asRemote)
    requires |SeenIn(s, k)| > 1 ==> att.None? && !deleted
    requires SeenIn(s, k) == {} ==>
               var v := LookedUp(s, None, asLocal, asRemote); att == AttOf(v) && deleted == v.Deleted?
    requires forall vni :: SeenIn(s, k) == {vni} ==>
               var v := LookedUp(s, Some(vni), asLocal, asRemote); att == AttOf(v) && deleted == v.Deleted?
    ensures k in s.seen && |s.seen[k]| > 1 ==> att.None? && !deleted
    ensures !(k in s.seen && |s.seen[k]| > 1) ==>
              && (asLocal.Some? && (forall a :: !FoundRemote(s, k, asRemote, a)) ==> att == asLocal)
              && ((asLocal.Some? <==> exists a :: FoundRemote(s, k, asRemote, a)) ==> att.None? && deleted)
    ensures forall a :: FoundRemote(s, k, asRemote, a) ==>
              && !(k in s.seen && |s.seen[k]| > 1) && a.vni in s.vnStates && !a.onThisNode
              && (asLocal.None? ==> att == Some(a))
    ensures att.Some? ==> att == asLocal || FoundRemote(s, k, asRemote, att.value)
    ensures asLocal.Some? ==> asLocal.value.onThisNode
  {
    if |SeenIn(s, k)| == 1 {
      var v :| v in SeenIn(s, k);
      OnlyOne(SeenIn(s, k), v);
      assert k in s.seen && s.seen[k] == {v};
      forall a ensures FoundRemote(s, k, asRemote, a) <==> v in s.vnStates && asRemote(v) == Some(a) {
      }
    }
  }

  lemma NotBoth(c: Config, s: State, s0: State, k: Key)
    requires AllOk(c, s0) && SameIfcRecords(s0, s)
    ensures !(k in s.locals && k in s.remotes)
  {
    InvParts(c, s0, k);
  }

  lemma LookedUpIs(s: State, seenIn: Option<Vni>, asLocal: Option<Att>, asRemote: Vni -> Option<Att>,
                   found: Option<Att>)
    requires found == if seenIn.Some? && seenIn.value in s.vnStates then asRemote(seenIn.value) else None
    ensures LookedUp(s, seenIn, asLocal, asRemote) == Classify(asLocal, found)
  {
  }

  lemma SameLookUp(s: State, s': State, seenIn: Option<Vni>, asLocal: Option<Att>, asRemote: Vni -> Option<Att>)
    requires s'.vnStates == s.vnStates
    ensures LookedUp(s, seenIn, asLocal, asRemote) == LookedUp(s', seenIn, asLocal, asRemote)
  {
  }

  lemma OnlyOne(s: set<Vni>, v: Vni)
    requires |s| == 1 && v in s
    ensures s == {v}
  {
    assert |s - {v}| == 0;
  }

  /** Leaving the vnState of a former VNI does not matter to that of the new one. */
  lemma DepartStays(s: State, k: Key, att: Att, v: Vni, after: After, s': State)
    requires s'.vnStates == s.vnStates || (v != att.vni && s'.vnStates == Depart(s, k, v, after).vnStates)
    ensures Stays(s', k, att) <==> Stays(s, k, att)
    ensures att.vni in s'.vnStates <==> att.vni in s.vnStates
  {
    hide Resume;
  }

  lemma DepartEntry(s: State, k: Key, v: Vni, after: After)
    ensures Depart(s, k, v, after).vnStateVni == s.vnStateVni - {k}
    ensures Depart(s, k, v, after).backoff == s.backoff
  {
    hide Resume;
  }

  /** Channels are closed and attachments queued, which are no longer seen in the VNI; and the worker is at `pc`. */
  ghost predicate Clearing(s: State, s': State, k: Key, ids: set<nat>, added: set<Key>, vni: Vni, pc: Pc) {
    && s' == s.(closed := s.closed + ids, dirty := s.dirty + added, seen := s'.seen, working := s.working[k := pc])
    && forall r :: SeenIn(s', r) == SeenIn(s, r) - if r in added then {vni} else {}
  }

  lemma ClearingIsAt(s: State, s': State, k: Key, ids: set<nat>, added: set<Key>, vni: Vni, pc: Pc)
    requires Clearing(s, s', k, ids, added, vni, pc)
    ensures k in s'.working && s'.working[k] == pc
  {
    hide SeenIn;
  }

  lemma ClearingKeeps(s: State, s': State, k: Key, ids: set<nat>, added: set<Key>, vni: Vni, pc: Pc)
    requires Clearing(s, s', k, ids, added, vni, pc)
    ensures SameIfcRecords(s, s') && s'.backoff == s.backoff && s'.vnStates == s.vnStates
    ensures s'.vnStateVni == s.vnStateVni && s'.dirty == s.dirty + added
  {
    hide SeenIn;
  }

  lemma ClearingOn(s: State, s1: State, s2: State, k: Key, ids: set<nat>, added: set<Key>, ids': set<nat>,
                   added': set<Key>, vni: Vni, pc: Pc, pc': Pc)
    requires Clearing(s, s1, k, ids, added, vni, pc) && Clearing(s1, s2, k, ids', added', vni, pc')
    ensures Clearing(s, s2, k, ids + ids', added + added', vni, pc')
  {
    hide SeenIn;
    assert s.closed + ids + ids' == s.closed + (ids + ids');
    assert s.dirty + added + added' == s.dirty + (added + added');
    assert s.working[k := pc][k := pc'] == s.working[k := pc'];
  }

  /** The first and the last step of clearing a virtual network. */
  lemma StepsAreThese(c: Config, s: State, k: Key, vni: Vni)
    requires k in s.working
    ensures s.working[k].ClosingChannel? ==>
              var pc := s.working[k];
              var s' := At(s.(closed := s.closed + {pc.vs.id}), k, Requeueing(pc.vs.remoteAtts, pc.vni, pc.after));
              Reaches(c, s, k, s') && Clearing(s, s', k, {pc.vs.id}, {}, vni, s'.working[k])
    ensures s.working[k].Requeueing? && s.working[k].todo == {} ==>
              var s' := At(s, k, Resume(s.working[k].after));
              Reaches(c, s, k, s') && Clearing(s, s', k, {}, {}, vni, s'.working[k])
  {
    hide Reaches, Resume;
    if s.working[k].ClosingChannel? || (s.working[k].Requeueing? && s.working[k].todo == {}) {
      ReachesByStep(c, s, k, NO_CHOICE);
    }
  }

  /** One attachment forgotten and queued: two steps of the worker. */
  lemma StepsOfRequeueing(c: Config, s: State, k: Key, r: Key)
    requires k in s.working && s.working[k].Requeueing? && r in s.working[k].todo
    ensures var pc := s.working[k];
            Reaches(c, s, k, At(RemoveSeen(s, r, pc.vni).(dirty := s.dirty + {r}), k,
                                Requeueing(pc.todo - {r}, pc.vni, pc.after)))
  {
    hide Reaches, RemoveSeen, Resume;
    var pc := s.working[k];
    var s1 := At(RemoveSeen(s, r, pc.vni), k, RequeueAdd(r, pc.todo - {r}, pc.vni, pc.after));
    RemoveSeenFrame(s, r, pc.vni);
    ReachesByStep(c, s, k, NO_CHOICE.(pick := r));
    ReachesByStep(c, s1, k, NO_CHOICE);
    var s2 := WorkStep(c, s1, k, NO_CHOICE);
    var next := Requeueing(pc.todo - {r}, pc.vni, pc.after);
    assert s1.working[k := next] == s.working[k := next];
    ReachesOn(c, s, k, s1, s2);
  }

  lemma SeenAfterRemoval(s: State, r: Key, vni: Vni, s': State)
    requires s'.seen == RemoveSeen(s, r, vni).seen
    ensures forall j :: SeenIn(s', j) == SeenIn(s, j) - if j in {r} then {vni} else {}
  {
  }

  lemma DropRecords(s: State, k: Key)
    ensures DropIfc(s, k).locals == s.locals - {k}
    ensures DropIfc(s, k).remotes == if k in s.locals then s.remotes else s.remotes - {k}
    ensures DropIfc(s, k).fabric
            == s.fabric - (if k in s.locals then {(s.locals[k].vni, s.locals[k].ip)}
                           else if k in s.remotes then {(s.remotes[k].vni, s.remotes[k].ip)}
                           else {})
  {
    if k !in s.locals {
      assert s.locals - {k} == s.locals;
      if k !in s.remotes {
        assert s.remotes - {k} == s.remotes;
      }
    }
  }

  lemma DropSame(s: State, s1: State, k: Key)
    requires SameIfcRecords(s, s1)
    ensures SameIfcRecords(DropIfc(s, k), DropIfc(s1, k))
  {
    hide DropIfc;
    DropRecords(s, k);
    DropRecords(s1, k);
  }

  /** What an attachment needs depends on the recorded interfaces only. */
  lemma NeedsSame(c: Config, s: State, s1: State, k: Key, att: Att)
    requires SameIfcRecords(s, s1)
    ensures NeedsNewIfc(c, s1, k, att) == NeedsNewIfc(c, s, k, att)
  {
    hide HostOf, MacOf;
  }

  /** A new interface is up to date. */
  lemma MadeIsUpToDate(c: Config, s: State, s1: State, s2: State, k: Key, att: Att)
    requires !(k in s.locals && k in s.remotes)
    requires SameIfcRecords(DropIfc(s, k), s1) && SameIfcRecords(AgentMachine.CreateIfc(c, s1, k, att), s2)
    ensures !NeedsNewIfc(c, s2, k, att)
  {
    hide MacOf;
  }

  /** From the start to the lookups, or straight to the end if seen in several VNIs. */
  lemma StepsOfStarting(c: Config, s: State, k: Key, vni: Vni)
    requires k in s.working && s.working[k] == Starting
    ensures |SeenIn(s, k)| > 1 ==> Reaches(c, s, k, At(s, k, Leaving(false, None)))
    ensures SeenIn(s, k) == {} ==> Reaches(c, s, k, At(s, k, LookingUp(None)))
    ensures SeenIn(s, k) == {vni} ==> Reaches(c, s, k, At(s, k, LookingUp(ListerFor(s, Some(vni)))))
  {
    hide Reaches, SeenIn;
    if |SeenIn(s, k)| != 1 {
      ReachesByStep(c, s, k, NO_CHOICE);
    } else if SeenIn(s, k) == {vni} {
      var ch := NO_CHOICE.(vni := vni);
      ReachesByStep(c, s, k, ch);
      var s1 := At(s, k, FindingLister(vni));
      ReachesByStep(c, s1, k, NO_CHOICE);
      assert s1.working[k := LookingUp(ListerFor(s, Some(vni)))] == s.working[k := LookingUp(ListerFor(s, Some(vni)))];
      ReachesOn(c, s, k, s1, At(s1, k, LookingUp(ListerFor(s, Some(vni)))));
    }
  }

  lemma StepOfLookingUp(c: Config, s: State, k: Key, seenIn: Option<Vni>, asLocal: Option<Att>,
                        asRemote: Vni -> Option<Att>)
    requires k in s.working && s.working[k] == LookingUp(ListerFor(s, seenIn)) && Answers(c, asLocal, asRemote)
    ensures var v := LookedUp(s, seenIn, asLocal, asRemote);
            Reaches(c, s, k, At(s, k, if v.Existing? then Arriving(v.att) else Departing))
  {
    hide Reaches;
    var found := if ListerFor(s, seenIn).Some? then asRemote(seenIn.value) else None;
    ReachesByStep(c, s, k, NO_CHOICE.(asLocal := asLocal, asRemote := found));
  }

  lemma StepOfJoining(c: Config, s: State, k: Key, att: Att)
    requires k in s.working && s.working[k] == Joining(att)
    ensures WorkStep(c, s, k, NO_CHOICE) == Join(s, k, att)
    ensures var pc := Join(s, k, att).working[k];
            && Join(s, k, att) == s.(vnStates := Join(s, k, att).vnStates, nextId := Join(s, k, att).nextId,
                                     working := s.working[k := pc],
                                     vnStateVni := if pc.Implementing? then s.vnStateVni[k := att.vni]
                                                   else s.vnStateVni - {k})
            && (pc.Implementing? <==> Stays(s, k, att)) && (pc.Strayed? <==> !att.onThisNode && att.vni !in s.vnStates)
            && (pc.ClosingChannel? ==> k in pc.vs.remoteAtts && att.vni !in Join(s, k, att).vnStates)
  {
  }

  lemma StepOfStrayed(c: Config, s: State, k: Key)
    requires k in s.working && s.working[k].Strayed?
    ensures Reaches(c, s, k, At(RemoveSeen(s, k, s.working[k].att.vni), k, Departing))
  {
    hide Reaches, RemoveSeen;
    ReachesByStep(c, s, k, NO_CHOICE);
  }

  lemma StepOfReporting(c: Config, s: State, k: Key, att: Att, fails: bool)
    requires k in s.working
    ensures s.working[k] == Completed(att) ==>
              if att.onThisNode then
                Reaches(c, s, k, At(s, k, if fails then Leaving(true, None) else Leaving(false, Some(att))))
              else s.working[k] == Leaving(false, Some(att))
  {
    hide Reaches;
    if s.working[k].Reporting? {
      ReachesByStep(c, s, k, NO_CHOICE.(fails := fails));
    }
  }

  lemma StepOfLeaving(c: Config, s: State, k: Key)
    requires k in s.working && s.working[k].Leaving?
    ensures Reaches(c, s, k, s.(working := s.working - {k},
                                backoff := if s.working[k].failed then s.backoff + {k} else s.backoff))
  {
    hide Reaches;
    ReachesByStep(c, s, k, NO_CHOICE);
  }

  lemma ReachesKeepsAll(c: Config, s: State, k: Key, s': State)
    requires AllOk(c, s) && Reaches(c, s, k, s')
    ensures AllOk(c, s')
  {
    hide AllOk, Leads;
    var chs :| Leads(c, s, k, chs, s');
    LeadsKeepsAll(c, s, k, chs, s');
  }

  /** A worker about to leave has done what it should. */
  lemma PassIsRight(c: Config, s: State, k: Key, s': State, err: bool, reached: Option<Att>)
    requires AllOk(c, s) && Reaches(c, s, k, s') && k in s'.working && s'.working[k] == Leaving(err, reached)
    ensures reached.Some? ==> Matches(c, s', k, reached.value)
  {
    hide Reaches, Matches;
    ReachesKeepsAll(c, s, k, s');
    InvParts(c, s', k);
  }

  lemma PassIsOver(c: Config, s: State, k: Key, s1: State, s': State, reached: Option<Att>)
    requires AllOk(c, s) && Reaches(c, s, k, s')
    requires s'.locals == s1.locals && s'.remotes == s1.remotes
    requires reached.Some? ==> Matches(c, s1, k, reached.value)
    requires k !in s'.working && k in s1.working
    ensures AllOk(c, s')
    ensures reached.Some? ==> Matches(c, s', k, reached.value)
    ensures Safe(s', k)
  {
    hide Reaches, Safe;
    ReachesKeepsAll(c, s, k, s');
    InvParts(c, s', k);
  }
}
