/** The fabric and the stop channels, and what holds over every run of the connection agent. */
module AgentTheorems {
  import opened Options
  import opened MacAddresses
  import opened AgentMachine
  import opened AgentInvariant
  import opened AgentSteps

  // ---- The fabric holds exactly the recorded interfaces ----

  function IfcPair(s: State, k: Key): Option<(Vni, Ip)> {
    if k in s.locals then Some((s.locals[k].vni, s.locals[k].ip))
    else if k in s.remotes then Some((s.remotes[k].vni, s.remotes[k].ip))
    else None
  }

  /** Every fabric interface is some attachment's, and no two attachments share a VNI and address. */
  ghost predicate FabricOk(s: State) {
    && (forall k :: IfcPair(s, k).Some? ==> IfcPair(s, k).value in s.fabric)
    && (forall p :: p in s.fabric ==> exists k :: IfcPair(s, k) == Some(p))
    && (forall k, k' :: IfcPair(s, k).Some? && IfcPair(s, k) == IfcPair(s, k') ==> k == k')
  }

  lemma SameIfcs(s: State, s': State)
    requires FabricOk(s)
    requires s'.locals == s.locals && s'.remotes == s.remotes && s'.fabric == s.fabric
    ensures FabricOk(s')
  {
    forall k ensures IfcPair(s', k) == IfcPair(s, k) {
    }
    forall p | p in s'.fabric ensures exists k :: IfcPair(s', k) == Some(p) {
      var k :| IfcPair(s, k) == Some(p);
      assert IfcPair(s', k) == Some(p);
    }
  }

  lemma DropIfcFabric(s: State, k: Key)
    requires FabricOk(s) && !(k in s.locals && k in s.remotes)
    ensures FabricOk(DropIfc(s, k))
  {
    var s' := DropIfc(s, k);
    assert IfcPair(s', k) == None;
    assert forall k' :: k' != k ==> IfcPair(s', k') == IfcPair(s, k');
    forall k' | IfcPair(s', k').Some? ensures IfcPair(s', k').value in s'.fabric {
      assert k' != k && IfcPair(s, k') != IfcPair(s, k);
    }
    forall p | p in s'.fabric ensures exists k' :: IfcPair(s', k') == Some(p) {
      var k' :| IfcPair(s, k') == Some(p);
      assert IfcPair(s', k') == Some(p);
    }
  }

  /** One more attachment has an interface, with a pair nobody has. */
  lemma NewIfcFabric(s: State, s': State, k: Key, p: (Vni, Ip))
    requires FabricOk(s) && IfcPair(s, k) == None && p !in s.fabric
    requires s'.fabric == s.fabric + {p} && IfcPair(s', k) == Some(p)
    requires forall k' :: k' != k ==> IfcPair(s', k') == IfcPair(s, k')
    ensures FabricOk(s')
  {
    hide IfcPair;
    forall q | q in s'.fabric ensures exists k' :: IfcPair(s', k') == Some(q) {
      if q != p {
        var k' :| IfcPair(s, k') == Some(q);
        assert IfcPair(s', k') == Some(q);
      }
    }
  }

  lemma CreateIfcFabric(c: Config, s: State, k: Key, att: Att)
    requires FabricOk(s) && k !in s.locals && k !in s.remotes && (att.vni, att.ip) !in s.fabric
    ensures FabricOk(CreateIfc(c, s, k, att))
  {
    hide HostOf, MacOf, FabricOk;
    NewIfcFabric(s, CreateIfc(c, s, k, att), k, (att.vni, att.ip));
  }

  lemma DropOrFabric(s: State, k: Key, fails: bool, next: Pc)
    requires FabricOk(s) && !(k in s.locals && k in s.remotes)
    ensures FabricOk(DropOr(s, k, fails, next))
  {
    hide FabricOk, DropIfc;
    DropIfcFabric(s, k);
    SameIfcs(DropIfc(s, k), At(DropIfc(s, k), k, next));
    SameIfcs(s, At(s, k, Leaving(true, None)));
  }

  lemma CreateOrFabric(c: Config, s: State, k: Key, att: Att, fails: bool)
    requires FabricOk(s) && k !in s.locals && k !in s.remotes
    requires !fails ==> (att.vni, att.ip) !in s.fabric
    ensures FabricOk(CreateOr(c, s, k, att, fails))
  {
    hide FabricOk, CreateIfc;
    if fails {
      SameIfcs(s, At(s, k, Leaving(true, None)));
    } else {
      CreateIfcFabric(c, s, k, att);
      SameIfcs(CreateIfc(c, s, k, att), At(CreateIfc(c, s, k, att), k, Completed(att)));
    }
  }

  lemma DepartIfcs(s: State, k: Key, v: Vni, after: After)
    ensures Depart(s, k, v, after).locals == s.locals && Depart(s, k, v, after).remotes == s.remotes
    ensures Depart(s, k, v, after).fabric == s.fabric
  {
    hide Resume;
  }

  lemma JoinIfcs(s: State, k: Key, att: Att)
    ensures Join(s, k, att).locals == s.locals && Join(s, k, att).remotes == s.remotes
    ensures Join(s, k, att).fabric == s.fabric
  {
  }

  ghost predicate SameIfcRecords(s: State, s': State) {
    s'.locals == s.locals && s'.remotes == s.remotes && s'.fabric == s.fabric
  }

  lemma AtIfcs(s: State, k: Key, pc: Pc)
    ensures SameIfcRecords(s, At(s, k, pc))
  {
  }

  lemma SeenIfcs(s: State, k: Key, v: Vni, j: Key, pc: Pc)
    ensures SameIfcRecords(s, At(RemoveSeen(s, k, v), j, pc))
  {
    hide SeenIn;
    RemoveSeenFrame(s, k, v);
  }

  lemma WorkIfcs(c: Config, s: State, k: Key, ch: Choice)
    requires k in s.working && (!HandlesIfc(s.working[k]) || s.working[k].Reporting?)
    ensures SameIfcRecords(s, WorkStep(c, s, k, ch))
  {
    hide Depart, Join, RemoveSeen, SeenIn, Resume, Classify, Completed, NeedsNewIfc, DropOr, CreateOr, At;
    match s.working[k]
    case Starting =>
      AtIfcs(s, k, if |SeenIn(s, k)| > 1 then Leaving(false, None)
                   else if |SeenIn(s, k)| == 1 then FindingLister(ch.vni) else LookingUp(None));
    case FindingLister(v) => AtIfcs(s, k, LookingUp(if v in s.vnStates then Some(v) else None));
    case LookingUp(lister) =>
      match Classify(ch.asLocal, ch.asRemote) {
        case Existing(att) => AtIfcs(s, k, Arriving(att));
        case Deleted => AtIfcs(s, k, Departing);
      }
    case Arriving(att) =>
      if k in s.vnStateVni {
        DepartIfcs(s, k, s.vnStateVni[k], Rejoin(att));
      }
      AtIfcs(s, k, Joining(att));
    case Joining(att) => JoinIfcs(s, k, att);
    case Departing =>
      if k in s.vnStateVni {
        DepartIfcs(s, k, s.vnStateVni[k], DropIfcs);
      }
      AtIfcs(s, k, DroppingIfc);
    case Strayed(att) => SeenIfcs(s, k, att.vni, k, Departing);
    case Requeueing(todo, v, after) =>
      SeenIfcs(s, ch.pick, v, k, RequeueAdd(ch.pick, todo - {ch.pick}, v, after));
      AtIfcs(s, k, Resume(after));
    case ClosingChannel(vs, v, after) =>
      AtIfcs(s.(closed := s.closed + {vs.id}), k, Requeueing(vs.remoteAtts, v, after));
    case RequeueAdd(r, todo, v, after) => AtIfcs(s.(dirty := s.dirty + {r}), k, Requeueing(todo, v, after));
    case Reporting(att) => AtIfcs(s, k, if ch.fails then Leaving(true, None) else Leaving(false, Some(att)));
    case Leaving(failed, done) =>
  }

  lemma StepKeepsFabric(c: Config, s: State, a: Action)
    requires Inv(c, s) && FabricOk(s) && Enabled(c, s, a)
    ensures FabricOk(Apply(c, s, a))
  {
    hide Inv, FabricOk, WorkStep, DropOr, CreateOr;
    InvParts(c, s, a.k);
    if a.Work? {
      WorkFabric(c, s, a.k, a.ch);
    } else {
      SameIfcs(s, Apply(c, s, a));
    }
  }

  lemma WorkFabric(c: Config, s: State, k: Key, ch: Choice)
    requires KeyOk(c, s, k) && FabricOk(s) && k in s.working && WorkEnabled(c, s, k, ch)
    ensures FabricOk(WorkStep(c, s, k, ch))
  {
    hide FabricOk, DropOr, CreateOr, Depart, Join, Pending, Member, RecordOk, NeedsNewIfc, At;
    match s.working[k]
    case DroppingIfc => DropOrFabric(s, k, ch.fails, Leaving(false, None));
    case Implementing(att) =>
      DropOrFabric(s, k, ch.fails, Creating(att));
      AtSameIfcs(s, k, Completed(att));
    case Creating(att) => CreateOrFabric(c, s, k, att, ch.fails);
    case _ =>
      WorkIfcs(c, s, k, ch);
      SameIfcs(s, WorkStep(c, s, k, ch));
  }

  lemma AtSameIfcs(s: State, k: Key, pc: Pc)
    requires FabricOk(s)
    ensures FabricOk(At(s, k, pc))
  {
    hide FabricOk;
    SameIfcs(s, At(s, k, pc));
  }

  // ---- Stop channels ----

  predicate Live(s: State, v: Vni, id: int) {
    v in s.vnStates && s.vnStates[v].id == id
  }

  /** Worker `j` took the vnState out of the map and has yet to close its channel. */
  predicate Held(s: State, j: Key, id: int) {
    j in s.working && s.working[j].ClosingChannel? && s.working[j].vs.id == id
  }

  /** Every channel made is closed, or that of one live vnState, or held by one worker: one of the three. */
  ghost predicate ChannelsOk(s: State) {
    && (forall id :: id in s.closed ==> 0 <= id < s.nextId)
    && (forall v, id :: Live(s, v, id) ==> id < s.nextId && id !in s.closed)
    && (forall j, id :: Held(s, j, id) ==> id < s.nextId && id !in s.closed)
    && (forall v, j, id :: Live(s, v, id) && Held(s, j, id) ==> false)
    && (forall v, v', id :: Live(s, v, id) && Live(s, v', id) ==> v == v')
    && (forall j, j', id :: Held(s, j, id) && Held(s, j', id) ==> j == j')
    && (forall id :: 0 <= id < s.nextId ==>
            id in s.closed || (exists v :: Live(s, v, id)) || (exists j :: Held(s, j, id)))
  }

  ghost predicate SameChannels(s: State, s': State) {
    && s'.closed == s.closed && s'.nextId == s.nextId
    && (forall v, id :: Live(s', v, id) <==> Live(s, v, id))
    && (forall j, id :: Held(s', j, id) <==> Held(s, j, id))
  }

  /** Worker `k` took the vnState of `v` out of the map. */
  ghost predicate Taken(s: State, s': State, k: Key, v: Vni, i: int) {
    && s'.closed == s.closed && s'.nextId == s.nextId && Live(s, v, i)
    && (forall id :: !Held(s, k, id))
    && (forall w, id :: Live(s', w, id) <==> Live(s, w, id) && w != v)
    && (forall j, id :: Held(s', j, id) <==> Held(s, j, id) || (j == k && id == i))
  }

  lemma SameChannelsOk(s: State, s': State)
    requires ChannelsOk(s) && SameChannels(s, s')
    ensures ChannelsOk(s')
  {
    hide Live, Held;
    forall id | 0 <= id < s'.nextId && id !in s'.closed
      ensures (exists v :: Live(s', v, id)) || (exists j :: Held(s', j, id))
    {
      if v :| Live(s, v, id) {
        assert Live(s', v, id);
      } else {
        var j :| Held(s, j, id);
        assert Held(s', j, id);
      }
    }
  }

  lemma TakenChannelsOk(s: State, s': State, k: Key, v: Vni, i: int)
    requires ChannelsOk(s) && Taken(s, s', k, v, i)
    ensures ChannelsOk(s')
  {
    hide Live, Held;
    assert Held(s', k, i);
    forall id | 0 <= id < s'.nextId && id !in s'.closed
      ensures (exists w :: Live(s', w, id)) || (exists j :: Held(s', j, id))
    {
      if w :| Live(s, w, id) {
        assert w == v ==> Live(s, v, i) && Live(s, v, id);
        LiveOnce(s, v, id, i);
        assert w != v ==> Live(s', w, id);
      } else {
        var j :| Held(s, j, id);
        assert Held(s', j, id);
      }
    }
  }

  lemma LiveOnce(s: State, v: Vni, id: int, i: int)
    ensures Live(s, v, id) && Live(s, v, i) ==> id == i
  {
  }

  lemma DepartChannels(s: State, k: Key, v: Vni, after: After)
    requires k in s.working && !s.working[k].ClosingChannel?
    requires ChannelsOk(s)
    ensures ChannelsOk(Depart(s, k, v, after))
  {
    hide ChannelsOk, Taken, SameChannels;
    var s' := Depart(s, k, v, after);
    DepartTakes(s, k, v, after);
    if s'.working[k].ClosingChannel? {
      TakenChannelsOk(s, s', k, v, s.vnStates[v].id);
    } else {
      SameChannelsOk(s, s');
    }
  }

  lemma DepartTakes(s: State, k: Key, v: Vni, after: After)
    requires k in s.working && !s.working[k].ClosingChannel?
    ensures Depart(s, k, v, after).working[k].ClosingChannel?
            ==> v in s.vnStates && Taken(s, Depart(s, k, v, after), k, v, s.vnStates[v].id)
    ensures !Depart(s, k, v, after).working[k].ClosingChannel? ==> SameChannels(s, Depart(s, k, v, after))
  {
  }

  lemma JoinChannels(s: State, k: Key, att: Att)
    requires k in s.working && !s.working[k].ClosingChannel?
    requires ChannelsOk(s)
    ensures ChannelsOk(Join(s, k, att))
  {
    hide ChannelsOk;
    var s' := Join(s, k, att);
    if s'.working[k].ClosingChannel? {
      TakenChannelsOk(s, s', k, att.vni, s.vnStates[att.vni].id);
    } else if s'.nextId == s.nextId {
      SameChannelsOk(s, s');
    } else {
      assert forall v, id :: Live(s', v, id) <==> Live(s, v, id) || (v == att.vni && id == s.nextId);
      assert forall j, id :: Held(s', j, id) <==> Held(s, j, id);
      MadeChannelsOk(s, s', att.vni);
    }
  }

  lemma MadeChannelsOk(s: State, s': State, v: Vni)
    requires ChannelsOk(s) && v !in s.vnStates
    requires s'.nextId == s.nextId + 1 && s'.closed == s.closed
    requires forall w, id :: Live(s', w, id) <==> Live(s, w, id) || (w == v && id == s.nextId)
    requires forall j, id :: Held(s', j, id) <==> Held(s, j, id)
    ensures ChannelsOk(s')
  {
    hide Live, Held;
    forall id | 0 <= id < s'.nextId && id !in s'.closed
      ensures (exists w :: Live(s', w, id)) || (exists j :: Held(s', j, id))
    {
      if id == s.nextId {
        assert Live(s', v, id);
      } else if w :| Live(s, w, id) {
        assert Live(s', w, id);
      } else {
        var j :| Held(s, j, id);
        assert Held(s', j, id);
      }
    }
  }

  /** The channel a worker is about to close is open, and nobody else is about to close it. */
  lemma CloseChannels(c: Config, s: State, k: Key, ch: Choice)
    requires ChannelsOk(s) && k in s.working && s.working[k].ClosingChannel?
    ensures s.working[k].vs.id !in s.closed
    ensures ChannelsOk(WorkStep(c, s, k, ch))
  {
    var i, s' := s.working[k].vs.id, WorkStep(c, s, k, ch);
    assert Held(s, k, i);
    assert forall v, id :: Live(s', v, id) <==> Live(s, v, id);
    assert forall j, id :: Held(s', j, id) <==> Held(s, j, id) && j != k;
    ClosedChannelsOk(s, s', k, i);
  }

  lemma ClosedChannelsOk(s: State, s': State, k: Key, i: int)
    requires ChannelsOk(s) && Held(s, k, i)
    requires s'.nextId == s.nextId && s'.closed == s.closed + {s.working[k].vs.id}
    requires forall v, id :: Live(s', v, id) <==> Live(s, v, id)
    requires forall j, id :: Held(s', j, id) <==> Held(s, j, id) && j != k
    ensures ChannelsOk(s')
  {
    assert s.working[k].vs.id == i;
    hide Live, Held;
    forall id | 0 <= id < s'.nextId && id !in s'.closed
      ensures (exists w :: Live(s', w, id)) || (exists j :: Held(s', j, id))
    {
      if w :| Live(s, w, id) {
        assert Live(s', w, id);
      } else {
        var j :| Held(s, j, id);
        HeldOnce(s, k, id, i);
        assert Held(s', j, id);
      }
    }
  }

  lemma HeldOnce(s: State, k: Key, id: int, i: int)
    ensures Held(s, k, id) && Held(s, k, i) ==> id == i
  {
  }

  /** Steps of a worker elsewhere leave vnStates and channels alone. */
  predicate ElsewhereThanVnStates(s: State, k: Key)
    requires k in s.working
  {
    match s.working[k]
    case Arriving(att) => !(k in s.vnStateVni && s.vnStateVni[k] != att.vni)
    case Joining(att) => false
    case ClosingChannel(vs, v, after) => false
    case Departing => k !in s.vnStateVni
    case _ => true
  }

  /** vnStates and channels are as before, and worker `k` is not about to close one. */
  ghost predicate AwayFromChannels(s: State, s': State, k: Key) {
    && s'.vnStates == s.vnStates && s'.closed == s.closed && s'.nextId == s.nextId
    && SameElsewhere(k, s.working, s'.working)
    && (k in s'.working ==> !s'.working[k].ClosingChannel?)
  }

  lemma AwayIsSame(s: State, s': State, k: Key)
    requires AwayFromChannels(s, s', k) && k in s.working && !s.working[k].ClosingChannel?
    ensures SameChannels(s, s')
  {
  }

  lemma ElsewhereFrame(c: Config, s: State, k: Key, ch: Choice)
    requires k in s.working && ElsewhereThanVnStates(s, k)
    ensures AwayFromChannels(s, WorkStep(c, s, k, ch), k)
  {
    hide WorkStep, AwayFromChannels, ElsewhereThanVnStates;
    if HandlesIfc(s.working[k]) {
      IfcStepElsewhere(c, s, k, ch);
    } else {
      OtherStepElsewhere(c, s, k, ch);
    }
  }

  lemma IfcStepElsewhere(c: Config, s: State, k: Key, ch: Choice)
    requires k in s.working && HandlesIfc(s.working[k])
    ensures AwayFromChannels(s, WorkStep(c, s, k, ch), k)
  {
    hide AwayFromChannels, DropOr, CreateOr, NeedsNewIfc, At, Completed;
    match s.working[k]
    case DroppingIfc => DropChannels(s, k, ch.fails, Leaving(false, None));
    case Implementing(att) =>
      DropChannels(s, k, ch.fails, Creating(att));
      AtElsewhere(s, k, Completed(att));
      CompletesElsewhere(att);
    case Creating(att) => CreateChannels(c, s, k, att, ch.fails);
    case Reporting(att) => AtElsewhere(s, k, if ch.fails then Leaving(true, None) else Leaving(false, Some(att)));
  }

  lemma AtElsewhere(s: State, k: Key, pc: Pc)
    ensures !pc.ClosingChannel? ==> AwayFromChannels(s, At(s, k, pc), k)
  {
  }

  lemma CompletesElsewhere(att: Att)
    ensures !Completed(att).ClosingChannel?
  {
  }

  lemma OtherStepElsewhere(c: Config, s: State, k: Key, ch: Choice)
    requires k in s.working && ElsewhereThanVnStates(s, k) && !HandlesIfc(s.working[k])
    ensures AwayFromChannels(s, WorkStep(c, s, k, ch), k)
  {
    hide Depart, Join, RemoveSeen, SeenIn, Classify, Resume, DropOr, CreateOr, At, AwayFromChannels;
    match s.working[k]
    case Starting =>
      AtElsewhere(s, k, if |SeenIn(s, k)| > 1 then Leaving(false, None)
                        else if |SeenIn(s, k)| == 1 then FindingLister(ch.vni) else LookingUp(None));
    case FindingLister(v) => AtElsewhere(s, k, LookingUp(if v in s.vnStates then Some(v) else None));
    case LookingUp(lister) =>
      match Classify(ch.asLocal, ch.asRemote) {
        case Existing(att) => AtElsewhere(s, k, Arriving(att));
        case Deleted => AtElsewhere(s, k, Departing);
      }
    case Arriving(att) => AtElsewhere(s, k, Joining(att));
    case Departing => AtElsewhere(s, k, DroppingIfc);
    case Strayed(att) => SeenElsewhere(s, k, att.vni, k, Departing);
    case Requeueing(todo, v, after) =>
      SeenElsewhere(s, ch.pick, v, k, RequeueAdd(ch.pick, todo - {ch.pick}, v, after));
      AtElsewhere(s, k, Resume(after));
      ResumesElsewhere(after);
    case RequeueAdd(r, todo, v, after) => AddElsewhere(s, r, k, Requeueing(todo, v, after));
    case Leaving(failed, done) => LeaveElsewhere(c, s, k, ch);
  }

  lemma SeenElsewhere(s: State, j: Key, v: Vni, k: Key, pc: Pc)
    ensures !pc.ClosingChannel? ==> AwayFromChannels(s, At(RemoveSeen(s, j, v), k, pc), k)
  {
    hide SeenIn;
  }

  lemma AddElsewhere(s: State, r: Key, k: Key, pc: Pc)
    ensures !pc.ClosingChannel? ==> AwayFromChannels(s, At(s.(dirty := s.dirty + {r}), k, pc), k)
  {
  }

  lemma LeaveElsewhere(c: Config, s: State, k: Key, ch: Choice)
    requires k in s.working && s.working[k].Leaving?
    ensures AwayFromChannels(s, WorkStep(c, s, k, ch), k)
  {
  }

  lemma ResumesElsewhere(after: After)
    ensures !Resume(after).ClosingChannel?
  {
  }

  lemma DropChannels(s: State, k: Key, fails: bool, next: Pc)
    requires k in s.working && !next.ClosingChannel?
    ensures AwayFromChannels(s, DropOr(s, k, fails, next), k)
  {
  }

  lemma CreateChannels(c: Config, s: State, k: Key, att: Att, fails: bool)
    requires k in s.working
    ensures AwayFromChannels(s, CreateOr(c, s, k, att, fails), k)
  {
    hide CreateIfc, At, Completed, AwayFromChannels;
    AtElsewhere(s, k, Leaving(true, None));
    CompletesElsewhere(att);
    CreatesElsewhere(c, s, k, att, Completed(att));
  }

  lemma CreatesElsewhere(c: Config, s: State, k: Key, att: Att, pc: Pc)
    requires !pc.ClosingChannel?
    ensures AwayFromChannels(s, At(CreateIfc(c, s, k, att), k, pc), k)
  {
    hide HostOf, MacOf;
  }

  lemma EnvironmentChannels(c: Config, s: State, a: Action)
    requires Enabled(c, s, a) && !a.Work?
    ensures SameChannels(s, Apply(c, s, a))
  {
    hide WorkStep, WorkEnabled, SeenIn;
  }

  lemma StepKeepsChannels(c: Config, s: State, a: Action)
    requires ChannelsOk(s) && Enabled(c, s, a)
    ensures ChannelsOk(Apply(c, s, a))
  {
    hide ChannelsOk, WorkStep, WorkEnabled, SameChannels;
    if a.Work? {
      WorkChannels(c, s, a.k, a.ch);
    } else {
      EnvironmentChannels(c, s, a);
      SameChannelsOk(s, Apply(c, s, a));
    }
  }

  lemma WorkChannels(c: Config, s: State, k: Key, ch: Choice)
    requires ChannelsOk(s) && k in s.working
    ensures ChannelsOk(WorkStep(c, s, k, ch))
  {
    hide ChannelsOk, Depart, Join, Live, Held;
    if ElsewhereThanVnStates(s, k) {
      ElsewhereChannels(c, s, k, ch);
    } else {
      match s.working[k]
      case Arriving(att) => DepartChannels(s, k, s.vnStateVni[k], Rejoin(att));
      case Joining(att) => JoinChannels(s, k, att);
      case ClosingChannel(vs, v, after) => CloseChannels(c, s, k, ch);
      case Departing => DepartChannels(s, k, s.vnStateVni[k], DropIfcs);
      case _ =>
    }
  }

  lemma ElsewhereChannels(c: Config, s: State, k: Key, ch: Choice)
    requires ChannelsOk(s) && k in s.working && ElsewhereThanVnStates(s, k)
    ensures ChannelsOk(WorkStep(c, s, k, ch))
  {
    hide ChannelsOk, WorkStep, SameChannels, AwayFromChannels;
    ElsewhereFrame(c, s, k, ch);
    AwayIsSame(s, WorkStep(c, s, k, ch), k);
    SameChannelsOk(s, WorkStep(c, s, k, ch));
  }

  // ---- Over every run ----

  ghost predicate AllOk(c: Config, s: State) {
    Inv(c, s) && FabricOk(s) && ChannelsOk(s)
  }

  lemma InitIsOk(c: Config)
    ensures AllOk(c, INIT)
  {
  }

  lemma StepKeepsAll(c: Config, s: State, a: Action)
    requires AllOk(c, s) && Enabled(c, s, a)
    ensures AllOk(c, Apply(c, s, a))
  {
    hide Inv, FabricOk, ChannelsOk, Apply;
    StepKeepsFabric(c, s, a);
    StepKeepsChannels(c, s, a);
    if a.Work? {
      WorkIsApply(c, s, a);
      WorkKeepsInv(c, s, a.k, a.ch);
    } else {
      EnvironmentStep(c, s, a);
    }
  }

  lemma WorkIsApply(c: Config, s: State, a: Action)
    requires Enabled(c, s, a) && a.Work?
    ensures a.k in s.working && WorkEnabled(c, s, a.k, a.ch)
    ensures Apply(c, s, a) == WorkStep(c, s, a.k, a.ch)
  {
    hide WorkStep, WorkEnabled;
  }

  lemma {:induction false} RunsAreOk(c: Config, run: seq<State>, i: nat)
    requires IsRun(c, run) && i < |run|
    ensures AllOk(c, run[i])
  {
    hide AllOk, Apply, Enabled;
    if i == 0 {
      InitIsOk(c);
    } else {
      RunsAreOk(c, run, i - 1);
      assert Follows(c, run[i - 1], run[i]);
      var a :| Enabled(c, run[i - 1], a) && run[i] == Apply(c, run[i - 1], a);
      StepKeepsAll(c, run[i - 1], a);
    }
  }

  /** Nobody is working on `k` and nobody is going to. */
  ghost predicate Settled(s: State, k: Key) {
    k !in s.working && !Pending(s, k)
  }

  /**
   No orphan interfaces.  In every reachable state an attachment that is settled and seen in at most
   one VNI is a member of the live vnState of its interface's VNI, and that vnState has a local
   attachment: a remote interface never outlives the last local attachment of its network.
   */
  lemma NoOrphanInterfaces(c: Config, run: seq<State>, i: nat, k: Key)
    requires IsRun(c, run) && i < |run|
    requires Settled(run[i], k) && |SeenIn(run[i], k)| <= 1
    ensures k in run[i].locals ==> Member(run[i], k, run[i].locals[k].vni, true)
    ensures k in run[i].remotes ==>
              && Member(run[i], k, run[i].remotes[k].vni, false)
              && exists l :: Member(run[i], l, run[i].remotes[k].vni, true)
  {
    var s := run[i];
    RunsAreOk(c, run, i);
    InvParts(c, s, k);
    if k in s.remotes {
      var v := s.remotes[k].vni;
      assert Member(s, k, v, false);
      var l :| l in s.vnStates[v].localAtts;
      assert Member(s, l, v, true);
    }
  }

  /**
   A VNI has a vnState exactly while it has a local attachment, no attachment is local and remote
   in one, and an attachment is in at most one, the one its entry names.
   */
  lemma VnStatesAreConsistent(c: Config, run: seq<State>, i: nat, v: Vni, w: Vni, k: Key)
    requires IsRun(c, run) && i < |run|
    ensures v in run[i].vnStates <==> exists l :: Member(run[i], l, v, true)
    ensures !(Member(run[i], k, v, true) && Member(run[i], k, v, false))
    ensures (Member(run[i], k, v, true) || Member(run[i], k, v, false))
            && (Member(run[i], k, w, true) || Member(run[i], k, w, false))
            ==> v == w && k in run[i].vnStateVni && run[i].vnStateVni[k] == v
  {
    var s := run[i];
    RunsAreOk(c, run, i);
    if v in s.vnStates {
      var l :| l in s.vnStates[v].localAtts;
      assert Member(s, l, v, true);
    }
  }

  /**
   Each stop channel is closed once: a worker about to close one finds it open and no longer in the
   map, no other worker is about to close it, and once nobody is working the closed channels are
   exactly those of the vnStates that were removed.
   */
  lemma StopChannelsCloseOnce(c: Config, run: seq<State>, i: nat, k: Key)
    requires IsRun(c, run) && i < |run|
    ensures k in run[i].working && run[i].working[k].ClosingChannel? ==>
              && run[i].working[k].vs.id !in run[i].closed
              && (forall v :: !Live(run[i], v, run[i].working[k].vs.id))
              && (forall j :: Held(run[i], j, run[i].working[k].vs.id) ==> j == k)
    ensures run[i].working == map[] ==>
              forall id :: 0 <= id < run[i].nextId ==> (id in run[i].closed <==> forall v :: !Live(run[i], v, id))
  {
    var s := run[i];
    RunsAreOk(c, run, i);
    if k in s.working && s.working[k].ClosingChannel? {
      assert Held(s, k, s.working[k].vs.id);
    }
  }

  /** No two attachments ever have interfaces with the same VNI and guest address, and none is lost. */
  lemma FabricMatchesRecords(c: Config, run: seq<State>, i: nat, p: (Vni, Ip))
    requires IsRun(c, run) && i < |run|
    ensures p in run[i].fabric <==> exists k :: IfcPair(run[i], k) == Some(p)
    ensures forall k, k' :: IfcPair(run[i], k) == Some(p) && IfcPair(run[i], k') == Some(p) ==> k == k'
    ensures forall k :: !(k in run[i].locals && k in run[i].remotes)
  {
    RunsAreOk(c, run, i);
    forall k ensures !(k in run[i].locals && k in run[i].remotes) {
      InvParts(c, run[i], k);
    }
  }

  /** The guest address recorded for the interface of `k`. */
  function GuestIp(s: State, k: Key): Ip
    requires k in s.locals || k in s.remotes
  {
    if k in s.locals then s.locals[k].ip else s.remotes[k].ip
  }

  /**
   Convergence.  A worker that got through processExistingAtt leaves its attachment with exactly one
   interface, of the attachment's kind, VNI and host.  The guest address can differ only where the
   MAC address cannot tell, and on private addresses it never does.
   */
  lemma PassConverges(c: Config, run: seq<State>, i: nat, k: Key, att: Att)
    requires IsRun(c, run) && i < |run|
    requires k in run[i].working && run[i].working[k] == Leaving(false, Some(att))
    ensures Matches(c, run[i], k, att)
    ensures GuestIp(run[i], k) % 0x100_0000 == att.ip % 0x100_0000 && KeptBit(GuestIp(run[i], k)) == KeptBit(att.ip)
    ensures c.privateOnly ==> GuestIp(run[i], k) == att.ip
  {
    hide GenerateMacAddr, KeptBit, IsPrivate;
    var s := run[i];
    RunsAreOk(c, run, i);
    InvParts(c, s, k);
    var vni := if k in s.locals then s.locals[k].vni else s.remotes[k].vni;
    MacCollision(vni, GuestIp(s, k), att.vni, att.ip);
    if c.privateOnly {
      MacIsInjectiveOnPrivate(vni, GuestIp(s, k), att.vni, att.ip);
    }
  }

  /**
   Exactly when an interface is left alone although the attachment's guest address changed: kind,
   host and VNI are unchanged, and the two addresses agree where the MAC address looks.
   */
  lemma UpdateIsMissedIff(c: Config, s: State, k: Key, att: Att)
    requires IfcOk(c, s, k) && Selected(c, att) && (k in s.locals || k in s.remotes)
    requires GuestIp(s, k) != att.ip
    ensures !NeedsNewIfc(c, s, k, att) <==>
            && (k in s.locals <==> att.onThisNode)
            && (k in s.locals ==> s.locals[k].vni == att.vni)
            && (k in s.remotes ==> s.remotes[k].vni == att.vni && s.remotes[k].hostIP == att.hostIP)
            && GuestIp(s, k) % 0x100_0000 == att.ip % 0x100_0000
            && KeptBit(GuestIp(s, k)) == KeptBit(att.ip)
  {
    hide GenerateMacAddr, KeptBit, IsPrivate;
    var vni := if k in s.locals then s.locals[k].vni else s.remotes[k].vni;
    MacCollision(vni, GuestIp(s, k), att.vni, att.ip);
  }

  /** Such an update exists: from 8.0.0.1 to 9.0.0.1 on this node. */
  lemma MissedUpdateExample(c: Config, s: State, k: Key)
    requires !c.privateOnly && IfcOk(c, s, k)
    requires k in s.locals && s.locals[k].vni == 5 && s.locals[k].ip == 0x0800_0001
    ensures Selected(c, Att(5, true, 0, 0x0900_0001)) && !NeedsNewIfc(c, s, k, Att(5, true, 0, 0x0900_0001))
  {
    hide GenerateMacAddr, KeptBit;
    MacCollisionExample(5);
  }
}
