/** Every step of the connection agent keeps the invariant, one lemma for each kind of step. */
module AgentSteps {
  import opened Options
  import opened MacAddresses
  import opened AgentMachine
  import opened AgentInvariant

  // ---- Informer handlers and the queue ----

  lemma EnvironmentStep(c: Config, s: State, a: Action)
    requires Inv(c, s) && Enabled(c, s, a) && !a.Work?
    ensures Inv(c, Apply(c, s, a))
  {
    hide Inv, KeyOk, Undisturbed, VnStatesOk, Apply;
    var s' := Apply(c, s, a);
    InvParts(c, s, a.k);
    EnvironmentFrame(c, s, a);
    SameVnStates(s, s');
    forall k ensures KeyOk(c, s', k) {
      InvParts(c, s, k);
      if a.Get? && k == a.k {
        GetKeyOk(c, s, k);
      } else {
        EnvironmentUndisturbed(c, s, a, k);
        UndisturbedKeeps(c, s, s', k);
      }
    }
    InvFrom(c, s');
  }

  lemma EnvironmentFrame(c: Config, s: State, a: Action)
    requires Enabled(c, s, a) && !a.Work?
    ensures Apply(c, s, a).vnStates == s.vnStates && Apply(c, s, a).vnStateVni == s.vnStateVni
    ensures Apply(c, s, a).locals == s.locals && Apply(c, s, a).remotes == s.remotes
    ensures !a.Get? ==> Apply(c, s, a).working == s.working
    ensures a.Get? ==> Apply(c, s, a).working == s.working[a.k := Starting]
    ensures !a.RemoteAdded? && !a.RemoteRemoved? ==> Apply(c, s, a).seen == s.seen
  {
  }

  lemma SameVnStates(s: State, s': State)
    requires VnStatesOk(s) && s'.vnStates == s.vnStates && s'.vnStateVni == s.vnStateVni
    ensures VnStatesOk(s')
  {
    forall k, v, l | Member(s', k, v, l) ensures k in s'.vnStateVni && s'.vnStateVni[k] == v {
      SameMember(s, s', k, v, l);
    }
  }

  lemma GetKeyOk(c: Config, s: State, k: Key)
    requires KeyOk(c, s, k) && Enabled(c, s, Get(k))
    ensures KeyOk(c, Apply(c, s, Get(k)), k)
  {
  }

  lemma SameMember(s: State, s': State, k: Key, v: Vni, l: bool)
    requires s'.vnStates == s.vnStates
    ensures Member(s', k, v, l) <==> Member(s, k, v, l)
  {
  }

  /** Workers keep what they owe: the step of another party changes no worker but a starting one. */
  lemma EnvironmentPending(c: Config, s: State, a: Action, k: Key)
    requires Enabled(c, s, a) && !a.Work? && !(a.Get? && k == a.k)
    ensures Pending(s, k) ==> Pending(Apply(c, s, a), k)
    ensures (a.RemoteAdded? || a.RemoteRemoved?) && k == a.k ==> Pending(Apply(c, s, a), k)
  {
    hide AddSeen, RemoveSeen;
    var s' := Apply(c, s, a);
    EnvironmentFrame(c, s, a);
    EnvironmentQueues(c, s, a, k);
    if OwedByWorker(s, k) {
      var i :| i in s.working && k in Owed(s.working[i]);
      assert i in s'.working && k in Owed(s'.working[i]);
    }
  }

  lemma EnvironmentQueues(c: Config, s: State, a: Action, k: Key)
    requires Enabled(c, s, a) && !a.Work? && !(a.Get? && k == a.k)
    ensures k in s.dirty || k in s.backoff || k in s.owing
            ==> k in Apply(c, s, a).dirty || k in Apply(c, s, a).backoff || k in Apply(c, s, a).owing
    ensures (a.RemoteAdded? || a.RemoteRemoved?) && k == a.k ==> k in Apply(c, s, a).owing
  {
  }

  lemma EnvironmentSeen(c: Config, s: State, a: Action, k: Key)
    requires Enabled(c, s, a) && !a.Work? && k != a.k
    ensures SeenIn(Apply(c, s, a), k) == SeenIn(s, k)
  {
  }

  lemma EnvironmentUndisturbed(c: Config, s: State, a: Action, k: Key)
    requires Enabled(c, s, a) && !a.Work? && !(a.Get? && k == a.k)
    ensures Undisturbed(s, Apply(c, s, a), k)
  {
    hide Pending, Apply, Member;
    var s' := Apply(c, s, a);
    EnvironmentFrame(c, s, a);
    EnvironmentPending(c, s, a, k);
    if k != a.k {
      EnvironmentSeen(c, s, a, k);
    }
    forall v, l ensures Member(s', k, v, l) <==> Member(s, k, v, l) {
      SameMember(s, s', k, v, l);
    }
  }

  // ---- A worker's own steps ----

  /** A step that only moves the worker on. */
  lemma Moved(c: Config, s: State, k: Key, pc: Pc)
    requires Inv(c, s) && k in s.working && Owed(s.working[k]) == {}
    requires PcOk(c, At(s, k, pc), k, pc)
    ensures Inv(c, At(s, k, pc))
  {
    var s' := At(s, k, pc);
    InvParts(c, s, k);
    PrivateStep(c, s, s', k);
  }

  /** Where a worker only handles the interface of its attachment. */
  predicate HandlesIfc(pc: Pc) {
    pc.DroppingIfc? || pc.Implementing? || pc.Creating? || pc.Reporting?
  }

  /** The frame of a step that handles only the interface of its attachment. */
  ghost predicate IfcFrame(k: Key, s: State, s': State) {
    OnlyBy(k, s, s') && s'.vnStates == s.vnStates && s'.vnStateVni == s.vnStateVni && s'.seen == s.seen
  }

  lemma AtFrame(s: State, k: Key, pc: Pc)
    ensures IfcFrame(k, s, At(s, k, pc))
  {
  }

  lemma DropFrame(s: State, k: Key, fails: bool, next: Pc)
    ensures IfcFrame(k, s, DropOr(s, k, fails, next))
  {
    hide SeenIn;
    AtFrame(s, k, Leaving(true, None));
    assert IfcFrame(k, s, DropIfc(s, k));
    AtFrame(DropIfc(s, k), k, next);
  }

  lemma CreateFrame(c: Config, s: State, k: Key, att: Att, fails: bool)
    ensures IfcFrame(k, s, CreateOr(c, s, k, att, fails))
  {
    hide CreateIfc, At, Completed, IfcFrame;
    CreateIfcFrame(c, s, k, att);
    AtAfterFrame(s, CreateIfc(c, s, k, att), k, Completed(att));
    AtFrame(s, k, Leaving(true, None));
  }

  lemma CreateIfcFrame(c: Config, s: State, k: Key, att: Att)
    ensures IfcFrame(k, s, CreateIfc(c, s, k, att))
  {
    hide HostOf, MacOf;
  }

  lemma AtAfterFrame(s: State, s1: State, k: Key, pc: Pc)
    requires IfcFrame(k, s, s1)
    ensures IfcFrame(k, s, At(s1, k, pc))
  {
  }

  lemma IfcStepFrame(c: Config, s: State, k: Key, ch: Choice)
    requires k in s.working && HandlesIfc(s.working[k])
    ensures IfcFrame(k, s, WorkStep(c, s, k, ch))
  {
    hide IfcFrame, DropOr, CreateOr, At, Completed, NeedsNewIfc;
    match s.working[k]
    case DroppingIfc => DropFrame(s, k, ch.fails, Leaving(false, None));
    case Implementing(att) =>
      DropFrame(s, k, ch.fails, Creating(att));
      AtFrame(s, k, Completed(att));
    case Creating(att) => CreateFrame(c, s, k, att, ch.fails);
    case Reporting(att) => AtFrame(s, k, if ch.fails then Leaving(true, None) else Leaving(false, Some(att)));
  }

  /** A step that changes only the worker's attachment's interface. */
  lemma IfcStep(c: Config, s: State, k: Key, ch: Choice)
    requires Inv(c, s) && k in s.working && WorkEnabled(c, s, k, ch) && HandlesIfc(s.working[k])
    ensures Inv(c, WorkStep(c, s, k, ch))
  {
    hide Inv, KeyOk, Pending, WorkStep, WorkEnabled;
    var s' := WorkStep(c, s, k, ch);
    InvParts(c, s, k);
    IfcStepFrame(c, s, k, ch);
    IfcStepKeepsPending(s, s', k);
    IfcStepKeyOk(c, s, k, ch);
    PrivateStep(c, s, s', k);
  }

  lemma IfcStepKeepsPending(s: State, s': State, k: Key)
    requires k in s.working && HandlesIfc(s.working[k]) && OnlyBy(k, s, s')
    ensures Pending(s, k) ==> Pending(s', k)
    ensures Owed(s.working[k]) == {}
  {
    StepKeepsPending(s, s', k, k);
  }

  lemma IfcStepKeyOk(c: Config, s: State, k: Key, ch: Choice)
    requires KeyOk(c, s, k) && k in s.working && HandlesIfc(s.working[k])
    requires IfcFrame(k, s, WorkStep(c, s, k, ch))
    requires Pending(s, k) ==> Pending(WorkStep(c, s, k, ch), k)
    ensures KeyOk(c, WorkStep(c, s, k, ch), k)
  {
    hide KeyOk, Pending, DropOr, CreateOr, IfcFrame, Completed, At, MacOf, NeedsNewIfc;
    match s.working[k]
    case DroppingIfc => DropKeyOk(c, s, k, ch.fails, Leaving(false, None));
    case Implementing(att) =>
      if NeedsNewIfc(c, s, k, att) {
        DropKeyOk(c, s, k, ch.fails, Creating(att));
      } else {
        CompletedKeyOk(c, s, k, att);
      }
    case Creating(att) => CreateKeyOk(c, s, k, att, ch.fails);
    case Reporting(att) => ReportKeyOk(c, s, k, att, ch.fails);
  }

  lemma FrameMembers(k: Key, s: State, s': State)
    requires IfcFrame(k, s, s')
    ensures forall v, l :: Member(s', k, v, l) <==> Member(s, k, v, l)
    ensures SeenIn(s', k) == SeenIn(s, k)
  {
    forall v, l ensures Member(s', k, v, l) <==> Member(s, k, v, l) {
      SameMember(s, s', k, v, l);
    }
  }

  /** Going on after a deletion: to leave for a deleted attachment, or to create anew. */
  lemma DropKeyOk(c: Config, s: State, k: Key, fails: bool, next: Pc)
    requires KeyOk(c, s, k) && k in s.working
    requires next == Leaving(false, None)
             || (next.Creating? && s.working[k] == Implementing(next.att))
    requires IfcFrame(k, s, DropOr(s, k, fails, next))
    requires Pending(s, k) ==> Pending(DropOr(s, k, fails, next), k)
    ensures KeyOk(c, DropOr(s, k, fails, next), k)
  {
    hide Pending, RecordOk, Selected, IfcFrame, Member;
    FrameMembers(k, s, DropOr(s, k, fails, next));
  }

  lemma CompletedKeyOk(c: Config, s: State, k: Key, att: Att)
    requires KeyOk(c, s, k) && k in s.working && s.working[k] == Implementing(att)
    requires !NeedsNewIfc(c, s, k, att)
    requires IfcFrame(k, s, At(s, k, Completed(att)))
    requires Pending(s, k) ==> Pending(At(s, k, Completed(att)), k)
    ensures KeyOk(c, At(s, k, Completed(att)), k)
  {
    hide Pending, RecordOk, Selected, IfcFrame, Member, NeedsNewIfc, MacOf;
    FrameMembers(k, s, At(s, k, Completed(att)));
    UpToDateMatches(c, s, k, att);
  }

  lemma CreateKeyOk(c: Config, s: State, k: Key, att: Att, fails: bool)
    requires KeyOk(c, s, k) && k in s.working && s.working[k] == Creating(att)
    requires IfcFrame(k, s, CreateOr(c, s, k, att, fails))
    requires Pending(s, k) ==> Pending(CreateOr(c, s, k, att, fails), k)
    ensures KeyOk(c, CreateOr(c, s, k, att, fails), k)
  {
    hide Pending, IfcFrame, Member, GenerateMacAddr, IsVni, IsPrivate;
    FrameMembers(k, s, CreateOr(c, s, k, att, fails));
  }

  lemma ReportKeyOk(c: Config, s: State, k: Key, att: Att, fails: bool)
    requires KeyOk(c, s, k) && k in s.working && s.working[k] == Reporting(att)
    requires IfcFrame(k, s, At(s, k, if fails then Leaving(true, None) else Leaving(false, Some(att))))
    requires Pending(s, k)
             ==> Pending(At(s, k, if fails then Leaving(true, None) else Leaving(false, Some(att))), k)
    ensures KeyOk(c, At(s, k, if fails then Leaving(true, None) else Leaving(false, Some(att))), k)
  {
    hide Pending, IfcFrame, Member, RecordOk, MacOf;
    FrameMembers(k, s, At(s, k, if fails then Leaving(true, None) else Leaving(false, Some(att))));
  }

  /** When host and MAC address agree, so do kind and VNI. */
  lemma UpToDateMatches(c: Config, s: State, k: Key, att: Att)
    requires IfcOk(c, s, k) && Selected(c, att) && !NeedsNewIfc(c, s, k, att)
    ensures Matches(c, s, k, att)
  {
    hide GenerateMacAddr;
    if k in s.locals {
      MacDeterminesVni(s.locals[k].vni, s.locals[k].ip, att.vni, att.ip);
    } else {
      MacDeterminesVni(s.remotes[k].vni, s.remotes[k].ip, att.vni, att.ip);
    }
  }

  /** A worker that succeeded leaves with its attachment placed or still pending. */
  lemma LeavingStep(c: Config, s: State, k: Key, ch: Choice)
    requires Inv(c, s) && k in s.working && s.working[k].Leaving?
    ensures Inv(c, WorkStep(c, s, k, ch))
  {
    var s' := WorkStep(c, s, k, ch);
    InvParts(c, s, k);
    StepKeepsPending(s, s', k, k);
    PrivateStep(c, s, s', k);
  }

  // ---- vnState sections ----

  /** `k` leaves the vnState of `v`; without local attachments that vnState goes away. */
  lemma DepartMember(s: State, k: Key, v: Vni, after: After, k': Key, w: Vni, l: bool)
    ensures Member(Depart(s, k, v, after), k', w, l)
            ==> Member(s, k', w, l) && !(k' == k && w == v)
    ensures Member(s, k', w, l) && !Member(Depart(s, k, v, after), k', w, l)
            ==> w == v && (k' == k || (!l && s.vnStates[v].localAtts - {k} == {}))
  {
    if v in s.vnStates && s.vnStates[v].localAtts - {k} == {} && k' != k {
      assert k' !in s.vnStates[v].localAtts - {k};
    }
  }

  lemma JoinMember(s: State, k: Key, att: Att, k': Key, w: Vni, l: bool)
    ensures Member(Join(s, k, att), k', w, l)
            ==> Member(s, k', w, l) || (k' == k && w == att.vni && k in Join(s, k, att).vnStateVni
                                        && Join(s, k, att).vnStateVni[k] == att.vni)
    ensures Member(s, k', w, l) && !Member(Join(s, k, att), k', w, l)
            ==> w == att.vni && (k' == k || (!l && Join(s, k, att).working[k].ClosingChannel?))
  {
    var v := att.vni;
    if !att.onThisNode && v in s.vnStates && s.vnStates[v].localAtts - {k} == {} && k' != k {
      assert k' !in s.vnStates[v].localAtts - {k};
    }
  }

  lemma DepartMembers(s: State, k: Key, after: After)
    requires VnStatesOk(s) && k in s.vnStateVni
    ensures VnStatesOk(Depart(s, k, s.vnStateVni[k], after))
  {
    var v := s.vnStateVni[k];
    var s' := Depart(s, k, v, after);
    forall k', w, l | Member(s', k', w, l) ensures k' in s'.vnStateVni && s'.vnStateVni[k'] == w {
      DepartMember(s, k, v, after, k', w, l);
    }
  }

  lemma JoinMembers(s: State, k: Key, att: Att)
    requires VnStatesOk(s)
    requires k in s.vnStateVni ==> s.vnStateVni[k] == att.vni
    ensures VnStatesOk(Join(s, k, att))
  {
    var s' := Join(s, k, att);
    JoinSets(s, k, att);
    forall k', w, l | Member(s', k', w, l) ensures k' in s'.vnStateVni && s'.vnStateVni[k'] == w {
      JoinMember(s, k, att, k', w, l);
      JoinEntry(s, k, att, k');
      if k' == k && Member(s, k, w, l) {
        JoinedHere(s, k, att, w, l);
      }
    }
  }

  lemma JoinSets(s: State, k: Key, att: Att)
    requires VnStatesOk(s)
    ensures forall v :: v in Join(s, k, att).vnStates ==> Join(s, k, att).vnStates[v].localAtts != {}
    ensures forall v :: v in Join(s, k, att).vnStates
                        ==> Join(s, k, att).vnStates[v].localAtts !! Join(s, k, att).vnStates[v].remoteAtts
  {
    hide Member;
  }

  lemma JoinEntry(s: State, k: Key, att: Att, k': Key)
    ensures k' != k && k' in s.vnStateVni
            ==> k' in Join(s, k, att).vnStateVni && Join(s, k, att).vnStateVni[k'] == s.vnStateVni[k']
  {
  }

  /** A member of its own network stays in the entry map, unless the whole vnState goes. */
  lemma JoinedHere(s: State, k: Key, att: Att, w: Vni, l: bool)
    requires k in s.vnStateVni && s.vnStateVni[k] == att.vni == w
    requires Member(Join(s, k, att), k, w, l)
    ensures k in Join(s, k, att).vnStateVni && Join(s, k, att).vnStateVni[k] == w
  {
  }

  lemma DepartOnlyBy(s: State, k: Key, v: Vni, after: After)
    requires k in s.working
    ensures OnlyBy(k, s, Depart(s, k, v, after))
  {
    hide Resume;
  }

  lemma JoinOnlyBy(s: State, k: Key, att: Att)
    requires k in s.working
    ensures OnlyBy(k, s, Join(s, k, att))
  {
  }

  /** A remote attachment that loses its vnState is put back in the queue by the worker that took it. */
  lemma DepartUndisturbed(s: State, k: Key, v: Vni, after: After, k': Key)
    requires k' != k && k in s.working && Owed(s.working[k]) == {}
    ensures Undisturbed(s, Depart(s, k, v, after), k')
  {
    var s' := Depart(s, k, v, after);
    DepartOnlyBy(s, k, v, after);
    if w, l :| Member(s, k', w, l) && !Member(s', k', w, l) {
      DepartMember(s, k, v, after, k', w, l);
      OwedIsPending(s', k, k');
    }
    OthersUndisturbed(s, s', k, k');
  }

  lemma JoinUndisturbed(s: State, k: Key, att: Att, k': Key)
    requires k' != k && k in s.working && s.working[k] == Joining(att)
    ensures Undisturbed(s, Join(s, k, att), k')
  {
    var s' := Join(s, k, att);
    JoinOnlyBy(s, k, att);
    if w, l :| Member(s, k', w, l) && !Member(s', k', w, l) {
      JoinMember(s, k, att, k', w, l);
      OwedIsPending(s', k, k');
    }
    OthersUndisturbed(s, s', k, k');
  }

  lemma DepartStep(c: Config, s: State, k: Key, after: After)
    requires Inv(c, s) && k in s.working && Owed(s.working[k]) == {}
    requires k in s.vnStateVni && !after.Finish?
    requires after.Rejoin? ==> Selected(c, after.att)
    ensures Inv(c, Depart(s, k, s.vnStateVni[k], after))
  {
    hide Inv, KeyOk, Undisturbed, VnStatesOk, Depart;
    var v := s.vnStateVni[k];
    var s' := Depart(s, k, v, after);
    InvParts(c, s, k);
    DepartMembers(s, k, after);
    forall k' ensures KeyOk(c, s', k') {
      InvParts(c, s, k');
      if k' == k {
        DepartKeyOk(c, s, k, after);
      } else {
        DepartUndisturbed(s, k, v, after, k');
        UndisturbedKeeps(c, s, s', k');
      }
    }
    InvFrom(c, s');
  }

  lemma DepartKeyOk(c: Config, s: State, k: Key, after: After)
    requires KeyOk(c, s, k) && k in s.working && k in s.vnStateVni
    requires !after.Finish? && (after.Rejoin? ==> Selected(c, after.att))
    ensures KeyOk(c, Depart(s, k, s.vnStateVni[k], after), k)
  {
    hide RecordOk, Selected, Pending;
  }

  lemma JoinStep(c: Config, s: State, k: Key, att: Att)
    requires Inv(c, s) && k in s.working && s.working[k] == Joining(att)
    requires k in s.vnStateVni ==> s.vnStateVni[k] == att.vni
    ensures Inv(c, Join(s, k, att))
  {
    hide Inv, KeyOk, Undisturbed, VnStatesOk, Join;
    var s' := Join(s, k, att);
    InvParts(c, s, k);
    JoinMembers(s, k, att);
    forall k' ensures KeyOk(c, s', k') {
      InvParts(c, s, k');
      if k' == k {
        JoinKeyOk(c, s, k, att);
      } else {
        JoinUndisturbed(s, k, att, k');
        UndisturbedKeeps(c, s, s', k');
      }
    }
    InvFrom(c, s');
  }

  lemma JoinKeyOk(c: Config, s: State, k: Key, att: Att)
    requires KeyOk(c, s, k) && k in s.working && s.working[k] == Joining(att)
    ensures KeyOk(c, Join(s, k, att), k)
  {
    hide RecordOk, Selected, Pending;
    var s' := Join(s, k, att);
    if s'.working[k].ClosingChannel? {
      OwedIsPending(s', k, k);
    }
  }

  // ---- Clearing an abandoned virtual network ----

  lemma CloseStep(c: Config, s: State, k: Key, ch: Choice)
    requires Inv(c, s) && k in s.working && s.working[k].ClosingChannel?
    ensures Inv(c, WorkStep(c, s, k, ch))
  {
    hide Inv, KeyOk;
    var s' := WorkStep(c, s, k, ch);
    InvParts(c, s, k);
    forall k' | k' in Owed(s.working[k]) ensures Pending(s', k') {
      OwedIsPending(s', k, k');
    }
    StepKeepsPending(s, s', k, k);
    ClearKeyOk(c, s, s', k);
    PrivateStep(c, s, s', k);
  }

  lemma RequeueAddStep(c: Config, s: State, k: Key, ch: Choice)
    requires Inv(c, s) && k in s.working && s.working[k].RequeueAdd?
    ensures Inv(c, WorkStep(c, s, k, ch))
  {
    hide Inv, KeyOk;
    var s' := WorkStep(c, s, k, ch);
    InvParts(c, s, k);
    forall k' | k' in Owed(s.working[k]) ensures Pending(s', k') {
      if k' != s.working[k].key {
        OwedIsPending(s', k, k');
      }
    }
    StepKeepsPending(s, s', k, k);
    ClearKeyOk(c, s, s', k);
    PrivateStep(c, s, s', k);
  }

  /** The clearing worker's own attachment: only what comes afterwards matters. */
  lemma ClearKeyOk(c: Config, s: State, s': State, k: Key)
    requires KeyOk(c, s, k) && k in s.working && k in s'.working
    requires s'.locals == s.locals && s'.remotes == s.remotes && s'.vnStateVni == s.vnStateVni
    requires Pending(s, k) ==> Pending(s', k)
    requires s.working[k].ClosingChannel? || s.working[k].Requeueing? || s.working[k].RequeueAdd?
    requires s'.working[k].Requeueing? || s'.working[k].RequeueAdd?
    requires s'.working[k].after == s.working[k].after
    ensures KeyOk(c, s', k)
  {
    hide Pending, RecordOk, Selected;
  }

  /** A requeued attachment may lose a seen VNI, but it is still owed an addition. */
  lemma RequeueStep(c: Config, s: State, k: Key, ch: Choice)
    requires Inv(c, s) && k in s.working && s.working[k].Requeueing? && s.working[k].todo != {}
    requires WorkEnabled(c, s, k, ch)
    ensures Inv(c, WorkStep(c, s, k, ch))
  {
    hide Inv, KeyOk, VnStatesOk, Undisturbed, Pending, Member, RemoveSeen;
    RemoveSeenFrame(s, ch.pick, s.working[k].vni);
    var s' := WorkStep(c, s, k, ch);
    InvParts(c, s, k);
    SameVnStates(s, s');
    forall k' | k' in Owed(s.working[k]) ensures Pending(s', k') {
      OwedIsPending(s', k, k');
    }
    forall k' ensures KeyOk(c, s', k') {
      InvParts(c, s, k');
      if k' == k {
        StepKeepsPending(s, s', k, k);
        ClearKeyOk(c, s, s', k);
      } else {
        forall v, l ensures Member(s, k', v, l) ==> Member(s', k', v, l) {
          SameMember(s, s', k', v, l);
        }
        OthersUndisturbed(s, s', k, k');
        UndisturbedKeeps(c, s, s', k');
      }
    }
    InvFrom(c, s');
  }

  lemma RemoveSeenFrame(s: State, k: Key, v: Vni)
    ensures RemoveSeen(s, k, v) == s.(seen := RemoveSeen(s, k, v).seen)
    ensures forall k' :: k' != k ==> SeenIn(RemoveSeen(s, k, v), k') == SeenIn(s, k')
  {
  }

  lemma StrayedStep(c: Config, s: State, k: Key, ch: Choice)
    requires Inv(c, s) && k in s.working && s.working[k].Strayed?
    ensures Inv(c, WorkStep(c, s, k, ch))
  {
    hide Inv, RecordOk, Selected, Pending, Member, RemoveSeen;
    RemoveSeenFrame(s, k, s.working[k].att.vni);
    var s' := WorkStep(c, s, k, ch);
    InvParts(c, s, k);
    PrivateStep(c, s, s', k);
  }

  // ---- All steps ----

  lemma WorkKeepsInv(c: Config, s: State, k: Key, ch: Choice)
    requires Inv(c, s) && k in s.working && WorkEnabled(c, s, k, ch)
    ensures Inv(c, WorkStep(c, s, k, ch))
  {
    hide Inv, Depart, Join, Member, Pending, DropOr, CreateOr, IfcOk;
    InvParts(c, s, k);
    match s.working[k]
    case Starting =>
      Moved(c, s, k, FindingLister(ch.vni));
      Moved(c, s, k, LookingUp(None));
      if |SeenIn(s, k)| > 1 {
        AmbiguousIsSafe(s, k);
        Moved(c, s, k, Leaving(false, None));
      }
    case FindingLister(v) =>
      Moved(c, s, k, LookingUp(Some(v)));
      Moved(c, s, k, LookingUp(None));
    case LookingUp(lister) =>
      match Classify(ch.asLocal, ch.asRemote) {
        case Existing(att) => Moved(c, s, k, Arriving(att));
        case Deleted => Moved(c, s, k, Departing);
      }
    case Arriving(att) =>
      if k in s.vnStateVni && s.vnStateVni[k] != att.vni {
        DepartStep(c, s, k, Rejoin(att));
      } else {
        Moved(c, s, k, Joining(att));
      }
    case Joining(att) => JoinStep(c, s, k, att);
    case Strayed(att) => StrayedStep(c, s, k, ch);
    case ClosingChannel(vs, v, after) => CloseStep(c, s, k, ch);
    case Requeueing(todo, v, after) =>
      if todo == {} {
        ResumeOk(c, s, k, after);
        Moved(c, s, k, Resume(after));
      } else {
        RequeueStep(c, s, k, ch);
      }
    case RequeueAdd(r, todo, v, after) => RequeueAddStep(c, s, k, ch);
    case Departing =>
      if k in s.vnStateVni {
        DepartStep(c, s, k, DropIfcs);
      } else {
        Moved(c, s, k, DroppingIfc);
      }
    case Leaving(failed, done) => LeavingStep(c, s, k, ch);
    case _ => IfcStep(c, s, k, ch);
  }

  lemma AmbiguousIsSafe(s: State, k: Key)
    requires |SeenIn(s, k)| > 1
    ensures Safe(At(s, k, Leaving(false, None)), k)
  {
  }

  lemma ResumeOk(c: Config, s: State, k: Key, after: After)
    requires k in s.working && s.working[k].Requeueing? && s.working[k].todo == {}
    requires AfterOk(c, s, k, after)
    ensures PcOk(c, At(s, k, Resume(after)), k, Resume(after))
  {
    var s' := At(s, k, Resume(after));
    StepKeepsPending(s, s', k, k);
  }
}
