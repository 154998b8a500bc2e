/** What every step of the connection agent keeps. */
module AgentInvariant {
  import opened Options
  import opened MacAddresses
  import opened AgentMachine

  // ---- Being taken care of ----

  /** The attachments a worker still has to put back in the queue. */
  function Owed(pc: Pc): set<Key> {
    match pc
    case ClosingChannel(vs, v, after) => vs.remoteAtts
    case Requeueing(todo, v, after) => todo
    case RequeueAdd(r, todo, v, after) => todo + {r}
    case _ => {}
  }

  ghost predicate OwedByWorker(s: State, k: Key) {
    exists j :: j in s.working && k in Owed(s.working[j])
  }

  /** Some worker will look at `k` again: it is queued, in back-off, or about to be added. */
  ghost predicate Pending(s: State, k: Key) {
    k in s.dirty || k in s.backoff || k in s.owing || OwedByWorker(s, k)
  }

  /** `k` is a member of the live vnState of `v`, as a local or as a remote attachment. */
  predicate Member(s: State, k: Key, v: Vni, asLocal: bool) {
    v in s.vnStates && if asLocal then k in s.vnStates[v].localAtts else k in s.vnStates[v].remoteAtts
  }

  /** Whatever interface `k` has, it is a member of the live vnState of that interface's VNI. */
  predicate Placed(s: State, k: Key) {
    && (k in s.locals ==> Member(s, k, s.locals[k].vni, true))
    && (k in s.remotes ==> Member(s, k, s.remotes[k].vni, false))
  }

  ghost predicate Safe(s: State, k: Key) {
    Pending(s, k) || |SeenIn(s, k)| > 1 || Placed(s, k)
  }

  // ---- The invariant ----

  /** A VNI has a vnState exactly while it has local attachments; memberships follow the entry map. */
  ghost predicate VnStatesOk(s: State) {
    && (forall v :: v in s.vnStates ==> s.vnStates[v].localAtts != {})
    && (forall v :: v in s.vnStates ==> s.vnStates[v].localAtts !! s.vnStates[v].remoteAtts)
    && (forall k, v, l :: Member(s, k, v, l) ==> k in s.vnStateVni && s.vnStateVni[k] == v)
  }

  predicate RecordOk(c: Config, vni: Vni, mac: MacAddr, ip: Ip) {
    && mac == GenerateMacAddr(vni, ip)
    && IsVni(vni)
    && (c.privateOnly ==> IsPrivate(ip))
  }

  ghost predicate IfcOk(c: Config, s: State, k: Key) {
    && !(k in s.locals && k in s.remotes)
    && (k in s.locals ==> RecordOk(c, s.locals[k].vni, s.locals[k].mac, s.locals[k].ip))
    && (k in s.remotes ==> s.remotes[k].hostIP != c.hostIP
                           && RecordOk(c, s.remotes[k].vni, s.remotes[k].mac, s.remotes[k].ip))
  }

  /** `k` has exactly one interface, of the right kind, network, host and MAC address. */
  predicate Matches(c: Config, s: State, k: Key, att: Att) {
    if att.onThisNode then
      && k in s.locals && k !in s.remotes
      && s.locals[k].vni == att.vni && s.locals[k].mac == MacOf(att)
    else
      && k in s.remotes && k !in s.locals
      && s.remotes[k].vni == att.vni && s.remotes[k].mac == MacOf(att) && s.remotes[k].hostIP == att.hostIP
  }

  ghost predicate AfterOk(c: Config, s: State, k: Key, after: After) {
    match after
    case Rejoin(att) => Selected(c, att) && k !in s.vnStateVni
    case Finish => Pending(s, k)
    case DropIfcs => true
  }

  ghost predicate PcOk(c: Config, s: State, k: Key, pc: Pc) {
    match pc
    case Starting => true
    case FindingLister(v) => true
    case LookingUp(lister) => true
    case Arriving(att) => Selected(c, att)
    case Joining(att) => Selected(c, att) && (k in s.vnStateVni ==> s.vnStateVni[k] == att.vni)
    case Strayed(att) => Selected(c, att)
    case ClosingChannel(vs, v, after) => AfterOk(c, s, k, after)
    case Requeueing(todo, v, after) => AfterOk(c, s, k, after)
    case RequeueAdd(r, todo, v, after) => AfterOk(c, s, k, after)
    case Departing => true
    case DroppingIfc => true
    case Implementing(att) => Selected(c, att) && (Pending(s, k) || Member(s, k, att.vni, att.onThisNode))
    case Creating(att) =>
      && Selected(c, att) && (Pending(s, k) || Member(s, k, att.vni, att.onThisNode))
      && k !in s.locals && k !in s.remotes
    case Reporting(att) =>
      && Selected(c, att) && (Pending(s, k) || Member(s, k, att.vni, att.onThisNode))
      && Matches(c, s, k, att)
    case Leaving(failed, done) =>
      && (!failed ==> Safe(s, k))
      && (done.Some? ==> Selected(c, done.value) && Matches(c, s, k, done.value))
  }

  ghost predicate KeyOk(c: Config, s: State, k: Key) {
    && IfcOk(c, s, k)
    && if k in s.working then PcOk(c, s, k, s.working[k]) else Safe(s, k)
  }

  ghost predicate Inv(c: Config, s: State) {
    VnStatesOk(s) && forall k :: KeyOk(c, s, k)
  }

  // ---- Attachments other than the one being worked on ----

  /** Nothing `k` relies on is lost from `s` to `s'` unless `k` will be looked at again. */
  ghost predicate Undisturbed(s: State, s': State, k: Key) {
    && (k in s'.working <==> k in s.working)
    && (k in s.working ==> s'.working[k] == s.working[k])
    && (k in s'.locals <==> k in s.locals) && (k in s.locals ==> s'.locals[k] == s.locals[k])
    && (k in s'.remotes <==> k in s.remotes) && (k in s.remotes ==> s'.remotes[k] == s.remotes[k])
    && (k in s'.vnStateVni <==> k in s.vnStateVni) && (k in s.vnStateVni ==> s'.vnStateVni[k] == s.vnStateVni[k])
    && (Pending(s, k) ==> Pending(s', k))
    && (Pending(s', k) || |SeenIn(s', k)| >= |SeenIn(s, k)|)
    && (Pending(s', k) || forall v, l :: Member(s, k, v, l) ==> Member(s', k, v, l))
  }

  lemma UndisturbedKeeps(c: Config, s: State, s': State, k: Key)
    requires KeyOk(c, s, k) && Undisturbed(s, s', k)
    ensures KeyOk(c, s', k)
  {
    hide Pending, Member, RecordOk, Selected;
  }

  /** A step of worker `j` keeps `k` pending if it passes on what it owed to `k`. */
  lemma StepKeepsPending(s: State, s': State, j: Key, k: Key)
    requires s.dirty <= s'.dirty && s.backoff <= s'.backoff && s.owing <= s'.owing
    requires forall i :: i in s.working && i != j ==> i in s'.working && s'.working[i] == s.working[i]
    requires j in s.working && k in Owed(s.working[j]) ==> Pending(s', k)
    ensures Pending(s, k) ==> Pending(s', k)
  {
    if OwedByWorker(s, k) {
      var i :| i in s.working && k in Owed(s.working[i]);
      assert i != j ==> i in s'.working && k in Owed(s'.working[i]);
    }
  }

  lemma OwedIsPending(s: State, j: Key, k: Key)
    requires j in s.working && k in Owed(s.working[j])
    ensures Pending(s, k)
  {
  }

  ghost predicate SameElsewhere<V(!new)>(j: Key, m: map<Key, V>, m': map<Key, V>) {
    forall k :: k != j ==> (k in m <==> k in m') && (k in m ==> m'[k] == m[k])
  }

  /** The frame of a step of worker `j`: everything of other attachments but memberships and seen VNIs. */
  ghost predicate OnlyBy(j: Key, s: State, s': State) {
    && s.dirty <= s'.dirty && s.backoff <= s'.backoff && s.owing <= s'.owing
    && SameElsewhere(j, s.working, s'.working)
    && SameElsewhere(j, s.locals, s'.locals)
    && SameElsewhere(j, s.remotes, s'.remotes)
    && SameElsewhere(j, s.vnStateVni, s'.vnStateVni)
  }

  lemma OthersUndisturbed(s: State, s': State, j: Key, k: Key)
    requires OnlyBy(j, s, s') && k != j
    requires j in s.working && k in Owed(s.working[j]) ==> Pending(s', k)
    requires Pending(s', k) || |SeenIn(s', k)| >= |SeenIn(s, k)|
    requires Pending(s', k) || forall v, l :: Member(s, k, v, l) ==> Member(s', k, v, l)
    ensures Undisturbed(s, s', k)
  {
    StepKeepsPending(s, s', j, k);
  }

  /** A step that changes no vnState and no seen VNI of others disturbs nobody else. */
  lemma PrivateStep(c: Config, s: State, s': State, j: Key)
    requires Inv(c, s) && OnlyBy(j, s, s')
    requires s'.vnStates == s.vnStates && s'.vnStateVni == s.vnStateVni
    requires forall k :: k != j ==> SeenIn(s', k) == SeenIn(s, k)
    requires j in s.working ==> forall k :: k in Owed(s.working[j]) ==> Pending(s', k)
    requires KeyOk(c, s', j)
    ensures Inv(c, s')
  {
    hide Inv, KeyOk, Pending, OnlyBy, Undisturbed, Owed;
    assert VnStatesOk(s) by { InvParts(c, s, j); }
    assert forall k, v, l :: Member(s', k, v, l) <==> Member(s, k, v, l);
    assert VnStatesOk(s');
    forall k ensures KeyOk(c, s', k) {
      if k != j {
        InvParts(c, s, k);
        OthersUndisturbed(s, s', j, k);
        UndisturbedKeeps(c, s, s', k);
      }
    }
    InvFrom(c, s');
  }

  lemma InvParts(c: Config, s: State, k: Key)
    requires Inv(c, s)
    ensures VnStatesOk(s) && KeyOk(c, s, k)
  {
  }

  lemma InvFrom(c: Config, s: State)
    requires VnStatesOk(s) && forall k :: KeyOk(c, s, k)
    ensures Inv(c, s)
  {
  }
}
