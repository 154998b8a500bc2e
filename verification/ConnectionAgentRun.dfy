/**
 What the agent's machine can do, from the notification of an attachment to its interface and back: a failed pass
 is made again, a local attachment opens its network to remote ones, and a remote one goes when a handler says so.
 */
module AgentRuns {
  import opened Options
  import opened AgentMachine

  /** The machine has a run from the one state to the other. */
  ghost predicate Gets(c: Config, s0: State, s: State) {
    exists run :: IsPath(c, run) && run[0] == s0 && run[|run| - 1] == s
  }

  ghost predicate IsPath(c: Config, run: seq<State>) {
    |run| > 0 && forall i :: 0 < i < |run| ==> Follows(c, run[i - 1], run[i])
  }

  lemma Begins(c: Config, s: State)
    ensures Gets(c, s, s)
  {
    assert IsPath(c, [s]) && [s][|[s]| - 1] == s;
  }

  lemma OneMore(c: Config, s0: State, s: State, a: Action)
    requires Gets(c, s0, s) && Enabled(c, s, a)
    ensures Gets(c, s0, Apply(c, s, a))
  {
    hide Enabled, Apply;
    var run :| IsPath(c, run) && run[0] == s0 && run[|run| - 1] == s;
    var run' := run + [Apply(c, s, a)];
    assert Follows(c, s, run'[|run|]);
    forall i | 0 < i < |run'| ensures Follows(c, run'[i - 1], run'[i]) {
      assert i < |run| ==> run'[i - 1] == run[i - 1] && run'[i] == run[i];
    }
    assert IsPath(c, run') && run'[0] == s0 && run'[|run'| - 1] == Apply(c, s, a);
  }

  /** The worker of `k` goes on from `pc`, or takes the attachment from the queue. */
  lemma MovesOn(c: Config, s0: State, s: State, k: Key, pc: Pc, ch: Choice, s': State, pc': Pc)
    requires Gets(c, s0, At(s, k, pc)) && WorkEnabled(c, At(s, k, pc), k, ch)
    requires WorkStep(c, At(s, k, pc), k, ch) == At(At(s', k, pc), k, pc')
    ensures Gets(c, s0, At(s', k, pc'))
  {
    hide Gets, WorkEnabled, WorkStep;
    OneMore(c, s0, At(s, k, pc), Work(k, ch));
    assert At(At(s', k, pc), k, pc') == At(s', k, pc');
  }

  /** The worker is done. */
  lemma Ends(c: Config, s0: State, s: State, k: Key, done: Option<Att>)
    requires k !in s.working && Gets(c, s0, At(s, k, Leaving(false, done)))
    ensures Gets(c, s0, s)
  {
    hide Gets;
    var m := At(s, k, Leaving(false, done));
    OneMore(c, s0, m, Work(k, Choice(0, None, None, 0, false)));
    assert m.working - {k} == s.working;
    assert Apply(c, m, Work(k, Choice(0, None, None, 0, false))) == s;
  }

  /** The worker fails, and the attachment is queued again when its back-off expires. */
  lemma FailsAndRetries(c: Config, s0: State, s: State, k: Key)
    requires k !in s.working && k !in s.backoff && Gets(c, s0, At(s, k, Leaving(true, None)))
    ensures Gets(c, s0, s.(dirty := s.dirty + {k}))
  {
    hide Gets;
    var m := At(s, k, Leaving(true, None));
    OneMore(c, s0, m, Work(k, Choice(0, None, None, 0, false)));
    assert m.working - {k} == s.working;
    var n := s.(backoff := s.backoff + {k});
    OneMore(c, s0, n, BackoffExpired(k));
    assert Apply(c, n, BackoffExpired(k)).backoff == s.backoff;
  }

  /** The network of an attachment, after it has joined. */
  function Joined(s: State, k: Key, att: Att): State {
    Join(s, k, att).(working := s.working)
  }

  /** Nothing is known of the attachment but, perhaps, its network. */
  predicate IsNew(s: State, k: Key, att: Att) {
    && k !in s.working && k !in s.locals && k !in s.remotes && (att.vni, att.ip) !in s.fabric
    && (k in s.vnStateVni ==> s.vnStateVni[k] == att.vni)
  }

  lemma LocalIsFound(c: Config, s0: State, s: State, k: Key, att: Att)
    requires Gets(c, s0, s) && k in s.dirty && k !in s.working
    requires att.onThisNode && Selected(c, att) && SeenIn(s, k) == {}
    ensures Gets(c, s0, At(s.(dirty := s.dirty - {k}), k, Arriving(att)))
  {
    hide Gets, Selected;
    var t, found := s.(dirty := s.dirty - {k}), Choice(0, Some(att), None, 0, false);
    OneMore(c, s0, s, Get(k));
    MovesOn(c, s0, t, k, Starting, found, t, LookingUp(None));
    MovesOn(c, s0, t, k, LookingUp(None), found, t, Arriving(att));
  }

  lemma RemoteIsFound(c: Config, s0: State, s: State, k: Key, att: Att)
    requires Gets(c, s0, s) && k in s.dirty && k !in s.working
    requires !att.onThisNode && Selected(c, att) && SeenIn(s, k) == {att.vni} && att.vni in s.vnStates
    ensures Gets(c, s0, At(s.(dirty := s.dirty - {k}), k, Arriving(att)))
  {
    hide Gets, Selected;
    var t, found := s.(dirty := s.dirty - {k}), Choice(att.vni, None, Some(att), 0, false);
    OneMore(c, s0, s, Get(k));
    MovesOn(c, s0, t, k, Starting, found, t, FindingLister(att.vni));
    MovesOn(c, s0, t, k, FindingLister(att.vni), found, t, LookingUp(Some(att.vni)));
    MovesOn(c, s0, t, k, LookingUp(Some(att.vni)), found, t, Arriving(att));
  }

  lemma NoneIsFound(c: Config, s0: State, s: State, k: Key)
    requires Gets(c, s0, s) && k in s.dirty && k !in s.working && SeenIn(s, k) == {}
    ensures Gets(c, s0, At(s.(dirty := s.dirty - {k}), k, Departing))
  {
    hide Gets;
    var t, ch := s.(dirty := s.dirty - {k}), Choice(0, None, None, 0, false);
    OneMore(c, s0, s, Get(k));
    MovesOn(c, s0, t, k, Starting, ch, t, LookingUp(None));
    MovesOn(c, s0, t, k, LookingUp(None), ch, t, Departing);
  }

  /** Up to the creation of the interface. */
  lemma GetsToCreating(c: Config, s0: State, s: State, k: Key, att: Att)
    requires Gets(c, s0, At(s, k, Arriving(att))) && IsNew(s, k, att)
    requires !att.onThisNode ==> att.vni in s.vnStates && s.vnStates[att.vni].localAtts - {k} != {}
    ensures Gets(c, s0, At(Joined(s, k, att), k, Creating(att)))
  {
    hide Gets, HostOf, MacOf;
    var ch := Choice(0, None, None, 0, false);
    MovesOn(c, s0, s, k, Arriving(att), ch, s, Joining(att));
    Joins(c, s0, s, k, att);
    MovesOn(c, s0, Joined(s, k, att), k, Implementing(att), ch, Joined(s, k, att), Creating(att));
  }

  lemma Joins(c: Config, s0: State, s: State, k: Key, att: Att)
    requires Gets(c, s0, At(s, k, Joining(att)))
    requires !att.onThisNode ==> att.vni in s.vnStates && s.vnStates[att.vni].localAtts - {k} != {}
    ensures Gets(c, s0, At(Joined(s, k, att), k, Implementing(att)))
  {
    hide Gets;
    MovesOn(c, s0, s, k, Joining(att), Choice(0, None, None, 0, false), Joined(s, k, att), Implementing(att));
  }

  lemma Creates(c: Config, s0: State, s: State, k: Key, att: Att)
    requires Gets(c, s0, At(s, k, Creating(att))) && k !in s.working && (att.vni, att.ip) !in s.fabric
    ensures Gets(c, s0, CreateIfc(c, s, k, att))
  {
    hide Gets, CreateIfc;
    var s' := CreateIfc(c, s, k, att);
    MakesIfc(c, s0, s, k, att);
    if att.onThisNode {
      Reports(c, s0, s', k, att);
    }
    Ends(c, s0, s', k, Some(att));
  }

  lemma MakesIfc(c: Config, s0: State, s: State, k: Key, att: Att)
    requires Gets(c, s0, At(s, k, Creating(att))) && k !in s.working && (att.vni, att.ip) !in s.fabric
    ensures Gets(c, s0, At(CreateIfc(c, s, k, att), k, Completed(att))) && k !in CreateIfc(c, s, k, att).working
  {
    hide Gets, HostOf, MacOf, Completed;
    MovesOn(c, s0, s, k, Creating(att), Choice(0, None, None, 0, false), CreateIfc(c, s, k, att), Completed(att));
  }

  lemma Reports(c: Config, s0: State, s: State, k: Key, att: Att)
    requires Gets(c, s0, At(s, k, Reporting(att)))
    ensures Gets(c, s0, At(s, k, Leaving(false, Some(att))))
  {
    hide Gets;
    MovesOn(c, s0, s, k, Reporting(att), Choice(0, None, None, 0, false), s, Leaving(false, Some(att)));
  }

  lemma FailsToCreate(c: Config, s0: State, s: State, k: Key, att: Att)
    requires Gets(c, s0, At(s, k, Creating(att))) && k !in s.working && k !in s.backoff
    ensures Gets(c, s0, s.(dirty := s.dirty + {k}))
  {
    hide Gets;
    MovesOn(c, s0, s, k, Creating(att), Choice(0, None, None, 0, true), s, Leaving(true, None));
    FailsAndRetries(c, s0, s, k);
  }

  /** What is left of an attachment that is found nowhere, when its network has local attachments. */
  function Departed(s: State, k: Key, v: Vni): State
    requires v in s.vnStates
  {
    var vs := s.vnStates[v];
    DropIfc(s.(vnStateVni := s.vnStateVni - {k},
               vnStates := s.vnStates[v := vs.(localAtts := vs.localAtts - {k}, remoteAtts := vs.remoteAtts - {k})]), k)
  }

  lemma Departs(c: Config, s0: State, s: State, k: Key, v: Vni)
    requires Gets(c, s0, s) && k in s.dirty && k !in s.working && SeenIn(s, k) == {}
    requires k in s.vnStateVni && s.vnStateVni[k] == v && v in s.vnStates && s.vnStates[v].localAtts - {k} != {}
    ensures Gets(c, s0, Departed(s, k, v).(dirty := s.dirty - {k}))
  {
    hide Gets;
    var t, ch := s.(dirty := s.dirty - {k}), Choice(0, None, None, 0, false);
    NoneIsFound(c, s0, s, k);
    var vs := s.vnStates[v];
    var u := t.(vnStateVni := t.vnStateVni - {k},
                vnStates := t.vnStates[v := vs.(localAtts := vs.localAtts - {k}, remoteAtts := vs.remoteAtts - {k})]);
    MovesOn(c, s0, t, k, Departing, ch, u, DroppingIfc);
    Drops(c, s0, u, k);
  }

  lemma Drops(c: Config, s0: State, s: State, k: Key)
    requires Gets(c, s0, At(s, k, DroppingIfc)) && k !in s.working
    ensures Gets(c, s0, DropIfc(s, k))
  {
    hide Gets;
    MovesOn(c, s0, s, k, DroppingIfc, Choice(0, None, None, 0, false), DropIfc(s, k), Leaving(false, None));
    Ends(c, s0, DropIfc(s, k), k, None);
  }

  /** The state with one local attachment implemented. */
  function OneLocal(l: Key, here: Att): State {
    INIT.(vnStates := map[here.vni := VnState(0, {l}, {})], nextId := 1, vnStateVni := map[l := here.vni],
          locals := map[l := LocalIfc(here.vni, MacOf(here), here.ip)], fabric := {(here.vni, here.ip)})
  }

  /** A notification, a pass whose create call fails, and the pass made again. */
  lemma LocalComes(c: Config, l: Key, here: Att)
    requires here.onThisNode && Selected(c, here)
    ensures Gets(c, INIT, OneLocal(l, here))
  {
    hide Gets, Selected, MacOf;
    Begins(c, INIT);
    JoinedAgain(l, here);
    OneMore(c, INIT, INIT, Enqueue(l));
    var s := INIT.(dirty := {l});
    assert s == Apply(c, INIT, Enqueue(l));
    LocalIsFound(c, INIT, s, l, here);
    assert s.(dirty := s.dirty - {l}) == INIT;
    GetsToCreating(c, INIT, INIT, l, here);
    var t := JoinedAlone(l, here);
    FailsToCreate(c, INIT, t, l, here);
    var u := t.(dirty := {l});
    assert t.dirty + {l} == {l};
    LocalIsFound(c, INIT, u, l, here);
    assert u.(dirty := u.dirty - {l}) == t;
    GetsToCreating(c, INIT, t, l, here);
    Creates(c, INIT, t, l, here);
    assert CreateIfc(c, t, l, here) == OneLocal(l, here);
  }

  /** One local attachment in its network. */
  function JoinedAlone(l: Key, here: Att): State {
    INIT.(vnStates := map[here.vni := VnState(0, {l}, {})], nextId := 1, vnStateVni := map[l := here.vni])
  }

  lemma JoinedAgain(l: Key, here: Att)
    requires here.onThisNode
    ensures Joined(INIT, l, here) == JoinedAlone(l, here)
    ensures Joined(JoinedAlone(l, here), l, here) == JoinedAlone(l, here)
  {
    var t := JoinedAlone(l, here);
    var vs, none := VnState(0, {l}, {}), VnState(0, {}, {});
    assert none.(localAtts := none.localAtts + {l}, remoteAtts := none.remoteAtts - {l}) == vs;
    assert vs.(localAtts := vs.localAtts + {l}, remoteAtts := vs.remoteAtts - {l}) == vs;
    assert t.vnStates[here.vni := vs] == t.vnStates && t.vnStateVni[l := here.vni] == t.vnStateVni;
  }

  /** The state with a remote attachment of the network implemented as well. */
  function WithRemote(s: State, k: Key, there: Att): State
    requires there.vni in s.vnStates
  {
    var vs := s.vnStates[there.vni];
    s.(vnStates := s.vnStates[there.vni := vs.(remoteAtts := vs.remoteAtts + {k})],
       vnStateVni := s.vnStateVni[k := there.vni], seen := s.seen[k := {there.vni}],
       remotes := s.remotes[k := RemoteIfc(there.vni, MacOf(there), there.ip, there.hostIP)],
       fabric := s.fabric + {(there.vni, there.ip)})
  }

  predicate IsNewcomer(c: Config, l: Key, here: Att, k: Key, there: Att) {
    && here.onThisNode && !there.onThisNode && Selected(c, here) && Selected(c, there)
    && l != k && here.vni == there.vni && here.ip != there.ip
  }

  /** The handler of a notification records where the attachment was seen, and adds it to the queue. */
  lemma RemoteComes(c: Config, l: Key, here: Att, k: Key, there: Att)
    requires IsNewcomer(c, l, here, k, there)
    ensures Gets(c, OneLocal(l, here), WithRemote(OneLocal(l, here), k, there))
  {
    hide Gets, MacOf;
    var s := OneLocal(l, here);
    Begins(c, s);
    OneMore(c, s, s, RemoteAdded(k, there.vni));
    var heard := s.(seen := map[k := {there.vni}]);
    assert SeenIn(s, k) + {there.vni} == {there.vni};
    assert AddSeen(s, k, there.vni).(owing := s.owing + {k}) == heard.(owing := {k});
    OneMore(c, s, heard.(owing := {k}), HandlerAdd(k));
    assert heard.(owing := {k} - {k}, dirty := {} + {k}) == heard.(dirty := {k});
    RemoteIsFound(c, s, heard.(dirty := {k}), k, there);
    assert heard.(dirty := {k} - {k}) == heard;
    assert s.vnStates[there.vni].localAtts - {k} == {l};
    GetsToCreating(c, s, heard, k, there);
    Creates(c, s, Joined(heard, k, there), k, there);
    assert CreateIfc(c, Joined(heard, k, there), k, there) == WithRemote(s, k, there);
  }

  lemma RemoteGoes(c: Config, l: Key, here: Att, k: Key, there: Att)
    requires IsNewcomer(c, l, here, k, there)
    ensures Gets(c, WithRemote(OneLocal(l, here), k, there), OneLocal(l, here))
  {
    hide Gets, MacOf;
    var s, v := WithRemote(OneLocal(l, here), k, there), there.vni;
    Begins(c, s);
    OneMore(c, s, s, RemoteRemoved(k, v));
    var heard := s.(seen := map[]);
    assert RemoveSeen(s, k, v).(owing := s.owing + {k}) == heard.(owing := {k});
    OneMore(c, s, heard.(owing := {k}), HandlerAdd(k));
    assert heard.(owing := {k} - {k}, dirty := {} + {k}) == heard.(dirty := {k});
    assert s.vnStates[v].localAtts - {k} == {l};
    Departs(c, s, heard.(dirty := {k}), k, v);
    assert Departed(heard.(dirty := {k}), k, v).(dirty := {k} - {k}) == OneLocal(l, here);
  }

  /**
   From the start of the agent it gets to the interface of a local attachment, although its first pass fails; from
   there to that of a remote one of its network as well; and from there back, when the remote one is gone.
   */
  lemma ComesAndGoes(c: Config, l: Key, here: Att, k: Key, there: Att)
    requires IsNewcomer(c, l, here, k, there)
    ensures var one := OneLocal(l, here);
            Gets(c, INIT, one) && Gets(c, one, WithRemote(one, k, there)) && Gets(c, WithRemote(one, k, there), one)
  {
    LocalComes(c, l, here);
    RemoteComes(c, l, here, k, there);
    RemoteGoes(c, l, here, k, there);
  }
}
