/**
 One controller that makes all the locks, started with the existing locks already in its cache, and with
 error replies that mean "not created": then its cache is exact, and the collision it calls an incoherence
 of the cache cannot happen.  Two workers may hold one address only around a create call whose lock was made,
 and deleted again, before its reply came.
 */
module IpamSole {
  import opened Options
  import opened LockNames
  import opened ReleasePlan
  import opened IpamProtocol
  import opened IpamNoLeak

  /** Nobody else makes locks, the controller does not restart, and a create call that fails has made nothing. */
  predicate IsSole(s: State, a: Action) {
    match a
    case CreateFailed(c, w) => Unmade(s, c, w)
    case CreateRejected(c, w) => Unmade(s, c, w)
    case Appear(_, _, _, _, _) => false
    case Restart(_, _) => false
    case _ => true
  }

  /** The existing locks have been delivered and nothing is going on. */
  predicate Settled(s: State) {
    && s.ctrls.Keys == {0} && s.ctrls[0].cache == s.live.Keys && s.ctrls[0].inbox == [] && s.ctrls[0].workers == map[]
    && forall at :: at in s.live ==> s.live[at].uid in s.ever
  }

  ghost predicate IsSoleRun(run: seq<State>, acts: seq<Action>) {
    IsRun(run, acts) && Settled(run[0]) && forall i :: 0 <= i < |acts| ==> IsSole(run[i], acts[i])
  }

  ghost predicate ExactAt(live: map<Address, IPLock>, k: Controller, at: Address) {
    && (at in k.cache <==> at in live || LastAbout(k.inbox, at) == Some(false) || AwaitedBy(k, at))
    && (AwaitedBy(k, at) ==> at !in live && LastAbout(k.inbox, at) == None)
  }

  /** No notification about an address follows its delete. */
  ghost predicate DeletesComeLast(inbox: seq<Event>) {
    forall i, j :: 0 <= i < j < |inbox| && !inbox[i].present ==> inbox[j].at != inbox[i].at
  }

  /** Of the calls not in effect each is for its own address, and those in effect made each its own lock. */
  ghost predicate OneEach(workers: map<Worker, Pc>) {
    && (forall w :: w in workers ==> !workers[w].AwaitGet?)
    && (forall w :: w in workers && workers[w].AwaitCreate? ==> workers[w].at.vni < 0x20_0000)
    && (forall v, w :: v in workers && w in workers && v != w ==> Apart(workers[v], workers[w]))
  }

  predicate Apart(p: Pc, q: Pc) {
    p.AwaitCreate? && q.AwaitCreate? ==>
      && (p.made.None? && q.made.None? ==> p.at != q.at)
      && (p.made.Some? && q.made.Some? ==> p.made != q.made)
  }

  ghost predicate Exact(live: map<Address, IPLock>, k: Controller) {
    && (forall at :: Truthful(live, k, at) && ExactAt(live, k, at))
    && DeletesComeLast(k.inbox) && OneEach(k.workers)
  }

  ghost predicate SoleOk(s: State) {
    s.ctrls.Keys == {0} && Exact(s.live, s.ctrls[0]) && MadeAreKnown(s)
  }

  ghost predicate MadeAreKnown(s: State) {
    && (forall w :: Creating(s, 0, w) && PcOf(s, 0, w).made.Some? ==> PcOf(s, 0, w).made.value in s.ever)
    && (forall at :: at in s.live ==> s.live[at].uid in s.ever)
  }

  lemma {:induction false} NoneAbout(inbox: seq<Event>, at: Address)
    ensures LastAbout(inbox, at) == None <==> forall i :: 0 <= i < |inbox| ==> inbox[i].at != at
  {
    if inbox != [] {
      var init := inbox[..|inbox| - 1];
      NoneAbout(init, at);
      assert forall i :: 0 <= i < |init| ==> init[i] == inbox[i];
      assert inbox[|inbox| - 1].at == at || inbox == init + [inbox[|inbox| - 1]];
    }
  }

  lemma SaysSomething(inbox: seq<Event>, at: Address)
    ensures LastAbout(inbox, at) == None || LastAbout(inbox, at) == Some(true) || LastAbout(inbox, at) == Some(false)
  {
    hide LastAbout;
    match LastAbout(inbox, at)
    case None =>
    case Some(b) => assert b == true || b == false;
  }

  /** A picked address is wanted by its worker alone. */
  lemma Picks(live: map<Address, IPLock>, k: Controller, w: Worker, pc: Pc)
    requires Exact(live, k) && w !in k.workers && pc.AwaitCreate? && pc.made.None? && pc.at !in k.cache
    requires pc.at.vni < 0x20_0000
    ensures Exact(live, Become(k, w, pc).(cache := k.cache + {pc.at}))
  {
    hide LastAbout, DeletesComeLast;
    var k' := Become(k, w, pc).(cache := k.cache + {pc.at});
    assert ExactAt(live, k, pc.at) && Truthful(live, k, pc.at);
    SaysSomething(k.inbox, pc.at);
    assert !AwaitedBy(k, pc.at);
    forall at ensures Truthful(live, k', at) && ExactAt(live, k', at) {
      assert Truthful(live, k, at) && ExactAt(live, k, at);
      AwaitedAfter(k, k', w, at);
    }
    forall v | v in k.workers ensures !Wants(k.workers[v], pc.at) {
    }
  }

  ghost predicate OthersSame(w: Worker, k: Controller, k': Controller) {
    forall v :: v != w ==> (v in k.workers <==> v in k'.workers) && (v in k.workers ==> k'.workers[v] == k.workers[v])
  }

  predicate WantedBy(k: Controller, w: Worker, at: Address) {
    w in k.workers && Wants(k.workers[w], at)
  }

  /** The other workers want what they wanted. */
  lemma AwaitedAfter(k: Controller, k': Controller, w: Worker, at: Address)
    requires OthersSame(w, k, k')
    ensures AwaitedBy(k', at) ==> AwaitedBy(k, at) || WantedBy(k', w, at)
    ensures AwaitedBy(k, at) ==> AwaitedBy(k', at) || WantedBy(k, w, at)
    ensures WantedBy(k', w, at) ==> AwaitedBy(k', at)
    ensures WantedBy(k, w, at) ==> AwaitedBy(k, at)
  {
    hide Wants;
    if AwaitedBy(k', at) {
      var v :| v in k'.workers && Wants(k'.workers[v], at);
      assert v == w || (v in k.workers && Wants(k.workers[v], at));
    }
    if AwaitedBy(k, at) {
      var v :| v in k.workers && Wants(k.workers[v], at);
      assert v == w || (v in k'.workers && Wants(k'.workers[v], at));
    }
  }

  /** Nobody but the worker wants its address. */
  lemma AloneAwaiting(k: Controller, k': Controller, w: Worker, at: Address)
    requires OneEach(k.workers) && WantedBy(k, w, at) && OthersSame(w, k, k') && !WantedBy(k', w, at)
    ensures !AwaitedBy(k', at)
  {
    forall v | v in k'.workers ensures !Wants(k'.workers[v], at) {
      assert v != w ==> k.workers[v] == k'.workers[v] && Apart(k.workers[v], k.workers[w]);
    }
  }

  /** The create call failed: the address is free again. */
  lemma GivesUp(live: map<Address, IPLock>, k: Controller, k': Controller, w: Worker)
    requires Exact(live, k) && w in k.workers && k.workers[w].AwaitCreate? && k.workers[w].made.None?
    requires k'.inbox == k.inbox && k'.cache == k.cache - {k.workers[w].at}
    requires OthersSame(w, k, k') && (w in k'.workers ==> k'.workers[w].AwaitUpdate?)
    ensures Exact(live, k')
  {
    hide LastAbout, DeletesComeLast;
    var mine := k.workers[w].at;
    AloneAwaiting(k, k', w, mine);
    AwaitedAfter(k, k', w, mine);
    assert Truthful(live, k, mine) && ExactAt(live, k, mine);
    forall at ensures Truthful(live, k', at) && ExactAt(live, k', at) {
      assert Truthful(live, k, at) && ExactAt(live, k, at);
      AwaitedAfter(k, k', w, at);
    }
    StaysOneEach(k, k', w);
  }

  lemma StaysOneEach(k: Controller, k': Controller, w: Worker)
    requires OneEach(k.workers) && OthersSame(w, k, k') && (w in k'.workers ==> k'.workers[w].AwaitUpdate?)
    ensures OneEach(k'.workers)
  {
    forall u, v | u in k'.workers && v in k'.workers && u != v ensures Apart(k'.workers[u], k'.workers[v]) {
      assert u != w && v != w ==> Apart(k.workers[u], k.workers[v]);
    }
  }

  /** A worker whose create call, if any, is in effect comes, goes or moves on. */
  lemma Moves(live: map<Address, IPLock>, k: Controller, k': Controller, w: Worker)
    requires Exact(live, k) && k'.inbox == k.inbox && k'.cache == k.cache
    requires w in k.workers ==> k.workers[w].AwaitUpdate? || (k.workers[w].AwaitCreate? && k.workers[w].made.Some?)
    requires OthersSame(w, k, k') && (w in k'.workers ==> k'.workers[w].AwaitUpdate?)
    ensures Exact(live, k')
  {
    hide LastAbout, DeletesComeLast;
    forall at ensures Truthful(live, k', at) && ExactAt(live, k', at) {
      assert Truthful(live, k, at) && ExactAt(live, k, at);
      AwaitedAfter(k, k', w, at);
    }
    StaysOneEach(k, k', w);
  }

  /** The lock is made; its worker has yet to be told. */
  lemma Creates(live: map<Address, IPLock>, live': map<Address, IPLock>, k: Controller, w: Worker, uid: nat)
    requires Exact(live, k) && w in k.workers && k.workers[w].AwaitCreate? && k.workers[w].made.None?
    requires live'.Keys == live.Keys + {k.workers[w].at}
    requires forall v :: v in k.workers && k.workers[v].AwaitCreate? ==> k.workers[v].made != Some(uid)
    ensures Exact(live', Notified(Become(k, w, k.workers[w].(made := Some(uid))), Event(true, k.workers[w].at)))
  {
    var mine := k.workers[w].at;
    var k' := Notified(Become(k, w, k.workers[w].(made := Some(uid))), Event(true, mine));
    AloneAwaiting(k, k', w, mine);
    AwaitedAfter(k, k', w, mine);
    assert Truthful(live, k, mine) && ExactAt(live, k, mine);
    forall at ensures Truthful(live', k', at) && ExactAt(live', k', at) {
      hide LastAbout;
      assert Truthful(live, k, at) && ExactAt(live, k, at);
      AwaitedAfter(k, k', w, at);
      LastAboutSnoc(k.inbox, Event(true, mine), at);
    }
    NoneAbout(k.inbox, mine);
    forall u, v | u in k'.workers && v in k'.workers && u != v ensures Apart(k'.workers[u], k'.workers[v]) {
      assert Apart(k.workers[u], k.workers[v]);
    }
  }

  /** A live lock is updated or deleted; nothing about it came after a delete. */
  lemma Tells(live: map<Address, IPLock>, live': map<Address, IPLock>, k: Controller, e: Event)
    requires Exact(live, k) && e.at in live
    requires live'.Keys == if e.present then live.Keys else live.Keys - {e.at}
    ensures Exact(live', Notified(k, e))
  {
    var k' := Notified(k, e);
    assert Truthful(live, k, e.at) && ExactAt(live, k, e.at);
    forall at ensures Truthful(live', k', at) && ExactAt(live', k', at) {
      hide LastAbout;
      assert Truthful(live, k, at) && ExactAt(live, k, at);
      assert AwaitedBy(k', at) <==> AwaitedBy(k, at);
      LastAboutSnoc(k.inbox, e, at);
    }
    LastIsDelete(k.inbox, e.at);
  }

  /** With deletes last, a pending delete is what the last notification about its address says. */
  lemma LastIsDelete(inbox: seq<Event>, at: Address)
    requires DeletesComeLast(inbox) && LastAbout(inbox, at) != Some(false)
    ensures forall i :: 0 <= i < |inbox| && inbox[i].at == at ==> inbox[i].present
    decreases |inbox|
  {
    if inbox != [] && inbox[|inbox| - 1].at != at {
      LastIsDelete(inbox[..|inbox| - 1], at);
      assert forall i :: 0 <= i < |inbox| - 1 ==> inbox[i] == inbox[..|inbox| - 1][i];
    }
  }

  lemma Delivers(live: map<Address, IPLock>, k: Controller)
    requires Exact(live, k) && k.inbox != []
    ensures Exact(live, Received(k))
  {
    var k', e := Received(k), k.inbox[0];
    assert forall i :: 0 <= i < |k'.inbox| ==> k'.inbox[i] == k.inbox[i + 1];
    NoneAbout(k'.inbox, e.at);
    forall at ensures Truthful(live, k', at) && ExactAt(live, k', at) {
      hide LastAbout;
      assert Truthful(live, k, at) && ExactAt(live, k, at);
      assert AwaitedBy(k', at) <==> AwaitedBy(k, at);
      LastAboutTail(k.inbox, at);
      SaysSomething(k.inbox, at);
    }
  }

  lemma SettledIsExact(s: State)
    requires Settled(s)
    ensures SoleOk(s)
  {
    var k := s.ctrls[0];
    assert forall at :: Truthful(s.live, k, at) && ExactAt(s.live, k, at);
  }

  lemma NobodyCollides(s: State, a: Action)
    requires SoleOk(s) && Enabled(s, a)
    ensures !a.CreateClash? && !a.GetMine? && !a.GetForeign? && !a.GetMissing? && !a.GetFailed?
  {
    hide LastAbout, Analyze, DeletesComeLast;
    forall w | Unmade(s, 0, w) ensures PcOf(s, 0, w).at !in s.live {
      UnmadeIsFree(s, w);
    }
    assert forall c :: c in s.ctrls ==> c == 0;
  }

  lemma UnmadeIsFree(s: State, w: Worker)
    requires SoleOk(s) && Unmade(s, 0, w)
    ensures PcOf(s, 0, w).at !in s.live && AwaitedBy(s.ctrls[0], PcOf(s, 0, w).at)
  {
    hide LastAbout, DeletesComeLast;
    var k := s.ctrls[0];
    assert ExactAt(s.live, k, k.workers[w].at);
    assert w in k.workers && Wants(k.workers[w], k.workers[w].at);
  }

  lemma StepKeepsSole(s: State, a: Action)
    requires SoleOk(s) && IsSole(s, a) && Enabled(s, a)
    ensures SoleOk(Apply(s, a))
  {
    hide Exact, Analyze, OwnLock, Listed, MadeAreKnown;
    var s', k := Apply(s, a), s.ctrls[0];
    NobodyCollides(s, a);
    StepKeepsKnown(s, a);
    match a
    case Pick(c, w, name, att, want, addr) =>
      Picks(s.live, k, w, AwaitCreate(Address(want.vni, addr), name, att, want, None));
    case CreateTakes(c, w, uid, created) =>
      NewUid(s, uid);
      Creates(s.live, s'.live, k, w, uid);
    case CreateOk(c, w) => Moves(s.live, k, s'.ctrls[0], w);
    case CreateFailed(c, w) => GivesUp(s.live, k, s'.ctrls[0], w);
    case CreateRejected(c, w) => GivesUp(s.live, k, s'.ctrls[0], w);
    case Keep(c, w, att, want, owned, fetched) => Moves(s.live, k, s'.ctrls[0], w);
    case Update(c, w) => Moves(s.live, k, s'.ctrls[0], w);
    case Deliver(c) => Delivers(s.live, k);
    case Touch(at) => Tells(s.live, s'.live, k, Event(true, at));
    case Delete(at) => Tells(s.live, s'.live, k, Event(false, at));
  }

  lemma NewUid(s: State, uid: nat)
    requires MadeAreKnown(s) && s.ctrls.Keys == {0} && uid !in s.ever
    ensures forall v :: v in s.ctrls[0].workers && s.ctrls[0].workers[v].AwaitCreate?
                        ==> s.ctrls[0].workers[v].made != Some(uid)
  {
    forall v | Creating(s, 0, v) ensures PcOf(s, 0, v).made != Some(uid) {
    }
    assert forall v :: v in s.ctrls[0].workers && s.ctrls[0].workers[v].AwaitCreate? ==> Creating(s, 0, v);
  }

  /** A call's lock has a UID that was made known when it was made. */
  lemma StepKeepsKnown(s: State, a: Action)
    requires SoleOk(s) && IsSole(s, a) && Enabled(s, a)
    ensures MadeAreKnown(Apply(s, a))
  {
    hide Exact, Analyze, Listed, MakeName;
    var s' := Apply(s, a);
    forall w | Creating(s', 0, w) && PcOf(s', 0, w).made.Some? ensures PcOf(s', 0, w).made.value in s'.ever {
      assert (Creating(s, 0, w) && PcOf(s, 0, w).made == PcOf(s', 0, w).made)
             || (a.CreateTakes? && a.w == w && PcOf(s', 0, w).made == Some(a.uid));
    }
  }

  lemma {:induction false} RunsStayExact(run: seq<State>, acts: seq<Action>, i: nat)
    requires IsSoleRun(run, acts) && i < |run|
    ensures SoleOk(run[i])
  {
    hide SoleOk, IsSole;
    if i == 0 {
      SettledIsExact(run[0]);
    } else {
      RunsStayExact(run, acts, i - 1);
      assert Follows(run[i - 1], acts[i - 1], run[i - 1 + 1]);
      assert IsSole(run[i - 1], acts[i - 1]);
      StepKeepsSole(run[i - 1], acts[i - 1]);
    }
  }

  /**
   With a sole controller the cache holds just the live addresses, those whose delete is still to be
   delivered and those wanted by a create call not yet in effect; so at quiescence it is the set of live
   addresses.
   */
  lemma CacheIsExact(run: seq<State>, acts: seq<Action>, i: nat)
    requires IsSoleRun(run, acts) && i < |run|
    ensures 0 in run[i].ctrls
    ensures var k := run[i].ctrls[0];
            && (forall at :: at in k.cache <==>
                               at in run[i].live || LastAbout(k.inbox, at) == Some(false) || AwaitedBy(k, at))
            && (k.inbox == [] && k.workers == map[] ==> k.cache == run[i].live.Keys)
  {
    hide LastAbout, DeletesComeLast;
    RunsStayExact(run, acts, i);
    var k := run[i].ctrls[0];
    forall at
      ensures at in k.cache <==> at in run[i].live || LastAbout(k.inbox, at) == Some(false) || AwaitedBy(k, at) {
      assert ExactAt(run[i].live, k, at);
    }
    if k.inbox == [] && k.workers == map[] {
      EmptyInbox();
      assert forall at :: at in k.cache <==> at in run[i].live;
    }
  }

  lemma EmptyInbox()
    ensures forall at :: LastAbout([], at) == None
  {
  }

  /** A worker holds the address it picked until it gets the reply to its create call. */
  predicate Holds(s: State, w: Worker, at: Address) {
    Creating(s, 0, w) && PcOf(s, 0, w).at == at
  }

  /** The lock that the worker's create call has made is not there any more. */
  predicate MadeAndGone(s: State, w: Worker) {
    && Creating(s, 0, w) && PcOf(s, 0, w).made.Some?
    && !(PcOf(s, 0, w).at in s.live && PcOf(s, 0, w).made == Some(s.live[PcOf(s, 0, w).at].uid))
  }

  lemma HoldersApart(s: State, v: Worker, w: Worker, at: Address)
    requires SoleOk(s) && v != w && Holds(s, v, at) && Holds(s, w, at)
    ensures MadeAndGone(s, v) || MadeAndGone(s, w)
  {
    hide LastAbout, DeletesComeLast, Truthful, ExactAt;
    assert Apart(s.ctrls[0].workers[v], s.ctrls[0].workers[w]);
    if Unmade(s, 0, v) {
      UnmadeIsFree(s, v);
    }
    if Unmade(s, 0, w) {
      UnmadeIsFree(s, w);
    }
  }

  /**
   No create call ever meets a lock already there, a call not yet in effect is for an address that is not
   locked, and of two workers that hold one address one has a create call whose lock was made and is gone
   although its reply has not come.
   */
  lemma NoCollisions(run: seq<State>, acts: seq<Action>, i: nat)
    requires IsSoleRun(run, acts) && i < |run|
    ensures i < |acts| ==> !acts[i].CreateClash? && !acts[i].GetForeign?
    ensures forall w :: Unmade(run[i], 0, w) ==> PcOf(run[i], 0, w).at !in run[i].live
    ensures forall v, w, at :: v != w && Holds(run[i], v, at) && Holds(run[i], w, at)
                               ==> MadeAndGone(run[i], v) || MadeAndGone(run[i], w)
  {
    hide SoleOk, Apply, Enabled, Holds, MadeAndGone;
    RunsStayExact(run, acts, i);
    if i < |acts| {
      assert Follows(run[i], acts[i], run[i + 1]);
      NobodyCollides(run[i], acts[i]);
    }
    forall w | Unmade(run[i], 0, w) ensures PcOf(run[i], 0, w).at !in run[i].live {
      UnmadeIsFree(run[i], w);
    }
    forall v, w, at | v != w && Holds(run[i], v, at) && Holds(run[i], w, at)
      ensures MadeAndGone(run[i], v) || MadeAndGone(run[i], w) {
      HoldersApart(run[i], v, w, at);
    }
  }
}
