/**
 No address leaks from a controller's cache: whatever replies and delays there are, an address in a
 cache has a live lock, or a delete as the last notification still to come, or a worker awaiting the
 reply to its create call, which then has not even taken effect.
 */
module IpamNoLeak {
  import opened Options
  import opened LockNames
  import opened ReleasePlan
  import opened IpamProtocol

  /** What the last pending notification about an address says. */
  function LastAbout(inbox: seq<Event>, at: Address): Option<bool> {
    if inbox == [] then None
    else if inbox[|inbox| - 1].at == at then Some(inbox[|inbox| - 1].present)
    else LastAbout(inbox[..|inbox| - 1], at)
  }

  lemma LastAboutSnoc(inbox: seq<Event>, e: Event, at: Address)
    ensures LastAbout(inbox + [e], at) == if e.at == at then Some(e.present) else LastAbout(inbox, at)
  {
    assert (inbox + [e])[..|inbox|] == inbox;
  }

  /** Reading the first notification changes the last one about an address only if it was the only one. */
  lemma {:induction false} LastAboutTail(inbox: seq<Event>, at: Address)
    requires inbox != []
    ensures LastAbout(inbox[1..], at) == LastAbout(inbox, at)
            || (LastAbout(inbox[1..], at) == None && inbox[0].at == at
                && LastAbout(inbox, at) == Some(inbox[0].present))
    ensures inbox[0].at != at ==> LastAbout(inbox[1..], at) == LastAbout(inbox, at)
    ensures inbox[0].at == at ==> LastAbout(inbox, at).Some?
  {
    if |inbox| > 1 {
      var init := inbox[..|inbox| - 1];
      LastAboutTail(init, at);
      assert init[1..] == inbox[1..][..|inbox| - 2];
    }
  }

  lemma {:induction false} LastAboutListed(order: seq<Address>, at: Address)
    ensures LastAbout(Listed(order), at) == if at in order then Some(true) else None
  {
    if order != [] {
      var init := order[..|order| - 1];
      LastAboutListed(init, at);
      LastAboutSnoc(Listed(init), Event(true, order[|order| - 1]), at);
      assert order == init + [order[|order| - 1]];
    }
  }

  /** The last pending notification tells the truth about the store. */
  predicate Truthful(live: map<Address, IPLock>, k: Controller, at: Address) {
    && (LastAbout(k.inbox, at) == Some(true) ==> at in live)
    && (LastAbout(k.inbox, at) == Some(false) ==> at !in live)
  }

  ghost predicate AwaitedBy(k: Controller, at: Address) {
    exists w :: w in k.workers && Wants(k.workers[w], at)
  }

  /** The worker's create call for the address has not taken effect. */
  predicate Wants(pc: Pc, at: Address) {
    pc.AwaitCreate? && pc.at == at && pc.made.None?
  }

  ghost predicate Accounted(live: map<Address, IPLock>, k: Controller, at: Address) {
    at in k.cache ==> at in live || LastAbout(k.inbox, at) == Some(false) || AwaitedBy(k, at)
  }

  ghost predicate CtrlOk(live: map<Address, IPLock>, k: Controller) {
    forall at :: Truthful(live, k, at) && Accounted(live, k, at)
  }

  ghost predicate NoLeak(s: State) {
    forall c :: c in s.ctrls ==> CtrlOk(s.live, s.ctrls[c])
  }

  /** A worker that no longer wants a lock is not needed to account for its address. */
  lemma WorkerMoves(live: map<Address, IPLock>, k: Controller, k': Controller, w: Worker)
    requires CtrlOk(live, k) && k'.inbox == k.inbox
    requires forall v :: v != w && v in k.workers ==> v in k'.workers && k'.workers[v] == k.workers[v]
    requires forall at :: at in k'.cache && at !in k.cache ==> w in k'.workers && Wants(k'.workers[w], at)
    requires w in k.workers ==> forall at :: Wants(k.workers[w], at) ==>
               at in live || at !in k'.cache || (w in k'.workers && Wants(k'.workers[w], at))
    ensures CtrlOk(live, k')
  {
    hide Wants;
    forall at ensures Truthful(live, k', at) && Accounted(live, k', at) {
      assert Truthful(live, k, at) && Accounted(live, k, at);
      if at in k'.cache && at in k.cache && AwaitedBy(k, at) {
        var v :| v in k.workers && Wants(k.workers[v], at);
        if v != w {
          assert v in k'.workers && Wants(k'.workers[v], at);
        }
      }
    }
  }

  /** The store changes one lock and tells everybody. */
  lemma StoreChanges(live: map<Address, IPLock>, live': map<Address, IPLock>, k: Controller, e: Event)
    requires CtrlOk(live, k)
    requires forall at :: at != e.at ==> (at in live <==> at in live')
    requires e.at in live' <==> e.present
    ensures CtrlOk(live', Notified(k, e))
  {
    var k' := Notified(k, e);
    forall at ensures Truthful(live', k', at) && Accounted(live', k', at) {
      assert Truthful(live, k, at) && Accounted(live, k, at);
      LastAboutSnoc(k.inbox, e, at);
      if AwaitedBy(k, at) {
        var v :| v in k.workers && Wants(k.workers[v], at);
        assert v in k'.workers && Wants(k'.workers[v], at);
      }
    }
  }

  lemma ReceivedOk(live: map<Address, IPLock>, k: Controller)
    requires CtrlOk(live, k) && k.inbox != []
    ensures CtrlOk(live, Received(k))
  {
    hide LastAbout;
    var k' := Received(k);
    forall at ensures Truthful(live, k', at) && Accounted(live, k', at) {
      assert Truthful(live, k, at) && Accounted(live, k, at);
      LastAboutTail(k.inbox, at);
      assert AwaitedBy(k', at) <==> AwaitedBy(k, at);
      if at in k'.cache && k.inbox[0].at == at {
        assert LastAbout(k.inbox, at).value ==> at in live;
        assert !LastAbout(k.inbox, at).value ==> LastAbout(k'.inbox, at) == Some(false);
      }
    }
  }

  lemma RestartOk(live: map<Address, IPLock>, order: seq<Address>)
    requires forall at :: at in order <==> at in live
    ensures CtrlOk(live, Controller({}, Listed(order), map[]))
  {
    var k := Controller({}, Listed(order), map[]);
    forall at ensures Truthful(live, k, at) && Accounted(live, k, at) {
      LastAboutListed(order, at);
    }
  }

  lemma StepKeepsNoLeak(s: State, a: Action)
    requires NoLeak(s) && Enabled(s, a)
    ensures NoLeak(Apply(s, a))
  {
    hide CtrlOk, Analyze, OwnLock, Listed;
    var s' := Apply(s, a);
    match a
    case CreateTakes(c, w, uid, created) =>
      var k, pc := s.ctrls[c], PcOf(s, c, w);
      NotedCreate(s.live, s'.live, k, Become(k, w, pc.(made := Some(uid))), w);
      forall d | d in s'.ctrls ensures CtrlOk(s'.live, s'.ctrls[d]) {
        if d != c {
          StoreChanges(s.live, s'.live, s.ctrls[d], Event(true, pc.at));
        }
      }
    case Appear(at, uid, created, name, owner) =>
      forall d | d in s'.ctrls ensures CtrlOk(s'.live, s'.ctrls[d]) {
        StoreChanges(s.live, s'.live, s.ctrls[d], Event(true, at));
      }
    case Touch(at) =>
      forall d | d in s'.ctrls ensures CtrlOk(s'.live, s'.ctrls[d]) {
        StoreChanges(s.live, s'.live, s.ctrls[d], Event(true, at));
      }
    case Delete(at) =>
      forall d | d in s'.ctrls ensures CtrlOk(s'.live, s'.ctrls[d]) {
        StoreChanges(s.live, s'.live, s.ctrls[d], Event(false, at));
      }
    case Deliver(c) => ReceivedOk(s.live, s.ctrls[c]);
    case Restart(c, order) => RestartOk(s.live, order);
    case _ =>
      var c, w := a.c, a.w;
      WorkerMoves(s.live, s.ctrls[c], s'.ctrls[c], w);
  }

  /** The lock appears and its worker wants it no longer: both at once, for its own controller. */
  lemma NotedCreate(live: map<Address, IPLock>, live': map<Address, IPLock>, k: Controller, k1: Controller, w: Worker)
    requires CtrlOk(live, k) && w in k.workers && k.workers[w].AwaitCreate?
    requires k1.inbox == k.inbox && k1.cache == k.cache && w in k1.workers
    requires forall v :: v != w && v in k.workers ==> v in k1.workers && k1.workers[v] == k.workers[v]
    requires forall at :: at != k.workers[w].at ==> (at in live <==> at in live')
    requires k.workers[w].at in live'
    ensures CtrlOk(live', Notified(k1, Event(true, k.workers[w].at)))
  {
    var at0 := k.workers[w].at;
    var k' := Notified(k1, Event(true, at0));
    forall at ensures Truthful(live', k', at) && Accounted(live', k', at) {
      assert Truthful(live, k, at) && Accounted(live, k, at);
      LastAboutSnoc(k1.inbox, Event(true, at0), at);
      if at != at0 && AwaitedBy(k, at) {
        var v :| v in k.workers && Wants(k.workers[v], at);
        assert v in k'.workers && Wants(k'.workers[v], at);
      }
    }
  }

  lemma {:induction false} RunsDoNotLeak(run: seq<State>, acts: seq<Action>, i: nat)
    requires IsRun(run, acts) && run[0] == EMPTY && i < |run|
    ensures NoLeak(run[i])
  {
    if i > 0 {
      RunsDoNotLeak(run, acts, i - 1);
      assert Follows(run[i - 1], acts[i - 1], run[i - 1 + 1]);
      StepKeepsNoLeak(run[i - 1], acts[i - 1]);
    }
  }

  /**
   Over every run from an empty store, with any number of controllers starting and restarting: a cached
   address has a live lock, or its delete is the last notification to come, or a worker awaits the reply to a
   create call for it that has not taken effect; and with nothing awaited or to come, the cache is contained in
   the live locks.
   */
  lemma NoAddressLeaks(run: seq<State>, acts: seq<Action>, i: nat, c: CtrlId, at: Address)
    requires IsRun(run, acts) && run[0] == EMPTY && i < |run|
    requires c in run[i].ctrls && at in run[i].ctrls[c].cache
    ensures at in run[i].live || LastAbout(run[i].ctrls[c].inbox, at) == Some(false) || AwaitedBy(run[i].ctrls[c], at)
    ensures run[i].ctrls[c].inbox == [] && run[i].ctrls[c].workers == map[] ==> at in run[i].live
  {
    RunsDoNotLeak(run, acts, i);
    assert CtrlOk(run[i].live, run[i].ctrls[c]);
    assert Accounted(run[i].live, run[i].ctrls[c], at);
  }
}
