/** Each edition of an attachment gets one lock, unless an older edition's lock in another network hides it. */
module IpamOneLock {
  import opened Options
  import opened UInt32
  import opened LockNames
  import opened ReleasePlan
  import opened IpamAnticipation
  import opened IpamPass

  ghost predicate NoneOwn(j: Job, locks: map<Address, IPLock>) {
    forall at :: at in locks ==> !IsOwn(j, locks[at])
  }

  /** The only own lock is on the address given, which could be picked. */
  ghost predicate OwnsJust(j: Job, locks: map<Address, IPLock>, a: uint32) {
    && Pickable(j.want, a) && Address(j.want.vni, a) in locks && IsOwn(j, locks[Address(j.want.vni, a)])
    && forall at :: at in locks && IsOwn(j, locks[at]) ==> at == Address(j.want.vni, a)
  }

  function UidAt(j: Job, locks: map<Address, IPLock>, a: uint32): nat
    requires Address(j.want.vni, a) in locks
  {
    locks[Address(j.want.vni, a)].uid
  }

  /** No address of the range is left to pick. */
  ghost predicate Full(j: Job, locks: map<Address, IPLock>) {
    forall y :: !Available(j, locks, y)
  }

  ghost predicate StoreGrew(j: Job, locks0: map<Address, IPLock>, locks: map<Address, IPLock>) {
    && j.want.vni < 0x20_0000 && StoreOk(j, locks) && NoneOwn(j, locks0)
    && (forall at :: at in locks0 ==> at in locks && locks[at] == locks0[at])
    && (forall at :: at in locks && locks[at].ownerName == j.name ==> at in locks0 || IsOwn(j, locks[at]))
    && (forall at :: at in locks && IsOwn(j, locks[at]) ==> locks[at].ownerName == j.name)
  }

  ghost predicate PassOk(j: Job, w: World) {
    && w.view < |w.edits| && (w.pc != Idle ==> w.pc.rv <= w.view)
    && (w.pc.Listed? || w.pc.Fetched? ==> OwnedOk(j, w, w.pc.owned))
    && (w.pc.Fetched? ==> w.pc.fetched == GetNamed(j, w.locks, w.edits[w.pc.rv].ip))
  }

  ghost predicate OwnedOk(j: Job, w: World, owned: seq<IPLock>) {
    FromStore(w.locks, owned) && Distinct(owned) && forall l :: l in owned ==> l.ownerName == j.name
  }

  ghost predicate Blank(edits: seq<Status>) {
    forall i :: 0 <= i < |edits| ==> edits[i] == NO_STATUS
  }

  /** Nothing is locked yet. */
  ghost predicate Unlocked(j: Job, w: World) {
    NoneOwn(j, w.locks) && Blank(w.edits) && w.nadat == NO_DATA && !w.pc.Writing?
  }

  /** The address is locked and about to be written into the status. */
  ghost predicate Unwritten(j: Job, w: World, a: uint32) {
    && OwnsJust(j, w.locks, a) && Blank(w.edits) && w.nadat == NO_DATA
    && w.pc.Writing? && w.pc.addr == a && w.pc.lockUid == UidAt(j, w.locks, a)
  }

  /** From revision `k` on the status names the lock, and views older than `k` find the anticipation. */
  ghost predicate Written(j: Job, w: World, a: uint32, k: nat) {
    && OwnsJust(j, w.locks, a) && 1 <= k < |w.edits|
    && (forall i :: 0 <= i < |w.edits| ==>
          w.edits[i] == if i < k then NO_STATUS else Status(Some(a), Some(UidAt(j, w.locks, a))))
    && (|| (w.nadat == Nadat(Some(a), Some(k - 1), Some(k), Some(j.subnetRV)) && w.view >= k - 1
            && (w.pc != Idle ==> w.pc.rv >= k - 1) && !w.pc.Picking?)
        || (w.nadat == NO_DATA && w.view > k && (w.pc != Idle ==> w.pc.rv > k)))
    && !w.pc.Writing? && (w.pc.Picking? ==> Full(j, w.locks))
  }

  ghost predicate Inv(j: Job, locks0: map<Address, IPLock>, w: World) {
    && StoreGrew(j, locks0, w.locks) && PassOk(j, w)
    && (Unlocked(j, w) || (exists a :: Unwritten(j, w, a)) || (exists a, k :: Written(j, w, a, k)))
  }

  // ---- One pass ----

  /** The status lock is fetched, or listed, or hidden by a shadow. */
  lemma StatusLockIsConsidered(j: Job, locks0: map<Address, IPLock>, w: World, a: uint32, owned: seq<IPLock>, uid: nat)
    requires StoreGrew(j, locks0, w.locks) && OwnsJust(j, w.locks, a) && OwnedOk(j, w, owned)
    ensures var att := Attachment(j.uid, Some(uid), Some(a));
            w.locks[Address(j.want.vni, a)] in Considered(Some(att), owned, GetNamed(j, w.locks, att.ip))
            || ShadowAt(j, locks0, a)
  {
    hide ParsedLocks, DistinctUids, NewParsedLock, MakeName, StoreOk;
    var att := Attachment(j.uid, Some(uid), Some(a));
    StoredList(j, w.locks, owned);
    if !ShouldFetch(Some(att), owned) {
      var p :| p in ParsedLocks(owned) && p.at.addr == a;
      assert w.locks[p.at] in owned;
    }
  }

  /** The address of the own lock was free at the start; so a shadow of it means the range is full. */
  lemma HiddenMeansFull(j: Job, locks0: map<Address, IPLock>, w: World, a: uint32)
    requires StoreGrew(j, locks0, w.locks) && OwnsJust(j, w.locks, a)
    requires ShadowAt(j, locks0, a) && !Shadowed(j, locks0)
    ensures Full(j, w.locks)
  {
    hide StoreOk, ShadowAt;
    assert Address(j.want.vni, a) !in locks0;
    forall y ensures !Available(j, w.locks, y) {
      assert Available(j, w.locks, y) ==> y != a && Available(j, locks0, y);
    }
  }

  lemma NothingReleased(locks: map<Address, IPLock>)
    ensures Released(locks, []) == locks
  {
  }

  lemma DecideUnlocked(j: Job, locks0: map<Address, IPLock>, w: World)
    requires Inv(j, locks0, w) && Unlocked(j, w) && Enabled(j, w, Decide)
    ensures PlanAt(j, w).release == [] && Inv(j, locks0, Apply(j, w, Decide))
  {
    hide StoreOk, Analyze, ShouldFetch, IsWanted, Slips, MakeName;
    var att := AttAt(j, w, w.pc.rv);
    PlanWithout(j, w, att, w.pc.owned);
    NothingReleased(w.locks);
    assert Unlocked(j, Apply(j, w, Decide));
  }

  lemma DecideWritten(j: Job, locks0: map<Address, IPLock>, w: World, a: uint32, k: nat)
    requires Inv(j, locks0, w) && Written(j, w, a, k) && Enabled(j, w, Decide)
    requires !Shadowed(j, locks0)
    ensures PlanAt(j, w).release == [] && Inv(j, locks0, Apply(j, w, Decide))
  {
    hide StoreOk, Analyze, Considered, IsWanted, Slips, MakeName, GetNamed, Available, Shadowed, ShadowAt;
    hide NewParsedLock;
    var att, at := AttAt(j, w, w.pc.rv), Address(j.want.vni, a);
    var list := Considered(Some(att), w.pc.owned, w.pc.fetched);
    NothingReleased(w.locks);
    if w.locks[at] in list {
      PlanWith(j, w, att, w.pc.owned, at);
    } else {
      ConsideredOk(j, w, att, w.pc.owned);
      forall l | l in list ensures !IsOwn(j, l) {
        var b :| b in w.locks && w.locks[b] == l;
      }
      PlanWithout(j, w, att, w.pc.owned);
      if w.pc.rv >= k {
        StatusLockIsConsidered(j, locks0, w, a, w.pc.owned, UidAt(j, w.locks, a));
        HiddenMeansFull(j, locks0, w, a);
      }
    }
    assert Written(j, Apply(j, w, Decide), a, k);
  }

  // ---- Every step ----

  /** A pass only looks at the lists it has read, so a growing store does not disturb it. */
  lemma MoreLocksOk(j: Job, w: World, w': World)
    requires PassOk(j, w) && w'.pc == w.pc && w'.view == w.view && w'.edits == w.edits
    requires forall at :: at in w.locks ==> at in w'.locks && w'.locks[at] == w.locks[at]
    requires w.pc.Fetched? && w.edits[w.pc.rv].ip.Some? ==> Address(j.want.vni, w.edits[w.pc.rv].ip.value) in w.locks
    ensures PassOk(j, w')
  {
    if w.pc.Listed? || w.pc.Fetched? {
      forall l | l in w.pc.owned ensures exists at :: at in w'.locks && w'.locks[at] == l {
        var at :| at in w.locks && w.locks[at] == l;
        assert at in w'.locks;
      }
    }
  }

  lemma StatusIsLocked(j: Job, w: World, rv: nat)
    requires rv < |w.edits|
    requires Unlocked(j, w) || (exists a :: Unwritten(j, w, a)) || (exists a, k :: Written(j, w, a, k))
    ensures w.edits[rv].ip.Some? ==> Address(j.want.vni, w.edits[rv].ip.value) in w.locks
  {
  }

  lemma OthersLockGrows(j: Job, locks0: map<Address, IPLock>, locks: map<Address, IPLock>, at: Address, l: IPLock)
    requires StoreGrew(j, locks0, locks) && at !in locks && at.vni < 0x20_0000
    requires l.name == MakeName(at) && l.ownerName != j.name && !IsOwn(j, l)
    requires forall b :: b in locks ==> locks[b].uid != l.uid
    ensures StoreGrew(j, locks0, locks[at := l])
    ensures NoneOwn(j, locks) ==> NoneOwn(j, locks[at := l])
    ensures Full(j, locks) ==> Full(j, locks[at := l])
    ensures forall a :: OwnsJust(j, locks, a) ==>
                          OwnsJust(j, locks[at := l], a) && UidAt(j, locks[at := l], a) == UidAt(j, locks, a)
  {
    hide MakeName, Pickable;
    var locks' := locks[at := l];
    if Full(j, locks) {
      forall y ensures !Available(j, locks', y) {
        assert !Available(j, locks, y);
      }
    }
  }

  lemma OtherLockOk(j: Job, locks0: map<Address, IPLock>, w: World, a: Action)
    requires Inv(j, locks0, w) && a.OtherLock? && Enabled(j, w, a)
    ensures Inv(j, locks0, Apply(j, w, a))
  {
    hide MakeName, OwnsJust, Full, StoreGrew, NoneOwn;
    var w' := Apply(j, w, a);
    OthersLockGrows(j, locks0, w.locks, a.at, IPLock(MakeName(a.at), a.uid, a.created, a.name, a.owner));
    if w.pc.Fetched? {
      StatusIsLocked(j, w, w.pc.rv);
    }
    MoreLocksOk(j, w, w');
    if Unlocked(j, w) {
      assert Unlocked(j, w');
    } else if b :| Unwritten(j, w, b) {
      assert Unwritten(j, w', b);
    } else {
      var b, k :| Written(j, w, b, k);
      assert Written(j, w', b, k);
    }
  }

  lemma CreateOk(j: Job, locks0: map<Address, IPLock>, w: World, a: Action)
    requires Inv(j, locks0, w) && a.Create? && Enabled(j, w, a)
    ensures Inv(j, locks0, Apply(j, w, a))
  {
    hide MakeName, Pickable;
    assert Available(j, w.locks, a.addr);
    assert Unlocked(j, w);
    assert Unwritten(j, Apply(j, w, a), a.addr);
  }

  lemma UpdateOk(j: Job, locks0: map<Address, IPLock>, w: World)
    requires Inv(j, locks0, w) && Enabled(j, w, Update)
    ensures Inv(j, locks0, Apply(j, w, Update))
  {
    hide StoreGrew, OwnsJust;
    var a :| Unwritten(j, w, a);
    assert Written(j, Apply(j, w, Update), a, |w.edits|);
  }

  lemma ShowsOk(j: Job, locks0: map<Address, IPLock>, w: World, a: Action)
    requires Inv(j, locks0, w) && Enabled(j, w, a)
    requires a.OtherEdit? || a.ShowEdit? || a.ShowLock? || a.Begin? || a.List? || a.Fetch? || a.PickFails?
    ensures Inv(j, locks0, Apply(j, w, a))
  {
    hide StoreGrew, OwnsJust, NoneOwn, GetNamed, Full;
    var w' := Apply(j, w, a);
    if Unlocked(j, w) {
      assert Unlocked(j, w');
    } else if b :| Unwritten(j, w, b) {
      assert Unwritten(j, w', b);
    } else {
      var b, k :| Written(j, w, b, k);
      assert Written(j, w', b, k);
    }
  }

  lemma StepKeepsInv(j: Job, locks0: map<Address, IPLock>, w: World, a: Action)
    requires Inv(j, locks0, w) && Enabled(j, w, a) && !Shadowed(j, locks0)
    ensures Inv(j, locks0, Apply(j, w, a))
    ensures a.Decide? ==> PlanAt(j, w).release == []
  {
    match a
    case OtherLock(_, _, _, _, _) => OtherLockOk(j, locks0, w, a);
    case Create(_, _, _) => CreateOk(j, locks0, w, a);
    case Update => UpdateOk(j, locks0, w);
    case Decide =>
      hide Written, Unlocked, Unwritten, Apply;
      if Unlocked(j, w) {
        DecideUnlocked(j, locks0, w);
      } else {
        NotUnwritten(j, w);
        var b, k :| Written(j, w, b, k);
        DecideWritten(j, locks0, w, b, k);
      }
    case _ => ShowsOk(j, locks0, w, a);
  }

  lemma NotUnwritten(j: Job, w: World)
    requires w.pc.Fetched?
    ensures !exists a :: Unwritten(j, w, a)
  {
  }

  lemma StartIsOk(j: Job, w: World)
    requires Start(j, w)
    ensures Inv(j, w.locks, w)
  {
    hide MakeName;
    assert Unlocked(j, w);
  }

  lemma {:induction false} RunsKeepInv(j: Job, run: seq<World>, acts: seq<Action>, i: nat)
    requires IsRun(j, run, acts) && Start(j, run[0]) && !Shadowed(j, run[0].locks) && i < |run|
    ensures Inv(j, run[0].locks, run[i])
  {
    hide Start, Shadowed, Inv;
    if i == 0 {
      StartIsOk(j, run[0]);
    } else {
      RunsKeepInv(j, run, acts, i - 1);
      assert Follows(j, run[i - 1], acts[i - 1], run[i - 1 + 1]);
      StepKeepsInv(j, run[0].locks, run[i - 1], acts[i - 1]);
    }
  }

  ghost predicate OneOwn(j: Job, w: World) {
    forall a, b :: a in w.locks && b in w.locks && IsOwn(j, w.locks[a]) && IsOwn(j, w.locks[b]) ==> a == b
  }

  /**
   However late locks and revisions are seen, an edition of an attachment gets at most one lock, none is
   released, and a status with an address names that lock: provided no shadow is around at the start.
   */
  lemma OneLockPerEdition(j: Job, run: seq<World>, acts: seq<Action>, i: nat)
    requires IsRun(j, run, acts) && Start(j, run[0]) && !Shadowed(j, run[0].locks) && i < |run|
    ensures OneOwn(j, run[i])
    ensures forall rv :: 0 <= rv < |run[i].edits| && run[i].edits[rv] != NO_STATUS ==>
              && run[i].edits[rv].ip.Some? && Address(j.want.vni, run[i].edits[rv].ip.value) in run[i].locks
              && var l := run[i].locks[Address(j.want.vni, run[i].edits[rv].ip.value)];
                 IsOwn(j, l) && run[i].edits[rv].lockUid == Some(l.uid)
    ensures i < |acts| && acts[i].Decide? && Enabled(j, run[i], Decide) ==> PlanAt(j, run[i]).release == []
  {
    RunsKeepInv(j, run, acts, i);
    if i < |acts| {
      hide Inv, Shadowed;
      assert Follows(j, run[i], acts[i], run[i + 1]);
      StepKeepsInv(j, run[0].locks, run[i], acts[i]);
    }
  }
}
