/** The other direction: a shadow at the start lets some run lock two addresses for one edition. */
module IpamShadow {
  import opened Arithmetic
  import opened Options
  import opened UInt32
  import opened LockNames
  import opened ReleasePlan
  import opened IpamAnticipation
  import opened IpamPass
  import opened IpamOneLock

  lemma ReachSelf(j: Job, w: World)
    ensures Reachable(j, w, w)
  {
    var acts: seq<Action> := [];
    assert IsRun(j, [w], acts) && [w][|acts|] == w;
  }

  lemma ReachStep(j: Job, w0: World, w: World, a: Action)
    requires Reachable(j, w0, w) && Enabled(j, w, a)
    ensures Reachable(j, w0, Apply(j, w, a))
  {
    hide Enabled, Apply;
    var run, acts :| IsRun(j, run, acts) && run[0] == w0 && run[|acts|] == w;
    var run', acts' := run + [Apply(j, w, a)], acts + [a];
    forall i | 0 <= i < |acts'| ensures Follows(j, run'[i], acts'[i], run'[i + 1]) {
      assert i < |acts| ==> Follows(j, run[i], acts[i], run[i + 1]);
    }
    assert IsRun(j, run', acts') && run'[0] == w0 && run'[|acts'|] == Apply(j, w, a);
  }

  lemma SomeFreshUid(w: World) returns (u: nat)
    ensures FreshUid(w, u)
  {
    var uids := set at | at in w.locks :: w.locks[at].uid;
    u := NumberAbove(uids);
    forall at | at in w.locks ensures w.locks[at].uid != u {
      assert w.locks[at].uid in uids;
    }
  }

  lemma {:induction false} SomeListing(j: Job, w: World, seen: set<Address>) returns (owned: seq<IPLock>)
    requires StoreOk(j, w.locks)
    ensures IsListing(j, w.(seen := seen), owned)
    decreases |seen|
  {
    hide MakeName;
    if seen == {} {
      owned := [];
    } else {
      var at :| at in seen;
      var rest := SomeListing(j, w, seen - {at});
      if at in w.locks && w.locks[at].ownerName == j.name {
        owned := rest + [w.locks[at]];
        forall l ensures l in owned <==> l in rest || l == w.locks[at] {
        }
      } else {
        owned := rest;
      }
    }
  }

  lemma ListingIsFromStore(j: Job, w: World, owned: seq<IPLock>)
    requires IsListing(j, w, owned)
    ensures FromStore(w.locks, owned) && Distinct(owned)
    ensures forall l :: l in owned ==> l.ownerName == j.name
  {
  }

  /** A pass that considers no own lock and finds no anticipation goes on to pick an address. */
  lemma PassPicks(j: Job, w0: World, w: World, owned: seq<IPLock>)
    requires Reachable(j, w0, w) && w.pc.Idle? && w.view < |w.edits| && StoreOk(j, w.locks)
    requires Refreshed(j, w.nadat, w.view).ip.None?
    requires IsListing(j, w, owned) && forall l :: l in owned ==> !IsOwn(j, l)
    requires w.edits[w.view].ip.None? || !ShouldFetch(Some(AttAt(j, w, w.view)), owned)
    ensures Reachable(j, w0, w.(pc := Picking(w.view), nadat := Refreshed(j, w.nadat, w.view)))
  {
    hide StoreOk, IsListing, Reachable, Analyze, NewParsedLock, ParsedLocks;
    ReachStep(j, w0, w, Begin);
    var w1 := w.(pc := Read(w.view));
    SameListing(j, w, w1, owned);
    ReachStep(j, w0, w1, List(owned));
    var w2 := w.(pc := Listed(w.view, owned));
    ReachStep(j, w0, w2, Fetch);
    var w3 := w.(pc := Fetched(w.view, owned, GetNamed(j, w.locks, w.edits[w.view].ip)));
    ListingIsFromStore(j, w, owned);
    PlanWithout(j, w3, AttAt(j, w, w.view), owned);
    NothingReleased(w.locks);
    ReachStep(j, w0, w3, Decide);
  }

  lemma SameListing(j: Job, w: World, w': World, owned: seq<IPLock>)
    requires IsListing(j, w, owned) && w'.seen == w.seen && w'.locks == w.locks
    ensures IsListing(j, w', owned)
  {
  }

  /** A first pass locks an address and writes it; then somebody edits the attachment and that shows. */
  lemma FirstLock(j: Job, w0: World, x: uint32, uid: nat) returns (w: World)
    requires Start(j, w0) && Available(j, w0.locks, x) && FreshUid(w0, uid)
    ensures Reachable(j, w0, w) && w.pc.Idle? && w.view == 2 && |w.edits| == 3 && w.seen == w0.seen
    ensures w.edits[2] == Status(Some(x), Some(uid)) && w.nadat.anticipating == Some(0)
            && w.nadat.anticipated == Some(1)
    ensures var at := Address(j.want.vni, x);
            w.locks == w0.locks[at := IPLock(MakeName(at), uid, 0, j.name, j.uid)]
  {
    hide StoreOk, IsListing, Reachable, MakeName;
    ReachSelf(j, w0);
    var owned := SomeListing(j, w0, w0.seen);
    assert w0.(seen := w0.seen) == w0;
    NoOwnListed(j, w0, owned);
    PassPicks(j, w0, w0, owned);
    var w1 := w0.(pc := Picking(0));
    ReachStep(j, w0, w1, Create(x, uid, 0));
    var w2 := Apply(j, w1, Create(x, uid, 0));
    ReachStep(j, w0, w2, Update);
    var w3 := Apply(j, w2, Update);
    ReachStep(j, w0, w3, OtherEdit);
    var w4 := Apply(j, w3, OtherEdit);
    ReachStep(j, w0, w4, ShowEdit(2));
    w := Apply(j, w4, ShowEdit(2));
  }

  lemma NoOwnListed(j: Job, w: World, owned: seq<IPLock>)
    requires IsListing(j, w, owned) && forall at :: at in w.seen && at in w.locks ==> !IsOwn(j, w.locks[at])
    ensures forall l :: l in owned ==> !IsOwn(j, l)
  {
  }

  /** The shadow is listed and about the same address, so the lock in the status is not fetched. */
  lemma ShadowBlocksFetch(j: Job, w: World, owned: seq<IPLock>, at: Address, att: Attachment)
    requires StoreOk(j, w.locks) && IsListing(j, w, owned)
    requires at in w.seen && at in w.locks && w.locks[at].ownerName == j.name && att.ip == Some(at.addr)
    ensures !ShouldFetch(Some(att), owned)
  {
    hide StoreOk, NewParsedLock, DistinctUids;
    ListingIsFromStore(j, w, owned);
    StoredList(j, w.locks, owned);
    StoredParses(j, w.locks, at);
    var i :| 0 <= i < |owned| && owned[i] == w.locks[at];
    assert ParsedLocks(owned)[i] in ParsedLocks(owned);
  }

  lemma ShadowLetsTwo(j: Job, w0: World) returns (w: World)
    requires Start(j, w0) && Shadowed(j, w0.locks)
    ensures Reachable(j, w0, w) && !OneOwn(j, w)
  {
    hide IsListing, Reachable, MakeName, StoreOk;
    var x, y :| x != y && Available(j, w0.locks, x) && Available(j, w0.locks, y) && ShadowAt(j, w0.locks, x);
    var sh :| sh in w0.locks && sh.addr == x && sh.vni != j.want.vni && w0.locks[sh].ownerName == j.name;
    var uid := SomeFreshUid(w0);
    var w1 := FirstLock(j, w0, x, uid);
    var own := Address(j.want.vni, x);
    StoreStaysOk(j, w0, own, w1.locks[own]);
    ReachStep(j, w0, w1, ShowLock(sh));
    var w2 := w1.(seen := w1.seen + {sh});
    var owned := SomeListing(j, w2, w2.seen);
    assert w2.(seen := w2.seen) == w2;
    NoOwnListed(j, w2, owned);
    ShadowBlocksFetch(j, w2, owned, sh, AttAt(j, w2, 2));
    PassPicks(j, w0, w2, owned);
    var w3 := w2.(pc := Picking(2), nadat := NO_DATA);
    var uid2 := SomeFreshUid(w3);
    ReachStep(j, w0, w3, Create(y, uid2, 0));
    w := Apply(j, w3, Create(y, uid2, 0));
    TwoOwn(j, w, own, Address(j.want.vni, y));
  }

  lemma TwoOwn(j: Job, w: World, a: Address, b: Address)
    requires a != b && a in w.locks && b in w.locks && IsOwn(j, w.locks[a]) && IsOwn(j, w.locks[b])
    ensures !OneOwn(j, w)
  {
  }

  lemma StoreStaysOk(j: Job, w: World, at: Address, l: IPLock)
    requires StoreOk(j, w.locks) && at.vni < 0x20_0000 && FreshUid(w, l.uid) && l.name == MakeName(at)
    ensures StoreOk(j, w.locks[at := l])
  {
    hide MakeName;
  }

  /** An edition gets at most one lock in every run exactly when no shadow is around at its start. */
  lemma OneLockIff(j: Job, w0: World)
    requires Start(j, w0)
    ensures (forall w :: Reachable(j, w0, w) ==> OneOwn(j, w)) <==> !Shadowed(j, w0.locks)
  {
    hide Start, OneOwn, Shadowed;
    if Shadowed(j, w0.locks) {
      var w := ShadowLetsTwo(j, w0);
    } else {
      forall w | Reachable(j, w0, w) ensures OneOwn(j, w) {
        var run, acts :| IsRun(j, run, acts) && run[0] == w0 && run[|acts|] == w;
        OneLockPerEdition(j, run, acts, |acts|);
      }
    }
  }

  /** Such a start: the subnet has 0.0.0.10 to 0.0.0.20 on VNI 5, an older edition has 0.0.0.12 locked on VNI 7. */
  lemma ShadowExample() returns (j: Job, w0: World, w: World)
    ensures Start(j, w0) && Shadowed(j, w0.locks) && Reachable(j, w0, w) && !OneOwn(j, w)
  {
    hide MakeName, Reachable;
    j := Job(1, 2, Wanted(5, 10, 20), 0);
    var at := Address(7, 12);
    w0 := World([NO_STATUS], map[at := IPLock(MakeName(at), 9, 0, 1, 3)], 0, {}, NO_DATA, Idle);
    assert ShadowAt(j, w0.locks, 12) && Available(j, w0.locks, 12) && Available(j, w0.locks, 13);
    w := ShadowLetsTwo(j, w0);
  }
}
