/**
 Which locks an attachment keeps and which it releases, from analyzeAndRelease and ParsedLockList
 of staging/kos/pkg/controllers/ipam/ipam.go.
 */
module ReleasePlan {
  import opened Options
  import opened UInt32
  import opened LockNames

  /** A lock object of the API server.  The owner is its controlling network attachment. */
  datatype IPLock = IPLock(name: string, uid: nat, created: int, ownerName: nat, ownerUid: nat)

  datatype ParsedLock = ParsedLock(at: Address, uid: nat, created: int, ownerUid: nat) {
    function Equal(that: ParsedLock): bool {
      at.vni == that.at.vni && uid == that.uid && created == that.created && at.addr == that.at.addr
    }

    /** The older lock is the better one; of two equally old ones, the one with the greater UID. */
    predicate IsBetterThan(that: ParsedLock) {
      if created != that.created then created < that.created else uid > that.uid
    }
  }

  function NewParsedLock(l: IPLock): Option<ParsedLock> {
    match Parsed(l.name)
    case Some(at) => Some(ParsedLock(at, l.uid, l.created, l.ownerUid))
    case None => None
  }

  /** What of an attachment matters here; `lockUid` and `ip` come from its status. */
  datatype Attachment = Attachment(uid: nat, lockUid: Option<nat>, ip: Option<uint32>)

  /** The VNI and address range of the attachment's subnet; all zero for a vanished attachment. */
  datatype Wanted = Wanted(vni: uint32, base: uint32, last: uint32)

  /** The addresses that may be drawn: of five or more, all but the first two and the last. */
  predicate Pickable(want: Wanted, x: uint32) {
    && want.base <= x <= want.last
    && (want.last >= want.base + 4 ==> x != want.base && x != want.base + 1 && x != want.last)
  }

  predicate Slips(att: Option<Attachment>, p: ParsedLock) {
    att.Some? && p.ownerUid != att.value.uid
  }

  predicate IsWanted(want: Wanted, p: ParsedLock) {
    p.at.vni == want.vni && want.base <= p.at.addr <= want.last
  }

  /** The attachment's status names this lock and its address. */
  predicate IsStatusLock(att: Option<Attachment>, p: ParsedLock) {
    att.Some? && att.value.lockUid == Some(p.uid) && att.value.ip == Some(p.at.addr)
  }

  // ---- Lists of parsed locks ----

  function Best(list: seq<ParsedLock>): (best: ParsedLock)
    requires list != []
  {
    if |list| == 1 then list[0]
    else
      var b := Best(list[..|list| - 1]);
      if list[|list| - 1].IsBetterThan(b) then list[|list| - 1] else b
  }

  predicate Has(list: seq<ParsedLock>, p: ParsedLock) {
    exists i :: 0 <= i < |list| && list[i].Equal(p)
  }

  function RemFunc(list: seq<ParsedLock>, p: ParsedLock): seq<ParsedLock> {
    if list == [] then []
    else if list[0].Equal(p) then list[1..]
    else [list[0]] + RemFunc(list[1..], p)
  }

  function AddFunc(list: seq<ParsedLock>, p: ParsedLock): seq<ParsedLock> {
    if Has(list, p) then list else list + [p]
  }

  function AddListFunc(list: seq<ParsedLock>, more: seq<ParsedLock>): seq<ParsedLock>
    decreases |more|
  {
    if more == [] then list else AddListFunc(AddFunc(list, more[0]), more[1..])
  }

  predicate DistinctUids(list: seq<ParsedLock>) {
    forall i, j :: 0 <= i < j < |list| ==> list[i].uid != list[j].uid
  }

  // ---- Sorting the considered locks ----

  datatype Sorted = Sorted(
    slippers: seq<ParsedLock>, undesired: seq<ParsedLock>, usable: seq<ParsedLock>, inStatus: Option<ParsedLock>)

  function Consider(att: Option<Attachment>, want: Wanted, so: Sorted, l: IPLock): Sorted {
    match NewParsedLock(l)
    case None => so
    case Some(p) =>
      if Slips(att, p) then so.(slippers := so.slippers + [p])
      else if !IsWanted(want, p) then so.(undesired := so.undesired + [p])
      else so.(usable := so.usable + [p], inStatus := if IsStatusLock(att, p) then Some(p) else so.inStatus)
  }

  function ConsiderAll(att: Option<Attachment>, want: Wanted, locks: seq<IPLock>): Sorted {
    if locks == [] then Sorted([], [], [], None)
    else Consider(att, want, ConsiderAll(att, want, locks[..|locks| - 1]), locks[|locks| - 1])
  }

  /** The locks of well-formed name, in order. */
  function ParsedLocks(locks: seq<IPLock>): seq<ParsedLock> {
    if locks == [] then []
    else
      var init := ParsedLocks(locks[..|locks| - 1]);
      match NewParsedLock(locks[|locks| - 1])
      case None => init
      case Some(p) => init + [p]
  }

  /** The lock named by the status is fetched when no considered lock is about its address. */
  predicate ShouldFetch(att: Option<Attachment>, owned: seq<IPLock>) {
    att.Some? && att.value.ip.Some? && forall p :: p in ParsedLocks(owned) ==> p.at.addr != att.value.ip.value
  }

  /** `fetched` is what a direct Get would answer, kept if its owner has the attachment's name. */
  function Considered(att: Option<Attachment>, owned: seq<IPLock>, fetched: Option<IPLock>): seq<IPLock> {
    if ShouldFetch(att, owned) && fetched.Some? then owned + [fetched.value] else owned
  }

  /** `inStatus` and `forStatus` are the lock kept: already in the status, or to be written there. */
  datatype Plan = Plan(
    slippers: seq<ParsedLock>, inStatus: Option<ParsedLock>, forStatus: Option<ParsedLock>, release: seq<ParsedLock>)

  function PlanOf(att: Option<Attachment>, so: Sorted): Plan {
    if att.None? then Plan(so.slippers, None, None, AddListFunc(so.undesired, so.usable))
    else if so.inStatus.Some? then
      Plan(so.slippers, so.inStatus, None, AddListFunc(so.undesired, RemFunc(so.usable, so.inStatus.value)))
    else if so.usable != [] then
      var best := Best(so.usable);
      Plan(so.slippers, None, Some(best), AddListFunc(so.undesired, RemFunc(so.usable, best)))
    else Plan(so.slippers, None, None, AddListFunc(so.undesired, []))
  }

  function Analyze(att: Option<Attachment>, want: Wanted, owned: seq<IPLock>, fetched: Option<IPLock>): Plan {
    PlanOf(att, ConsiderAll(att, want, Considered(att, owned, fetched)))
  }

  function Kept(plan: Plan): seq<ParsedLock> {
    if plan.inStatus.Some? then [plan.inStatus.value]
    else if plan.forStatus.Some? then [plan.forStatus.value]
    else []
  }

  /** The source's loops: one over the owned locks with its record of addresses, one for the best lock. */
  method AnalyzeLocks(att: Option<Attachment>, want: Wanted, owned: seq<IPLock>, fetched: Option<IPLock>)
    returns (plan: Plan)
    ensures plan == Analyze(att, want, owned, fetched)
  {
    var so := Sorted([], [], [], None);
    var considered: set<uint32> := {};
    for i := 0 to |owned|
      invariant so == ConsiderAll(att, want, owned[..i])
      invariant forall a :: a in considered <==> exists p :: p in ParsedLocks(owned[..i]) && p.at.addr == a
    {
      assert owned[..i + 1][..i] == owned[..i];
      var parsed := NewParsedLock(owned[i]);
      if parsed.Some? {
        assert parsed.value in ParsedLocks(owned[..i + 1]);
        considered := considered + {parsed.value.at.addr};
      }
      so := Consider(att, want, so, owned[i]);
    }
    assert owned[..|owned|] == owned;
    if att.Some? && att.value.ip.Some? {
      if att.value.ip.value !in considered {
        assert ShouldFetch(att, owned);
        if fetched.Some? {
          assert (owned + [fetched.value])[..|owned|] == owned;
          so := Consider(att, want, so, fetched.value);
        }
      }
    }
    var forStatus: Option<ParsedLock> := None;
    var usableToRelease := [];
    if att.None? {
      usableToRelease := so.usable;
    } else if so.inStatus.Some? {
      usableToRelease := RemFunc(so.usable, so.inStatus.value);
    } else if |so.usable| > 0 {
      var best := BestOf(so.usable);
      forStatus := Some(best);
      usableToRelease := RemFunc(so.usable, best);
    }
    plan := Plan(so.slippers, if att.None? then None else so.inStatus, forStatus,
                 AddListFunc(so.undesired, usableToRelease));
  }

  method BestOf(list: seq<ParsedLock>) returns (best: ParsedLock)
    requires list != []
    ensures best == Best(list)
  {
    best := list[0];
    for i := 1 to |list|
      invariant best == Best(list[..i])
    {
      assert list[..i + 1][..i] == list[..i];
      if list[i].IsBetterThan(best) {
        best := list[i];
      }
    }
    assert list[..|list|] == list;
  }

  // ---- Best ----

  lemma {:induction false} BestIsUnbeaten(list: seq<ParsedLock>)
    requires list != []
    ensures Best(list) in list
    ensures forall p :: p in list ==> Best(list).created <= p.created
    ensures forall p :: p in list && p.created == Best(list).created ==> p.uid <= Best(list).uid
  {
    if |list| > 1 {
      BestIsUnbeaten(list[..|list| - 1]);
      assert list == list[..|list| - 1] + [list[|list| - 1]];
    }
  }

  /** The order of the list does not matter when UIDs tell locks apart. */
  lemma BestIgnoresOrder(list: seq<ParsedLock>, list': seq<ParsedLock>)
    requires list != [] && multiset(list) == multiset(list')
    requires DistinctUids(list)
    ensures list' != [] && Best(list) == Best(list')
  {
    assert list[0] in multiset(list');
    BestIsUnbeaten(list);
    BestIsUnbeaten(list');
    var b, b' := Best(list), Best(list');
    assert b in multiset(list') && b' in multiset(list);
    assert b.created == b'.created;
    assert b.uid == b'.uid;
  }

  // ---- The plan is a partition ----

  function Parts(so: Sorted): multiset<ParsedLock> {
    multiset(so.slippers) + multiset(so.undesired) + multiset(so.usable)
  }

  lemma ConsiderAdds(att: Option<Attachment>, want: Wanted, so: Sorted, l: IPLock, p: ParsedLock)
    requires NewParsedLock(l) == Some(p)
    ensures Parts(Consider(att, want, so, l)) == Parts(so) + multiset{p}
  {
    hide NewParsedLock, Slips, IsWanted, IsStatusLock;
    assert multiset(so.slippers + [p]) == multiset(so.slippers) + multiset{p};
    assert multiset(so.undesired + [p]) == multiset(so.undesired) + multiset{p};
    assert multiset(so.usable + [p]) == multiset(so.usable) + multiset{p};
  }

  lemma ConsiderSkips(att: Option<Attachment>, want: Wanted, so: Sorted, l: IPLock)
    requires NewParsedLock(l).None?
    ensures Consider(att, want, so, l) == so
  {
  }

  lemma NoParts()
    ensures Parts(Sorted([], [], [], None)) == multiset{}
  {
  }

  lemma {:induction false} SortedIsPartition(att: Option<Attachment>, want: Wanted, locks: seq<IPLock>)
    ensures Parts(ConsiderAll(att, want, locks)) == multiset(ParsedLocks(locks))
  {
    hide NewParsedLock, Parts, Consider;
    if locks == [] {
      NoParts();
    } else {
      var init, l := locks[..|locks| - 1], locks[|locks| - 1];
      SortedIsPartition(att, want, init);
      match NewParsedLock(l)
      case None => ConsiderSkips(att, want, ConsiderAll(att, want, init), l);
      case Some(p) => ConsiderAdds(att, want, ConsiderAll(att, want, init), l, p);
    }
  }

  lemma {:induction false} SortedContents(att: Option<Attachment>, want: Wanted, locks: seq<IPLock>)
    ensures var so := ConsiderAll(att, want, locks);
            && (forall p :: p in so.slippers ==> Slips(att, p))
            && (forall p :: p in so.undesired ==> !Slips(att, p) && !IsWanted(want, p))
            && (forall p :: p in so.usable ==> !Slips(att, p) && IsWanted(want, p))
            && (so.inStatus.Some? ==> so.inStatus.value in so.usable && IsStatusLock(att, so.inStatus.value))
            && (so.inStatus.None? ==> forall p :: p in so.usable ==> !IsStatusLock(att, p))
  {
    if locks != [] {
      SortedContents(att, want, locks[..|locks| - 1]);
    }
  }

  lemma {:induction false} RemFuncRemoves(list: seq<ParsedLock>, p: ParsedLock)
    requires DistinctUids(list) && p in list
    ensures multiset(RemFunc(list, p)) == multiset(list) - multiset{p}
    ensures DistinctUids(RemFunc(list, p))
  {
    hide DistinctUids;
    var rest := list[1..];
    RestDistinct(list);
    assert list == [list[0]] + rest;
    if list[0].Equal(p) {
      SameUidSame(list, p);
    } else {
      RemFuncRemoves(rest, p);
      PrependDistinct(list, RemFunc(rest, p));
    }
  }

  lemma RestDistinct(list: seq<ParsedLock>)
    requires DistinctUids(list) && list != []
    ensures DistinctUids(list[1..])
  {
  }

  lemma PrependDistinct(list: seq<ParsedLock>, left: seq<ParsedLock>)
    requires DistinctUids(list) && list != [] && DistinctUids(left)
    requires multiset(left) <= multiset(list[1..])
    ensures DistinctUids([list[0]] + left)
  {
    forall j | 0 <= j < |left| ensures list[0].uid != left[j].uid {
      assert left[j] in multiset(left);
      assert left[j] in list[1..];
    }
  }

  lemma SameUidSame(list: seq<ParsedLock>, p: ParsedLock)
    requires DistinctUids(list) && p in list && list[0].uid == p.uid
    ensures list[0] == p
  {
    var i :| 0 <= i < |list| && list[i] == p;
    assert i == 0;
  }

  lemma {:induction false} AddListFuncAppends(list: seq<ParsedLock>, more: seq<ParsedLock>)
    requires forall i, j :: 0 <= i < |list| && 0 <= j < |more| ==> list[i].uid != more[j].uid
    requires DistinctUids(more)
    ensures AddListFunc(list, more) == list + more
    decreases |more|
  {
    if more == [] {
      assert list + more == list;
    } else {
      assert !Has(list, more[0]);
      AddListFuncAppends(list + [more[0]], more[1..]);
      assert list + more == list + [more[0]] + more[1..];
    }
  }

  predicate NoRepeats(list: seq<ParsedLock>) {
    forall i, j :: 0 <= i < j < |list| ==> !list[i].Equal(list[j])
  }

  /** A list added to another gives all elements of both, and none twice if the other has none twice. */
  lemma {:induction false} AddListFuncUnites(list: seq<ParsedLock>, more: seq<ParsedLock>)
    ensures var all := AddListFunc(list, more);
            && list <= all && (forall p :: p in all ==> p in list || p in more)
            && (forall p :: p in more ==> exists i :: 0 <= i < |all| && all[i].Equal(p))
            && (NoRepeats(list) ==> NoRepeats(all))
    decreases |more|
  {
    var all := AddListFunc(list, more);
    if more != [] {
      var next := AddFunc(list, more[0]);
      AddListFuncUnites(next, more[1..]);
      var i :| 0 <= i < |next| && next[i].Equal(more[0]);
      assert all[i].Equal(more[0]);
      assert more == [more[0]] + more[1..];
    }
  }

  ghost predicate UidsTell(s: multiset<ParsedLock>) {
    forall p, q :: p in s && q in s && p.uid == q.uid ==> p == q && s[p] == 1
  }

  lemma {:induction false} DistinctFromMultiset(list: seq<ParsedLock>)
    requires UidsTell(multiset(list))
    ensures DistinctUids(list)
  {
    forall i, j | 0 <= i < j < |list| ensures list[i].uid != list[j].uid {
      if list[i].uid == list[j].uid {
        assert list[i] in multiset(list) && list[j] in multiset(list);
        Twice(list, i, j);
      }
    }
  }

  lemma Twice(list: seq<ParsedLock>, i: nat, j: nat)
    requires i < j < |list| && list[i] == list[j]
    ensures multiset(list)[list[i]] >= 2
  {
    assert list == list[..j] + [list[j]] + list[j + 1..];
    assert list[i] == list[..j][i];
    assert list[i] in multiset(list[..j]);
  }

  lemma {:induction false} TellsFromDistinct(list: seq<ParsedLock>)
    requires DistinctUids(list)
    ensures UidsTell(multiset(list))
  {
    if list != [] {
      var init, last := list[..|list| - 1], list[|list| - 1];
      TellsFromDistinct(init);
      assert list == init + [last];
      assert last !in init;
    }
  }

  lemma PartsTell(a: multiset<ParsedLock>, b: multiset<ParsedLock>, c: multiset<ParsedLock>)
    requires UidsTell(a + b + c)
    ensures UidsTell(b) && UidsTell(c)
    ensures forall p, q :: p in b && q in c ==> p.uid != q.uid
  {
    var s := a + b + c;
    forall p, q | p in b && q in c ensures p.uid != q.uid {
      assert p in s && q in s;
      assert p == q ==> s[p] >= 2;
    }
    forall p, q | p in b && q in b && p.uid == q.uid ensures p == q && b[p] == 1 {
      assert p in s && q in s;
    }
    forall p, q | p in c && q in c && p.uid == q.uid ensures p == q && c[p] == 1 {
      assert p in s && q in s;
    }
  }

  /**
   The plan neither loses nor repeats a lock: the locks considered are the time slippers, the locks
   to release and the lock kept.
   */
  lemma PlanIsPartition(att: Option<Attachment>, want: Wanted, owned: seq<IPLock>, fetched: Option<IPLock>)
    requires DistinctUids(ParsedLocks(Considered(att, owned, fetched)))
    ensures var plan := Analyze(att, want, owned, fetched);
            && multiset(plan.slippers) + multiset(plan.release) + multiset(Kept(plan))
               == multiset(ParsedLocks(Considered(att, owned, fetched)))
            && (forall p :: p in plan.slippers ==> Slips(att, p))
            && (forall p :: p in plan.release ==> !Slips(att, p))
  {
    hide Best, ConsiderAll, ParsedLocks, DistinctUids, UidsTell, PlanOf, Considered, Slips;
    var locks := Considered(att, owned, fetched);
    var so := ConsiderAll(att, want, locks);
    SortedIsPartition(att, want, locks);
    SortedContents(att, want, locks);
    TellsFromDistinct(ParsedLocks(locks));
    PartsTell(multiset(so.slippers), multiset(so.undesired), multiset(so.usable));
    DistinctFromMultiset(so.usable);
    PlanSplits(att, so);
    forall p | p in PlanOf(att, so).release ensures !Slips(att, p) {
      InSum(PlanOf(att, so).release, Kept(PlanOf(att, so)), so.undesired, so.usable, p);
    }
    var a, r, k := multiset(so.slippers), multiset(PlanOf(att, so).release), multiset(Kept(PlanOf(att, so)));
    assert a + r + k == a + (r + k);
    assert a + (multiset(so.undesired) + multiset(so.usable)) == a + multiset(so.undesired) + multiset(so.usable);
  }

  lemma InSum(a: seq<ParsedLock>, b: seq<ParsedLock>, c: seq<ParsedLock>, d: seq<ParsedLock>, p: ParsedLock)
    requires multiset(a) + multiset(b) == multiset(c) + multiset(d) && p in a
    ensures p in c || p in d
  {
    assert p in multiset(a) + multiset(b);
    assert p in multiset(c) || p in multiset(d);
  }

  lemma PlanSplits(att: Option<Attachment>, so: Sorted)
    requires DistinctUids(so.usable)
    requires forall p, q :: p in multiset(so.undesired) && q in multiset(so.usable) ==> p.uid != q.uid
    requires so.inStatus.Some? ==> so.inStatus.value in so.usable
    ensures PlanOf(att, so).slippers == so.slippers
    ensures multiset(PlanOf(att, so).release) + multiset(Kept(PlanOf(att, so)))
            == multiset(so.undesired) + multiset(so.usable)
  {
    hide Best, DistinctUids, AddListFunc, RemFunc;
    var plan := PlanOf(att, so);
    if att.None? {
      Appended(so.undesired, so.usable);
      assert Kept(plan) == [];
    } else if so.inStatus.Some? {
      ReleasedAllBut(so.undesired, so.usable, so.inStatus.value);
      assert multiset(Kept(plan)) == multiset{so.inStatus.value};
    } else if so.usable != [] {
      BestIsUnbeaten(so.usable);
      ReleasedAllBut(so.undesired, so.usable, Best(so.usable));
      assert multiset(Kept(plan)) == multiset{Best(so.usable)};
    } else {
      EmptyDistinct();
      Appended(so.undesired, []);
    }
  }

  lemma EmptyDistinct()
    ensures DistinctUids([])
  {
  }

  lemma Appended(undesired: seq<ParsedLock>, usable: seq<ParsedLock>)
    requires DistinctUids(usable)
    requires forall p, q :: p in multiset(undesired) && q in multiset(usable) ==> p.uid != q.uid
    ensures multiset(AddListFunc(undesired, usable)) == multiset(undesired) + multiset(usable)
  {
    forall i, j | 0 <= i < |undesired| && 0 <= j < |usable| ensures undesired[i].uid != usable[j].uid {
      assert undesired[i] in multiset(undesired) && usable[j] in multiset(usable);
    }
    AddListFuncAppends(undesired, usable);
  }

  lemma ReleasedAllBut(undesired: seq<ParsedLock>, usable: seq<ParsedLock>, kept: ParsedLock)
    requires DistinctUids(usable) && kept in usable
    requires forall p, q :: p in multiset(undesired) && q in multiset(usable) ==> p.uid != q.uid
    ensures multiset(AddListFunc(undesired, RemFunc(usable, kept))) + multiset{kept}
            == multiset(undesired) + multiset(usable)
  {
    RemFuncRemoves(usable, kept);
    assert kept in multiset(usable);
    assert forall q :: q in multiset(RemFunc(usable, kept)) ==> q in multiset(usable);
    Appended(undesired, RemFunc(usable, kept));
  }

  /**
   What is kept: for a vanished attachment nothing; otherwise a lock the attachment owns and its
   subnet covers, and it is the status lock whenever the status names such a lock among those
   considered, or else the oldest such lock, of several the one with the greatest UID.
   */
  lemma KeptIsRight(att: Option<Attachment>, want: Wanted, owned: seq<IPLock>, fetched: Option<IPLock>)
    ensures var plan := Analyze(att, want, owned, fetched);
            var parsed := ParsedLocks(Considered(att, owned, fetched));
            && (att.None? ==> Kept(plan) == [] && plan.slippers == [])
            && (forall p :: p in Kept(plan) ==> p in parsed && !Slips(att, p) && IsWanted(want, p))
            && (plan.inStatus.Some? ==> IsStatusLock(att, plan.inStatus.value))
            && ((exists p :: p in parsed && !Slips(att, p) && IsWanted(want, p) && IsStatusLock(att, p))
                ==> plan.inStatus.Some?)
            && ((exists p :: p in parsed && !Slips(att, p) && IsWanted(want, p)) && att.Some?
                ==> Kept(plan) != [])
            && (plan.forStatus.Some? ==>
                  forall p :: p in parsed && !Slips(att, p) && IsWanted(want, p) ==>
                          plan.forStatus.value.created <= p.created
                          && (plan.forStatus.value.created == p.created ==> p.uid <= plan.forStatus.value.uid))
  {
    hide Best, ConsiderAll, ParsedLocks, Slips, IsWanted, IsStatusLock, AddListFunc, RemFunc;
    var locks := Considered(att, owned, fetched);
    var so := ConsiderAll(att, want, locks);
    SortedIsPartition(att, want, locks);
    SortedContents(att, want, locks);
    if so.usable != [] {
      BestIsUnbeaten(so.usable);
    }
    forall p ensures p in ParsedLocks(locks) <==> p in so.slippers || p in so.undesired || p in so.usable {
      InParts(so.slippers, so.undesired, so.usable, ParsedLocks(locks), p);
    }
    if att.None? {
      NoSlippers(att, so.slippers);
    }
  }

  lemma NoSlippers(att: Option<Attachment>, slippers: seq<ParsedLock>)
    requires att.None? && forall p :: p in slippers ==> Slips(att, p)
    ensures slippers == []
  {
    FirstIn(slippers);
  }

  lemma FirstIn(list: seq<ParsedLock>)
    ensures list != [] ==> list[0] in list
  {
  }

  lemma InParts(a: seq<ParsedLock>, b: seq<ParsedLock>, c: seq<ParsedLock>, all: seq<ParsedLock>, p: ParsedLock)
    requires multiset(a) + multiset(b) + multiset(c) == multiset(all)
    ensures p in all <==> p in a || p in b || p in c
  {
    assert p in all <==> p in multiset(all);
    assert p in a <==> p in multiset(a);
    assert p in b <==> p in multiset(b);
    assert p in c <==> p in multiset(c);
  }
}
