/** What one pass makes of the locks it considers. */
module IpamPass {
  import opened Options
  import opened LockNames
  import opened ReleasePlan
  import opened IpamAnticipation

  ghost predicate FromStore(locks: map<Address, IPLock>, list: seq<IPLock>) {
    forall l :: l in list ==> exists at :: at in locks && locks[at] == l
  }

  predicate Distinct(list: seq<IPLock>) {
    forall i, k :: 0 <= i < k < |list| ==> list[i] != list[k]
  }

  lemma {:induction false} AllParse(list: seq<IPLock>)
    requires forall l :: l in list ==> NewParsedLock(l).Some?
    ensures |ParsedLocks(list)| == |list|
    ensures forall i :: 0 <= i < |list| ==> ParsedLocks(list)[i] == NewParsedLock(list[i]).value
  {
    hide NewParsedLock;
    if list != [] {
      AllParse(list[..|list| - 1]);
    }
  }

  lemma StoredParses(j: Job, locks: map<Address, IPLock>, at: Address)
    requires StoreOk(j, locks) && at in locks
    ensures NewParsedLock(locks[at]) == Some(ParsedLock(at, locks[at].uid, locks[at].created, locks[at].ownerUid))
  {
    hide MakeName, Parsed;
    NameRoundTrip(at);
  }

  lemma StoredList(j: Job, locks: map<Address, IPLock>, list: seq<IPLock>)
    requires StoreOk(j, locks) && FromStore(locks, list) && Distinct(list)
    ensures |ParsedLocks(list)| == |list| && DistinctUids(ParsedLocks(list))
    ensures forall i :: 0 <= i < |list| ==> NewParsedLock(list[i]) == Some(ParsedLocks(list)[i])
    ensures forall p :: p in ParsedLocks(list) ==>
              p.at in locks && locks[p.at] in list && NewParsedLock(locks[p.at]) == Some(p)
              && p.ownerUid == locks[p.at].ownerUid
  {
    hide MakeName, Parsed, NewParsedLock;
    forall l | l in list ensures NewParsedLock(l).Some? {
      var at :| at in locks && locks[at] == l;
      StoredParses(j, locks, at);
    }
    AllParse(list);
    var ps := ParsedLocks(list);
    forall i | 0 <= i < |list| ensures ps[i].at in locks && locks[ps[i].at] == list[i] && ps[i].uid == list[i].uid
                                       && ps[i].ownerUid == list[i].ownerUid {
      assert list[i] in list;
      var at :| at in locks && locks[at] == list[i];
      StoredParses(j, locks, at);
    }
  }

  /** What is considered: locks of the store, each once. */
  lemma ConsideredOk(j: Job, w: World, att: Attachment, owned: seq<IPLock>)
    requires StoreOk(j, w.locks) && FromStore(w.locks, owned) && Distinct(owned)
    ensures var list := Considered(Some(att), owned, GetNamed(j, w.locks, att.ip));
            FromStore(w.locks, list) && Distinct(list)
  {
    hide MakeName, Parsed, NewParsedLock, ParsedLocks, DistinctUids;
    var f := GetNamed(j, w.locks, att.ip);
    StoredList(j, w.locks, owned);
    if ShouldFetch(Some(att), owned) && f.Some? {
      StoredParses(j, w.locks, Address(j.want.vni, att.ip.value));
      forall i | 0 <= i < |owned| ensures owned[i] != f.value {
        assert ParsedLocks(owned)[i] in ParsedLocks(owned);
      }
    }
  }

  /** With no own lock considered nothing is kept or released. */
  lemma PlanWithout(j: Job, w: World, att: Attachment, owned: seq<IPLock>)
    requires StoreOk(j, w.locks) && FromStore(w.locks, owned) && Distinct(owned) && att.uid == j.uid
    requires forall l :: l in Considered(Some(att), owned, GetNamed(j, w.locks, att.ip)) ==> !IsOwn(j, l)
    ensures var plan := Analyze(Some(att), j.want, owned, GetNamed(j, w.locks, att.ip));
            plan.release == [] && plan.inStatus.None? && plan.forStatus.None?
  {
    hide Considered, Analyze, ParsedLocks, DistinctUids, NewParsedLock, MakeName, GetNamed, IsWanted, IsStatusLock;
    var f := GetNamed(j, w.locks, att.ip);
    var plan, list := Analyze(Some(att), j.want, owned, f), Considered(Some(att), owned, f);
    ConsideredOk(j, w, att, owned);
    StoredList(j, w.locks, list);
    PlanIsPartition(Some(att), j.want, owned, f);
    KeptIsRight(Some(att), j.want, owned, f);
    forall p | p in ParsedLocks(list) ensures Slips(Some(att), p) {
      assert !IsOwn(j, w.locks[p.at]);
    }
    Heads(plan.release, Kept(plan));
    forall p | p in plan.release ensures p in ParsedLocks(list) {
      InWhole(plan.slippers, plan.release, Kept(plan), ParsedLocks(list), p);
    }
  }

  lemma Heads(a: seq<ParsedLock>, b: seq<ParsedLock>)
    ensures a != [] ==> a[0] in a
    ensures b != [] ==> b[0] in b
  {
  }

  lemma InWhole(a: seq<ParsedLock>, b: seq<ParsedLock>, c: seq<ParsedLock>, all: seq<ParsedLock>, p: ParsedLock)
    requires multiset(a) + multiset(b) + multiset(c) == multiset(all) && p in b
    ensures p in all
  {
    assert p in multiset(b);
    assert p in multiset(all);
  }

  /** The one own lock considered is kept, and nothing is released. */
  lemma PlanWith(j: Job, w: World, att: Attachment, owned: seq<IPLock>, at: Address)
    requires StoreOk(j, w.locks) && FromStore(w.locks, owned) && Distinct(owned) && att.uid == j.uid
    requires at in w.locks && IsOwn(j, w.locks[at]) && at.vni == j.want.vni && j.want.base <= at.addr <= j.want.last
    requires forall b :: b in w.locks && IsOwn(j, w.locks[b]) ==> b == at
    requires w.locks[at] in Considered(Some(att), owned, GetNamed(j, w.locks, att.ip))
    ensures var plan := Analyze(Some(att), j.want, owned, GetNamed(j, w.locks, att.ip));
            var p := ParsedLock(at, w.locks[at].uid, w.locks[at].created, j.uid);
            && plan.release == []
            && plan.inStatus == (if att.ip == Some(at.addr) && att.lockUid == Some(p.uid) then Some(p) else None)
            && plan.forStatus == (if plan.inStatus.Some? then None else Some(p))
  {
    hide Considered, Analyze, ParsedLocks, DistinctUids, NewParsedLock, MakeName, GetNamed;
    var f := GetNamed(j, w.locks, att.ip);
    var plan, list := Analyze(Some(att), j.want, owned, f), Considered(Some(att), owned, f);
    var p := ParsedLock(at, w.locks[at].uid, w.locks[at].created, j.uid);
    ConsideredOk(j, w, att, owned);
    StoredList(j, w.locks, list);
    StoredParses(j, w.locks, at);
    PlanIsPartition(Some(att), j.want, owned, f);
    KeptIsRight(Some(att), j.want, owned, f);
    assert p in ParsedLocks(list) by {
      var i :| 0 <= i < |list| && list[i] == w.locks[at];
    }
    forall q | q in ParsedLocks(list) && !Slips(Some(att), q) ensures q == p {
      assert IsOwn(j, w.locks[q.at]);
    }
    KeepsOrGives(Some(att), j.want, owned, f);
    forall q | q in Kept(plan) ensures q == p {
    }
    Heads(plan.release, Kept(plan));
    OnlyOnce(plan.slippers, plan.release, Kept(plan), ParsedLocks(list), p);
  }

  lemma KeepsOrGives(att: Option<Attachment>, want: Wanted, owned: seq<IPLock>, fetched: Option<IPLock>)
    ensures Analyze(att, want, owned, fetched).inStatus.Some? ==> Analyze(att, want, owned, fetched).forStatus.None?
  {
    hide ConsiderAll, Considered, Best, AddListFunc, RemFunc;
  }

  lemma OnlyOnce(slip: seq<ParsedLock>, release: seq<ParsedLock>, kept: seq<ParsedLock>, all: seq<ParsedLock>,
                 p: ParsedLock)
    requires multiset(slip) + multiset(release) + multiset(kept) == multiset(all) && DistinctUids(all)
    requires p in kept && forall q :: q in release ==> (q in all ==> q == p)
    ensures release == []
  {
    forall q | q in release ensures q == p {
      InWhole(slip, release, kept, all, q);
    }
    TellsFromDistinct(all);
    assert p in multiset(kept);
    assert p in multiset(all);
    assert multiset(release)[p] + multiset(kept)[p] <= multiset(all)[p];
    Heads(release, kept);
  }

  /** The lock is of the attachment's edition and its subnet. */
  predicate IsUsable(j: Job, locks: map<Address, IPLock>, at: Address)
    requires at in locks
  {
    IsOwn(j, locks[at]) && at.vni == j.want.vni && j.want.base <= at.addr <= j.want.last
  }

  function ParsedAt(locks: map<Address, IPLock>, at: Address): ParsedLock
    requires at in locks
  {
    ParsedLock(at, locks[at].uid, locks[at].created, locks[at].ownerUid)
  }

  /** Another's locks are not released, an own one is just when it is not the one kept. */
  lemma ReleasedIsOwn(j: Job, w: World, at: Address)
    requires StoreOk(j, w.locks) && w.pc.Fetched? && w.pc.rv < |w.edits|
    requires FromStore(w.locks, w.pc.owned) && Distinct(w.pc.owned)
    requires w.pc.fetched == GetNamed(j, w.locks, w.edits[w.pc.rv].ip)
    requires at in w.locks && (IsOwn(j, w.locks[at]) ==> w.locks[at] in w.pc.owned)
    ensures at in Released(w.locks, PlanAt(j, w).release)
            <==> !IsOwn(j, w.locks[at]) || ParsedAt(w.locks, at) in Kept(PlanAt(j, w))
    ensures IsOwn(j, w.locks[at]) ==>
              ParsedAt(w.locks, at) in ParsedLocks(Considered(Some(AttAt(j, w, w.pc.rv)), w.pc.owned, w.pc.fetched))
  {
    hide Considered, Analyze, ParsedLocks, DistinctUids, NewParsedLock, MakeName, GetNamed, IsWanted, IsStatusLock;
    var att, f := AttAt(j, w, w.pc.rv), w.pc.fetched;
    var plan, list := PlanAt(j, w), Considered(Some(att), w.pc.owned, f);
    var p := ParsedAt(w.locks, at);
    ConsideredOk(j, w, att, w.pc.owned);
    StoredList(j, w.locks, list);
    StoredParses(j, w.locks, at);
    PlanIsPartition(Some(att), j.want, w.pc.owned, f);
    forall q | q in plan.release ensures q in ParsedLocks(list) && !Slips(Some(att), q) {
      InWhole(plan.slippers, plan.release, Kept(plan), ParsedLocks(list), q);
    }
    if IsOwn(j, w.locks[at]) {
      OwnedIsConsidered(Some(att), w.pc.owned, f, w.locks[at], p);
      OneOrOther(plan.slippers, plan.release, Kept(plan), ParsedLocks(list), p);
      assert p !in plan.slippers;
    }
  }

  lemma OwnedIsConsidered(att: Option<Attachment>, owned: seq<IPLock>, f: Option<IPLock>, l: IPLock, p: ParsedLock)
    requires l in owned && NewParsedLock(l) == Some(p)
    ensures p in ParsedLocks(Considered(att, owned, f))
  {
    hide NewParsedLock;
    IsParsed(Considered(att, owned, f), l, p);
  }

  lemma {:induction false} IsParsed(list: seq<IPLock>, l: IPLock, p: ParsedLock)
    requires l in list && NewParsedLock(l) == Some(p)
    ensures p in ParsedLocks(list)
  {
    hide NewParsedLock;
    var init := list[..|list| - 1];
    assert list == init + [list[|list| - 1]];
    if l in init {
      IsParsed(init, l, p);
    }
  }

  lemma OneOrOther(a: seq<ParsedLock>, b: seq<ParsedLock>, c: seq<ParsedLock>, all: seq<ParsedLock>, p: ParsedLock)
    requires multiset(a) + multiset(b) + multiset(c) == multiset(all) && DistinctUids(all) && p in all && p !in a
    ensures p in b <==> p !in c
  {
    TellsFromDistinct(all);
    assert p in multiset(all);
    assert multiset(all)[p] == 1;
    assert p in a <==> p in multiset(a);
    assert p in b <==> p in multiset(b);
    assert p in c <==> p in multiset(c);
  }

  lemma KeptIsUsable(j: Job, w: World, q: ParsedLock)
    requires StoreOk(j, w.locks) && w.pc.Fetched? && w.pc.rv < |w.edits|
    requires FromStore(w.locks, w.pc.owned) && Distinct(w.pc.owned)
    requires w.pc.fetched == GetNamed(j, w.locks, w.edits[w.pc.rv].ip) && q in Kept(PlanAt(j, w))
    ensures q.at in w.locks && q == ParsedAt(w.locks, q.at) && IsUsable(j, w.locks, q.at)
  {
    hide Considered, Analyze, ParsedLocks, DistinctUids, NewParsedLock, MakeName, GetNamed, IsStatusLock;
    var att := AttAt(j, w, w.pc.rv);
    ConsideredOk(j, w, att, w.pc.owned);
    StoredList(j, w.locks, Considered(Some(att), w.pc.owned, w.pc.fetched));
    KeptIsRight(Some(att), j.want, w.pc.owned, w.pc.fetched);
    StoredParses(j, w.locks, q.at);
  }

  /**
   A pass that is shown all locks of the edition cleans up: of these at most one stays, and one does if any can be
   used: that of the status, or else the oldest.  Nobody else's lock is touched.
   */
  lemma PassLeavesOne(j: Job, w: World)
    requires StoreOk(j, w.locks) && w.pc.Fetched? && w.pc.rv < |w.edits|
    requires FromStore(w.locks, w.pc.owned) && Distinct(w.pc.owned)
    requires w.pc.fetched == GetNamed(j, w.locks, w.edits[w.pc.rv].ip)
    requires forall at :: at in w.locks && IsOwn(j, w.locks[at]) ==> w.locks[at] in w.pc.owned
    ensures var locks, locks', status := w.locks, Apply(j, w, Decide).locks, w.edits[w.pc.rv];
            && (forall at :: at in locks' ==> at in locks && locks'[at] == locks[at])
            && (forall at :: at in locks && !IsOwn(j, locks[at]) ==> at in locks')
            && (forall a, b :: a in locks' && b in locks' && IsOwn(j, locks'[a]) && IsOwn(j, locks'[b]) ==> a == b)
            && (forall at :: at in locks' && IsOwn(j, locks'[at]) ==> IsUsable(j, locks, at))
            && ((exists at :: at in locks && IsUsable(j, locks, at))
                ==> exists at :: at in locks' && IsOwn(j, locks'[at]))
            && (forall at | at in locks && IsUsable(j, locks, at) ::
                  status == Status(Some(at.addr), Some(locks[at].uid)) ==> at in locks')
            && (forall a, b | a in locks' && IsOwn(j, locks'[a]) && b in locks && IsUsable(j, locks, b) ::
                  status == Status(Some(a.addr), Some(locks[a].uid)) || locks[a].created <= locks[b].created)
  {
    hide Considered, Analyze, ParsedLocks, DistinctUids, NewParsedLock, MakeName, GetNamed;
    var att, plan, locks := AttAt(j, w, w.pc.rv), PlanAt(j, w), w.locks;
    KeptIsRight(Some(att), j.want, w.pc.owned, w.pc.fetched);
    KeepsOrGives(Some(att), j.want, w.pc.owned, w.pc.fetched);
    forall at | at in locks
      ensures at in Released(locks, plan.release) <==> !IsOwn(j, locks[at]) || ParsedAt(locks, at) in Kept(plan)
      ensures IsOwn(j, locks[at]) ==>
                ParsedAt(locks, at) in ParsedLocks(Considered(Some(att), w.pc.owned, w.pc.fetched)) {
      ReleasedIsOwn(j, w, at);
    }
    forall q | q in Kept(plan) ensures q.at in locks && q == ParsedAt(locks, q.at) && IsUsable(j, locks, q.at) {
      KeptIsUsable(j, w, q);
    }
    if at :| at in locks && IsUsable(j, locks, at) {
      assert Kept(plan)[0] in Kept(plan);
    }
  }
}
