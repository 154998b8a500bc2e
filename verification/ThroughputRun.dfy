/** A whole run of the load driver's threads, from RunThread of staging/kos/cmd/attachment-tput-driver/main.go. */
module ThroughputRuns {
  import opened Arithmetic
  import opened LockNames
  import opened Options
  import opened UInt32
  import opened Shares
  import opened ThroughputDriver

  /** The name of an attachment object before it is spelled out. */
  datatype Name = Name(vni: uint32, index: uint32)

  /** The `count`th name index of a slot. */
  function IndexOf(size: nat, slot: nat, count: nat): uint32 {
    Wrap(slot + 1 + size * count)
  }

  class VirtNet {
    const id: uint32
    const size: nat
    const nextIndex: array<uint32>

    constructor (id: uint32, size: nat)
      ensures this.id == id && this.size == size && fresh(nextIndex) && nextIndex.Length == size
      ensures forall j :: 0 <= j < size ==> nextIndex[j] == IndexOf(size, j, 0)
      ensures forall j :: 0 <= j < size && j < 0xFFFF_FFFF ==> nextIndex[j] == j + 1
    {
      this.id, this.size := id, size;
      var slots := new uint32[size](_ => 0);
      nextIndex := slots;
      new;
      for j := 0 to size
        invariant forall k :: 0 <= k < j ==> nextIndex[k] == IndexOf(size, k, 0)
      {
        nextIndex[j] := Wrap(j + 1);
      }
    }
  }

  ghost predicate Separate(nets: seq<VirtNet>) {
    && (forall i :: 0 <= i < |nets| ==> nets[i].nextIndex.Length == nets[i].size)
    && (forall i, j :: 0 <= i < j < |nets| ==> nets[i].nextIndex != nets[j].nextIndex)
  }

  ghost predicate IsWork(nets: seq<VirtNet>, work: seq<SlotRef>) {
    && (forall i :: 0 <= i < |work| ==> work[i].net < |nets| && work[i].slot < nets[work[i].net].size)
    && NoDuplicates(work)
  }

  function Arrays(nets: seq<VirtNet>): set<array<uint32>> {
    set i | 0 <= i < |nets| :: nets[i].nextIndex
  }

  /**
   What a thread's `i`th create is called: it goes round its slots, and a slot's index grows by the network's size.
   */
  function NameOf(nets: seq<VirtNet>, work: seq<SlotRef>, i: nat): Name
    requires work != [] && work[i % |work|].net < |nets|
  {
    var net, slot := nets[work[i % |work|].net], work[i % |work|].slot;
    Name(net.id, IndexOf(net.size, slot, i / |work|))
  }

  lemma NextIndex(size: nat, slot: nat, count: nat)
    ensures Wrap(IndexOf(size, slot, count) + Wrap(size)) == IndexOf(size, slot, count + 1)
  {
    assert slot + 1 + size * (count + 1) == slot + 1 + size * count + size;
    WrapAdds(slot + 1 + size * count, size);
  }

  lemma WrapAdds(x: nat, y: nat)
    ensures Wrap(Wrap(x) + Wrap(y)) == Wrap(x + y)
  {
  }

  /** The slot a delete is about moves on; the others stay. */
  ghost predicate MovedOn(nets: seq<VirtNet>, work: seq<SlotRef>, iDelete: nat)
    requires Separate(nets) && IsWork(nets, work)
    reads Arrays(nets)
  {
    forall p :: 0 <= p < |work| ==>
                  nets[work[p].net].nextIndex[work[p].slot]
                  == IndexOf(nets[work[p].net].size, work[p].slot, Share(iDelete, |work|, p))
  }

  /** With deletes at most a round behind, the slot's index is the one for this create. */
  lemma NextIsNamed(nets: seq<VirtNet>, work: seq<SlotRef>, i: nat, iDelete: nat)
    requires Separate(nets) && IsWork(nets, work) && work != [] && MovedOn(nets, work, iDelete)
    requires iDelete <= i < iDelete + |work|
    ensures var at := work[i % |work|];
            NameOf(nets, work, i) == Name(nets[at.net].id, nets[at.net].nextIndex[at.slot])
  {
    hide Share, IndexOf;
    ShareInWindow(i, iDelete, |work|);
  }

  /**
   Creates run ahead of deletes by at most the number of slots.  `stop(k)` says that step k finds the stop
   channel closed, after which nothing is created any more, and `abort(k)` that it finds a thread count of
   stoppers, upon which the thread ends.  Whether a call succeeds does not matter here.
   */
  method RunThread(nets: seq<VirtNet>, work: seq<SlotRef>, n: nat, justCreate: bool, stop: nat -> bool,
                   abort: nat -> bool)
    returns (names: seq<Name>)
    requires Separate(nets) && IsWork(nets, work) && (n > 0 ==> work != [])
    requires MovedOn(nets, work, 0)
    modifies Arrays(nets)
    ensures |names| <= n && forall i :: 0 <= i < |names| ==> names[i] == NameOf(nets, work, i)
    ensures (forall k :: !stop(k) && !abort(k)) ==> |names| == if justCreate && n > |work| then |work| else n
    ensures forall v, s :: 0 <= v < |nets| && 0 <= s < nets[v].size && SlotRef(v, s) !in work
                           ==> nets[v].nextIndex[s] == old(nets[v].nextIndex[s])
  {
    hide Share, IndexOf, NameOf, Wrap, NoDuplicates;
    names := [];
    var iCreate, iDelete, step, createAllowed := 0, 0, 0, true;
    while iDelete < n
      invariant iDelete <= n && iCreate == |names| <= n
      invariant createAllowed ==> iDelete <= iCreate <= iDelete + |work|
      invariant (forall k :: !stop(k) && !abort(k)) ==> createAllowed
      invariant justCreate ==> iDelete == 0
      invariant MovedOn(nets, work, iDelete)
      invariant forall i :: 0 <= i < |names| ==> names[i] == NameOf(nets, work, i)
      invariant forall v, s :: 0 <= v < |nets| && 0 <= s < nets[v].size && SlotRef(v, s) !in work
                               ==> nets[v].nextIndex[s] == old(nets[v].nextIndex[s])
      decreases n - iCreate + n - iDelete
    {
      if abort(step) {
        break;
      }
      if createAllowed && stop(step) {
        createAllowed := false;
      }
      step := step + 1;
      if createAllowed && iCreate < iDelete + |work| && iCreate < n {
        var at := work[iCreate % |work|];
        NextIsNamed(nets, work, iCreate, iDelete);
        names := names + [Name(nets[at.net].id, nets[at.net].nextIndex[at.slot])];
        iCreate := iCreate + 1;
      } else if justCreate {
        break;
      } else {
        var at := work[iDelete % |work|];
        var net := nets[at.net];
        ghost var before := net.nextIndex[at.slot];
        NextIndex(net.size, at.slot, Share(iDelete, |work|, iDelete % |work|));
        net.nextIndex[at.slot] := Wrap(net.nextIndex[at.slot] + Wrap(net.size));
        forall p | 0 <= p < |work|
          ensures nets[work[p].net].nextIndex[work[p].slot]
                  == IndexOf(nets[work[p].net].size, work[p].slot, Share(iDelete + 1, |work|, p))
        {
          ShareStep(iDelete, |work|, p);
          OnceOnly(work, p, iDelete % |work|);
        }
        iDelete := iDelete + 1;
      }
    }
  }

  lemma OnceOnly(work: seq<SlotRef>, p: nat, q: nat)
    requires NoDuplicates(work) && p < |work| && q < |work|
    ensures work[p] == work[q] ==> p == q
  {
  }

  // ---- All threads together ----

  lemma DuplicatesCount<T>(s: seq<T>, i: nat, j: nat)
    requires i < j < |s| && s[i] == s[j]
    ensures multiset(s)[s[i]] >= 2
  {
    assert s == s[..j] + [s[j]] + s[j + 1..];
    assert s[..j][i] in multiset(s[..j]);
  }

  lemma {:induction false} CountsWithoutDuplicates<T>(s: seq<T>, x: T)
    requires NoDuplicates(s)
    ensures multiset(s)[x] <= 1
  {
    if s != [] {
      var init := s[..|s| - 1];
      assert s == init + [s[|s| - 1]];
      CountsWithoutDuplicates(init, x);
      assert s[|s| - 1] !in init;
    }
  }

  /** A shuffled list of all slots still has each slot once. */
  lemma ShuffledOnce(sizes: seq<nat>, all: seq<SlotRef>)
    requires multiset(all) == multiset(EverySlot(sizes))
    ensures NoDuplicates(all)
    ensures forall r :: r in all <==> r.net < |sizes| && r.slot < sizes[r.net]
  {
    EverySlotOnce(sizes);
    forall i, j | 0 <= i < j < |all| ensures all[i] != all[j] {
      CountsWithoutDuplicates(EverySlot(sizes), all[i]);
      if all[i] == all[j] {
        DuplicatesCount(all, i, j);
      }
    }
    forall r ensures r in all <==> r in EverySlot(sizes) {
      assert r in all <==> r in multiset(all);
      assert r in EverySlot(sizes) <==> r in multiset(EverySlot(sizes));
    }
  }

  function Sizes(nets: seq<VirtNet>): seq<nat> {
    seq(|nets|, i requires 0 <= i < |nets| => nets[i].size)
  }

  /** The threads are given the slots of all networks, in any order. */
  ghost predicate Spread(nets: seq<VirtNet>, threads: nat, all: seq<SlotRef>) {
    multiset(all) == multiset(EverySlot(Sizes(nets))) && 1 <= threads <= |all|
  }

  /** Where a slot that two threads' lists have stands in the whole list tells thread and place. */
  lemma PlaceIsUnique(threads: nat, all: seq<SlotRef>, t: nat, p: nat, u: nat, q: nat)
    requires t < threads && u < threads && NoDuplicates(all)
    requires p < Share(|all|, threads, t) && q < Share(|all|, threads, u)
    requires Selected(t, threads, all)[p] == Selected(u, threads, all)[q]
    ensures t == u && p == q
  {
    hide Share;
    ShareInRange(|all|, threads, t, p);
    ShareInRange(|all|, threads, u, q);
    assert all[t + p * threads] == all[u + q * threads];
    var k := t + p * threads;
    assert k == u + q * threads;
    QuotientIs(k, threads, p, t);
    QuotientIs(k, threads, q, u);
  }

  /** A thread's share is work it can run on, all of it its own. */
  lemma SelectedIsWork(nets: seq<VirtNet>, threads: nat, all: seq<SlotRef>, t: nat)
    requires Spread(nets, threads, all) && t < threads
    ensures IsWork(nets, Selected(t, threads, all)) && Selected(t, threads, all) != []
  {
    hide Share, EverySlot;
    var work := Selected(t, threads, all);
    ShuffledOnce(Sizes(nets), all);
    forall p | 0 <= p < |work| ensures work[p] in all {
      ShareInRange(|all|, threads, t, p);
    }
    forall p, q | 0 <= p < q < |work| ensures work[p] != work[q] {
      if work[p] == work[q] {
        PlaceIsUnique(threads, all, t, p, t, q);
      }
    }
    EachHasWork(|all|, threads, t);
  }

  /** The index of a thread's `i`th create stays within 32 bits. */
  predicate Fits(nets: seq<VirtNet>, work: seq<SlotRef>, i: nat)
    requires work != [] && work[i % |work|].net < |nets|
  {
    work[i % |work|].slot + 1 + nets[work[i % |work|].net].size * (i / |work|) <= LAST
  }

  lemma IndexTells(size: nat, slot: nat, count: nat, slot': nat, count': nat)
    requires slot < size && slot' < size
    requires slot + 1 + size * count <= LAST && slot' + 1 + size * count' <= LAST
    requires IndexOf(size, slot, count) == IndexOf(size, slot', count')
    ensures slot == slot' && count == count'
  {
    var x := slot + size * count;
    assert x == slot' + size * count';
    QuotientIs(x, size, count, slot);
    QuotientIs(x, size, count', slot');
  }

  /**
   No two creates of a whole run, by whichever threads, use the same name: provided the networks have
   distinct numbers and no index outgrows 32 bits.
   */
  lemma NamesAreUnique(nets: seq<VirtNet>, threads: nat, all: seq<SlotRef>, t: nat, i: nat, u: nat, k: nat)
    requires Spread(nets, threads, all) && t < threads && u < threads
    requires forall v, w :: 0 <= v < w < |nets| ==> nets[v].id != nets[w].id
    requires var mine := Selected(t, threads, all);
             mine != [] && mine[i % |mine|].net < |nets| && Fits(nets, mine, i)
    requires var yours := Selected(u, threads, all);
             yours != [] && yours[k % |yours|].net < |nets| && Fits(nets, yours, k)
    ensures NameOf(nets, Selected(t, threads, all), i) == NameOf(nets, Selected(u, threads, all), k) ==>
            t == u && i == k
  {
    hide Share, EverySlot, NameOf, Selected, NoDuplicates, Fits;
    var mine, yours := Selected(t, threads, all), Selected(u, threads, all);
    if NameOf(nets, mine, i) == NameOf(nets, yours, k) {
      SelectedIsWork(nets, threads, all, t);
      SelectedIsWork(nets, threads, all, u);
      NameTells(nets, mine, i, yours, k);
      ShuffledOnce(Sizes(nets), all);
      PlaceIsUnique(threads, all, t, i % |mine|, u, k % |yours|);
      SameDivision(i, k, |mine|);
    }
  }

  /** A name tells slot and round. */
  lemma NameTells(nets: seq<VirtNet>, mine: seq<SlotRef>, i: nat, yours: seq<SlotRef>, k: nat)
    requires IsWork(nets, mine) && IsWork(nets, yours) && mine != [] && yours != []
    requires forall v, w :: 0 <= v < w < |nets| ==> nets[v].id != nets[w].id
    requires Fits(nets, mine, i) && Fits(nets, yours, k) && NameOf(nets, mine, i) == NameOf(nets, yours, k)
    ensures mine[i % |mine|] == yours[k % |yours|] && i / |mine| == k / |yours|
  {
    hide IndexOf, NoDuplicates;
    var at, at' := mine[i % |mine|], yours[k % |yours|];
    assert at.net == at'.net;
    IndexTells(nets[at.net].size, at.slot, i / |mine|, at'.slot, k / |yours|);
  }

  lemma SameDivision(i: nat, k: nat, n: nat)
    requires n > 0 && i / n == k / n && i % n == k % n
    ensures i == k
  {
    assert i == i / n * n + i % n;
  }

  // ---- A whole run ----

  /** Every slot's index is where it starts. */
  ghost predicate Fresh(nets: seq<VirtNet>)
    requires Separate(nets)
    reads Arrays(nets)
  {
    forall v, j :: 0 <= v < |nets| && 0 <= j < nets[v].size ==> nets[v].nextIndex[j] == IndexOf(nets[v].size, j, 0)
  }

  lemma FreshIsUnmoved(nets: seq<VirtNet>, work: seq<SlotRef>)
    requires Separate(nets) && IsWork(nets, work) && Fresh(nets)
    ensures MovedOn(nets, work, 0)
  {
    hide Share, IndexOf;
    forall p | 0 <= p < |work| ensures Share(0, |work|, p) == 0 {
      ShareOfNothing(|work|, p);
    }
  }

  /** No slot is in two threads' shares. */
  lemma SharesAreDisjoint(nets: seq<VirtNet>, threads: nat, all: seq<SlotRef>, t: nat, u: nat)
    requires Spread(nets, threads, all) && t < threads && u < threads && t != u
    ensures forall r :: r in Selected(t, threads, all) ==> r !in Selected(u, threads, all)
  {
    hide Share, EverySlot, Selected;
    ShuffledOnce(Sizes(nets), all);
    forall p, q | 0 <= p < |Selected(t, threads, all)| && 0 <= q < |Selected(u, threads, all)|
      ensures Selected(t, threads, all)[p] != Selected(u, threads, all)[q] {
      if Selected(t, threads, all)[p] == Selected(u, threads, all)[q] {
        PlaceIsUnique(threads, all, t, p, u, q);
      }
    }
  }

  /** All indices of the names fit 32 bits. */
  ghost predicate AllFit(nets: seq<VirtNet>, works: seq<seq<SlotRef>>, names: seq<seq<Name>>) {
    |works| == |names| && forall t, i :: 0 <= t < |names| && 0 <= i < |names[t]| ==>
      works[t] != [] && works[t][i % |works[t]|].net < |nets| && Fits(nets, works[t], i)
  }

  ghost predicate AllDistinct(names: seq<seq<Name>>) {
    forall t, i, u, k | 0 <= t < |names| && 0 <= i < |names[t]| && 0 <= u < |names| && 0 <= k < |names[u]| ::
      names[t][i] == names[u][k] ==> t == u && i == k
  }

  /** The names used are those of the threads' rounds through their shares. */
  ghost predicate AreNames(nets: seq<VirtNet>, threads: nat, all: seq<SlotRef>, works: seq<seq<SlotRef>>,
                           names: seq<seq<Name>>)
    requires Spread(nets, threads, all)
  {
    && |works| == |names| <= threads
    && (forall t :: 0 <= t < |works| ==>
            works[t] == Selected(t, threads, all) && IsWork(nets, works[t]) && works[t] != [])
    && (forall t, i :: 0 <= t < |names| && 0 <= i < |names[t]| ==> names[t][i] == NameOf(nets, works[t], i))
  }

  lemma NamesAreAllDistinct(nets: seq<VirtNet>, threads: nat, all: seq<SlotRef>, works: seq<seq<SlotRef>>,
                            names: seq<seq<Name>>)
    requires Spread(nets, threads, all) && AreNames(nets, threads, all, works, names) && AllFit(nets, works, names)
    requires forall v, w :: 0 <= v < w < |nets| ==> nets[v].id != nets[w].id
    ensures AllDistinct(names)
  {
    hide Spread, Selected, NameOf, Fits, IsWork;
    forall t, i, u, k | 0 <= t < |names| && 0 <= i < |names[t]| && 0 <= u < |names| && 0 <= k < |names[u]|
                        && names[t][i] == names[u][k]
      ensures t == u && i == k {
      assert works[t] == Selected(t, threads, all) && works[u] == Selected(u, threads, all);
      NamesAreUnique(nets, threads, all, t, i, u, k);
    }
  }

  lemma OneMoreThread(nets: seq<VirtNet>, threads: nat, all: seq<SlotRef>, works: seq<seq<SlotRef>>,
                      names: seq<seq<Name>>, work: seq<SlotRef>, used: seq<Name>)
    requires Spread(nets, threads, all) && AreNames(nets, threads, all, works, names) && |works| < threads
    requires work == Selected(|works|, threads, all) && IsWork(nets, work) && work != []
    requires forall i :: 0 <= i < |used| ==> used[i] == NameOf(nets, work, i)
    ensures AreNames(nets, threads, all, works + [work], names + [used])
  {
    hide Spread, Selected, NameOf, IsWork;
  }

  /** The threads keep to their quotas; with `complete`, they fill them. */
  ghost predicate InQuota(names: seq<seq<Name>>, wanted: nat, threads: nat, complete: bool)
    requires |names| <= threads
  {
    forall t :: 0 <= t < |names| ==>
      |names[t]| <= Share(wanted, threads, t) && (complete ==> |names[t]| == Share(wanted, threads, t))
  }

  /** The threads from `t` on have yet to run. */
  ghost predicate Waiting(nets: seq<VirtNet>, threads: nat, all: seq<SlotRef>, t: nat)
    requires Separate(nets)
    reads Arrays(nets)
  {
    forall u :: t <= u < threads ==>
      IsWork(nets, Selected(u, threads, all)) && MovedOn(nets, Selected(u, threads, all), 0)
  }

  lemma AllAreWaiting(nets: seq<VirtNet>, threads: nat, all: seq<SlotRef>)
    requires Separate(nets) && Fresh(nets) && Spread(nets, threads, all)
    ensures Waiting(nets, threads, all, 0)
  {
    hide Share, IndexOf, Selected, Spread, MovedOn, IsWork, Fresh;
    forall u | 0 <= u < threads
      ensures IsWork(nets, Selected(u, threads, all)) && MovedOn(nets, Selected(u, threads, all), 0) {
      SelectedIsWork(nets, threads, all, u);
      FreshIsUnmoved(nets, Selected(u, threads, all));
    }
  }

  /** One thread is given its share and its quota of the `wanted` attachments, and runs. */
  method RunOne(nets: seq<VirtNet>, wanted: nat, threads: nat, slots: array<SlotRef>, t: nat, justCreate: bool,
                stop: nat -> bool, abort: nat -> bool)
    returns (work: seq<SlotRef>, used: seq<Name>)
    requires Separate(nets) && t < threads && Spread(nets, threads, slots[..]) && Waiting(nets, threads, slots[..], t)
    modifies Arrays(nets)
    ensures slots[..] == old(slots[..]) && Waiting(nets, threads, slots[..], t + 1)
    ensures work == Selected(t, threads, slots[..]) && IsWork(nets, work) && work != []
    ensures forall i :: 0 <= i < |used| ==> used[i] == NameOf(nets, work, i)
    ensures |used| <= Share(wanted, threads, t)
    ensures !justCreate && (forall k :: !stop(k) && !abort(k)) ==> |used| == Share(wanted, threads, t)
  {
    hide Share, IndexOf, Selected, NameOf, Spread;
    SelectedIsWork(nets, threads, slots[..], t);
    var quota := Quota(wanted, threads, t);
    var mine := SelectWork(t, threads, slots);
    work := mine[..];
    used := RunThread(nets, work, quota, justCreate, stop, abort);
    forall u | t + 1 <= u < threads ensures MovedOn(nets, Selected(u, threads, slots[..]), 0) {
      var theirs := Selected(u, threads, slots[..]);
      SharesAreDisjoint(nets, threads, slots[..], u, t);
      forall p | 0 <= p < |theirs|
        ensures nets[theirs[p].net].nextIndex[theirs[p].slot] == old(nets[theirs[p].net].nextIndex[theirs[p].slot]) {
        assert theirs[p] in theirs && SlotRef(theirs[p].net, theirs[p].slot) == theirs[p];
      }
    }
  }

  method Quota(wanted: nat, threads: nat, t: nat) returns (quota: nat)
    requires t < threads
    ensures quota == Share(wanted, threads, t)
  {
    quota := (wanted + threads - 1 - t) / threads;
  }

  /** The slots of all networks, listed and shuffled twice. */
  method ShuffledSlots(sizes: seq<nat>, draw: nat -> nat, draw': nat -> nat) returns (slots: array<SlotRef>)
    ensures fresh(slots) && slots.Length == Total(sizes)
    ensures slots[..] == Shuffled(Shuffled(EverySlot(sizes), draw, 0), draw', 0)
    ensures multiset(slots[..]) == multiset(EverySlot(sizes))
  {
    hide EverySlot, Total, Shuffled;
    slots := ListSlots(sizes);
    slots := Shuffle(slots, draw);
    slots := Shuffle(slots, draw');
    ShuffledIsPermutation(EverySlot(sizes), draw, 0);
    ShuffledIsPermutation(Shuffled(EverySlot(sizes), draw, 0), draw', 0);
    SameSize(slots[..], EverySlot(sizes));
    SlotsInTotal(sizes);
  }

  /**
   From the list of slots to the last thread.  The threads share no slot, so that the order in which their steps
   are taken does not matter.  With distinct networks and indices that fit no name is used twice, and without a
   stop as many names are used as attachments are wanted.
   */
  method WholeRun(nets: seq<VirtNet>, wanted: nat, threads: nat, justCreate: bool, draw: nat -> nat, draw': nat -> nat,
                  stop: (nat, nat) -> bool, abort: (nat, nat) -> bool)
    returns (works: seq<seq<SlotRef>>, names: seq<seq<Name>>)
    requires Separate(nets) && Fresh(nets)
    requires forall v, w :: 0 <= v < w < |nets| ==> nets[v].id != nets[w].id
    modifies Arrays(nets)
    ensures |works| == |names| == if threads > Total(Sizes(nets)) then Total(Sizes(nets)) else threads
    ensures names != [] ==> exists all :: Spread(nets, |names|, all) && AreNames(nets, |names|, all, works, names)
    ensures AllFit(nets, works, names) ==> AllDistinct(names)
    ensures InQuota(names, wanted, |names|, !justCreate && forall t, k :: !stop(t, k) && !abort(t, k))
  {
    hide Share, Selected, EverySlot, Total, Spread, AreNames, InQuota, Waiting, Fresh, AllFit, AllDistinct;
    works, names := [], [];
    var slots := ShuffledSlots(Sizes(nets), draw, draw');
    var active := if threads > slots.Length then slots.Length else threads;
    ghost var complete := !justCreate && forall t, k :: !stop(t, k) && !abort(t, k);
    NothingRun(nets, wanted, active, complete);
    if active == 0 {
      return;
    }
    ghost var all := slots[..];
    SpreadIs(nets, active, all);
    NoNames(nets, active, all);
    AllAreWaiting(nets, active, all);
    for t := 0 to active
      invariant |works| == |names| == t && slots[..] == all && Waiting(nets, active, all, t)
      invariant AreNames(nets, active, all, works, names) && InQuota(names, wanted, active, complete)
    {
      var work, used := RunOne(nets, wanted, active, slots, t, justCreate,
                               (k: nat) => stop(t, k), (k: nat) => abort(t, k));
      OneMoreThread(nets, active, all, works, names, work, used);
      OneMoreInQuota(names, wanted, active, complete, used);
      works, names := works + [work], names + [used];
    }
    if AllFit(nets, works, names) {
      NamesAreAllDistinct(nets, active, all, works, names);
    }
  }

  lemma NothingRun(nets: seq<VirtNet>, wanted: nat, threads: nat, complete: bool)
    ensures AllDistinct([]) && InQuota([], wanted, threads, complete) && InQuota([], wanted, 0, complete)
  {
  }

  lemma NoNames(nets: seq<VirtNet>, threads: nat, all: seq<SlotRef>)
    requires Spread(nets, threads, all)
    ensures AreNames(nets, threads, all, [], [])
  {
    hide Spread;
  }

  lemma OneMoreInQuota(names: seq<seq<Name>>, wanted: nat, threads: nat, complete: bool, used: seq<Name>)
    requires |names| < threads && InQuota(names, wanted, threads, complete)
    requires |used| <= Share(wanted, threads, |names|) && (complete ==> |used| == Share(wanted, threads, |names|))
    ensures InQuota(names + [used], wanted, threads, complete)
  {
    hide Share;
  }

  lemma SpreadIs(nets: seq<VirtNet>, threads: nat, all: seq<SlotRef>)
    requires multiset(all) == multiset(EverySlot(Sizes(nets))) && 1 <= threads <= |all|
    ensures Spread(nets, threads, all)
  {
  }

  // ---- Spelling names out ----

  function HexChar(d: nat): char
    requires d < 16
  {
    "0123456789abcdef"[d]
  }

  /** The verb %06x, for numbers of no more digits. */
  function Hex6(n: nat): (s: string)
    requires n < 0x100_0000
    ensures |s| == 6
  {
    [HexChar(n / 0x10_0000), HexChar(n / 0x1_0000 % 16), HexChar(n / 0x1000 % 16),
     HexChar(n / 0x100 % 16), HexChar(n / 16 % 16), HexChar(n % 16)]
  }

  function Zeros(n: nat): string {
    seq(n, _ => '0')
  }

  /** The format "%06x-%0nd" with `width` for n. */
  function ObjName(width: nat, name: Name): string
    requires name.vni < 0x100_0000
  {
    var d := Decimal(name.index);
    Hex6(name.vni) + "-" + (if |d| < width then Zeros(width - |d|) + d else d)
  }

  lemma HexCharTells(d: nat, e: nat)
    requires d < 16 && e < 16 && HexChar(d) == HexChar(e)
    ensures d == e
  {
    var s := "0123456789abcdef";
    assert forall i, j :: 0 <= i < j < 16 ==> s[i] != s[j];
  }

  lemma Hex6Tells(m: nat, n: nat)
    requires m < 0x100_0000 && n < 0x100_0000 && Hex6(m) == Hex6(n)
    ensures m == n
  {
    hide HexChar;
    var s, t := Hex6(m), Hex6(n);
    assert s[0] == t[0] && s[1] == t[1] && s[2] == t[2] && s[3] == t[3] && s[4] == t[4] && s[5] == t[5];
    HexCharTells(m / 0x10_0000, n / 0x10_0000);
    HexCharTells(m / 0x1_0000 % 16, n / 0x1_0000 % 16);
    HexCharTells(m / 0x1000 % 16, n / 0x1000 % 16);
    HexCharTells(m / 0x100 % 16, n / 0x100 % 16);
    HexCharTells(m / 16 % 16, n / 16 % 16);
    HexCharTells(m % 16, n % 16);
    HexDigits(m);
    HexDigits(n);
  }

  lemma HexDigits(n: nat)
    ensures n == ((((n / 0x10_0000 * 16 + n / 0x1_0000 % 16) * 16 + n / 0x1000 % 16) * 16 + n / 0x100 % 16) * 16
                  + n / 16 % 16) * 16 + n % 16
  {
    assert n / 0x10_0000 == n / 0x1_0000 / 16;
    assert n / 0x1_0000 == n / 0x1000 / 16;
    assert n / 0x1000 == n / 0x100 / 16;
    assert n / 0x100 == n / 16 / 16;
  }

  lemma {:induction false} ZerosSpellNothing(n: nat)
    requires n > 0
    ensures Spelled(Zeros(n)) == Some(0)
  {
    if n > 1 {
      ZerosSpellNothing(n - 1);
      assert Zeros(n)[..n - 1] == Zeros(n - 1);
    }
  }

  lemma {:induction false} LeadingZeros(n: nat, s: string)
    requires Spelled(s).Some?
    ensures Spelled(Zeros(n) + s) == Spelled(s)
  {
    if n == 0 {
      assert Zeros(n) + s == s;
    } else {
      var init := s[..|s| - 1];
      assert (Zeros(n) + s)[..n + |s| - 1] == Zeros(n) + init;
      if |s| == 1 {
        ZerosSpellNothing(n);
        assert Zeros(n) + init == Zeros(n);
      } else {
        LeadingZeros(n, init);
      }
    }
  }

  /** Different names are spelled differently. */
  lemma ObjNamesAreDistinct(width: nat, a: Name, b: Name)
    requires a.vni < 0x100_0000 && b.vni < 0x100_0000 && ObjName(width, a) == ObjName(width, b)
    ensures a == b
  {
    hide Hex6, Decimal, Spelled;
    var s, t := ObjName(width, a), ObjName(width, b);
    assert s[..6] == Hex6(a.vni) && t[..6] == Hex6(b.vni);
    Hex6Tells(a.vni, b.vni);
    var d, e := Decimal(a.index), Decimal(b.index);
    assert s[7..] == if |d| < width then Zeros(width - |d|) + d else d;
    assert t[7..] == if |e| < width then Zeros(width - |e|) + e else e;
    SpelledDecimal(a.index);
    SpelledDecimal(b.index);
    if |d| < width {
      LeadingZeros(width - |d|, d);
    }
    if |e| < width {
      LeadingZeros(width - |e|, e);
    }
  }
}
