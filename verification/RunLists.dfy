/**
 Sorted lists of runs, the representation behind SortedUInt32Set.

 The external sorted set keeps one node per run.  Its key and its score are the run's first
 number and its value is the run's last number, so a list ordered by `first` carries all of it.
 */
module RunLists {
  import opened Options
  import opened UInt32

  datatype Run = Run(first: uint32, last: uint32)

  /** Node order of the external library: strictly by score.  Runs may still overlap. */
  ghost predicate Ordered(ns: seq<Run>) {
    forall i, j :: 0 <= i < j < |ns| ==> ns[i].first < ns[j].first
  }

  /** The representation invariant: no inverted run, and a missing number between any two runs. */
  ghost predicate Maximal(ns: seq<Run>) {
    && (forall i :: 0 <= i < |ns| ==> ns[i].first <= ns[i].last)
    && (forall i, j :: 0 <= i < j < |ns| ==> ns[i].last + 1 < ns[j].first)
  }

  ghost predicate Contains(ns: seq<Run>, x: int) {
    exists i :: 0 <= i < |ns| && ns[i].first <= x <= ns[i].last
  }

  ghost function Members(ns: seq<Run>): set<int> {
    set x | 0 <= x <= 0xFFFF_FFFF && Contains(ns, x)
  }

  // ---- The external library's operations, on the list of nodes ----

  /** How many nodes come before a node with key `x`. */
  function Before(ns: seq<Run>, x: uint32): (p: nat)
    ensures p <= |ns|
    ensures forall i :: 0 <= i < p ==> ns[i].first < x
    ensures p < |ns| ==> x <= ns[p].first
  {
    BeforeFrom(ns, x, 0)
  }

  function BeforeFrom(ns: seq<Run>, x: uint32, i: nat): (p: nat)
    requires i <= |ns|
    requires forall j :: 0 <= j < i ==> ns[j].first < x
    ensures p <= |ns|
    ensures forall j :: 0 <= j < p ==> ns[j].first < x
    ensures p < |ns| ==> x <= ns[p].first
    decreases |ns| - i
  {
    if i == |ns| || x <= ns[i].first then i else BeforeFrom(ns, x, i + 1)
  }

  function HasKey(ns: seq<Run>, x: uint32): bool {
    var p := Before(ns, x);
    p < |ns| && ns[p].first == x
  }

  function AddOrUpdate(ns: seq<Run>, x: uint32, last: uint32): seq<Run> {
    var p := Before(ns, x);
    if HasKey(ns, x) then ns[p := Run(x, last)] else ns[..p] + [Run(x, last)] + ns[p..]
  }

  function RemoveKey(ns: seq<Run>, x: uint32): seq<Run> {
    var p := Before(ns, x);
    if HasKey(ns, x) then ns[..p] + ns[p + 1..] else ns
  }

  /** Ranks count from 1; an absent key has rank 0. */
  function FindRank(ns: seq<Run>, x: uint32): nat {
    if HasKey(ns, x) then Before(ns, x) + 1 else 0
  }

  function GetByRank(ns: seq<Run>, rank: nat): Option<Run>
    requires rank >= 1
  {
    if rank <= |ns| then Some(ns[rank - 1]) else None
  }

  function GetByKey(ns: seq<Run>, x: uint32): Option<Run> {
    if HasKey(ns, x) then Some(ns[Before(ns, x)]) else None
  }

  lemma PositionIsBefore(ns: seq<Run>, x: uint32, p: nat)
    requires Ordered(ns) && p <= |ns|
    requires forall i :: 0 <= i < p ==> ns[i].first < x
    requires p < |ns| ==> x <= ns[p].first
    ensures Before(ns, x) == p
  {
    var q := Before(ns, x);
    assert !(q < p) && !(p < q);
  }

  function InsertAt(ns: seq<Run>, p: nat, r: Run): (ms: seq<Run>)
    requires p <= |ns|
    ensures |ms| == |ns| + 1 && ms[p] == r
    ensures forall i :: 0 <= i < p ==> ms[i] == ns[i]
    ensures forall i :: p < i < |ms| ==> ms[i] == ns[i - 1]
  {
    ns[..p] + [r] + ns[p..]
  }

  lemma InsertKeepsOrder(ns: seq<Run>, p: nat, r: Run)
    requires Ordered(ns) && p <= |ns|
    requires forall i :: 0 <= i < p ==> ns[i].first < r.first
    requires forall i :: p <= i < |ns| ==> r.first < ns[i].first
    ensures Ordered(InsertAt(ns, p, r))
  {
  }

  /** Inserting a key that is absent puts its node where the order says. */
  lemma Inserted(ns: seq<Run>, x: uint32, last: uint32)
    requires Ordered(ns) && !HasKey(ns, x)
    ensures AddOrUpdate(ns, x, last) == InsertAt(ns, Before(ns, x), Run(x, last))
    ensures Ordered(AddOrUpdate(ns, x, last))
    ensures Before(AddOrUpdate(ns, x, last), x) == Before(ns, x)
  {
    var p := Before(ns, x);
    forall i | p <= i < |ns| ensures x < ns[i].first {
      assert ns[p].first <= ns[i].first;
    }
    InsertKeepsOrder(ns, p, Run(x, last));
    PositionIsBefore(InsertAt(ns, p, Run(x, last)), x, p);
  }

  /** Inserting a key that is absent and removing it again restores the list. */
  lemma AddThenRemove(ns: seq<Run>, x: uint32, last: uint32)
    requires Ordered(ns) && !HasKey(ns, x)
    ensures FindRank(AddOrUpdate(ns, x, last), x) == Before(ns, x) + 1
    ensures RemoveKey(AddOrUpdate(ns, x, last), x) == ns
  {
    Inserted(ns, x, last);
    var p := Before(ns, x);
    var ms := InsertAt(ns, p, Run(x, last));
    assert ms[..p] == ns[..p] && ms[p + 1..] == ns[p..];
    assert ns == ns[..p] + ns[p..];
  }

  // ---- Maximal run lists are canonical ----

  lemma MaximalIsOrdered(ns: seq<Run>)
    requires Maximal(ns)
    ensures Ordered(ns)
  {
    forall i, j | 0 <= i < j < |ns| ensures ns[i].first < ns[j].first {
      assert ns[i].last + 1 < ns[j].first;
    }
  }

  lemma ContainsCons(ns: seq<Run>, x: int)
    requires Maximal(ns) && ns != []
    ensures Maximal(ns[1..])
    ensures Contains(ns[1..], x) <==> Contains(ns, x) && x > ns[0].last
  {
    var t := ns[1..];
    if Contains(t, x) {
      var i :| 0 <= i < |t| && t[i].first <= x <= t[i].last;
      assert ns[i + 1] == t[i] && ns[0].last + 1 < ns[i + 1].first;
    }
    if Contains(ns, x) && x > ns[0].last {
      var i :| 0 <= i < |ns| && ns[i].first <= x <= ns[i].last;
      assert t[i - 1] == ns[i];
    }
  }

  lemma HeadsAgree(a: seq<Run>, b: seq<Run>)
    requires Maximal(a) && Maximal(b) && a != [] && b != []
    requires forall x :: 0 <= x <= 0xFFFF_FFFF ==> (Contains(a, x) ==> Contains(b, x))
    ensures b[0].first <= a[0].first
    ensures a[0].first == b[0].first ==> a[0].last <= b[0].last
  {
    MaximalIsOrdered(b);
    var f := a[0].first;
    assert a[0].first <= f <= a[0].last;
    assert Contains(a, f);
    var i :| 0 <= i < |b| && b[i].first <= f <= b[i].last;
    assert i > 0 ==> b[0].first < b[i].first;
    var y := b[0].last + 1;
    assert !Contains(b, y);
    assert a[0].first <= y <= a[0].last ==> Contains(a, y);
  }

  /** A set of numbers has exactly one list of maximal runs. */
  lemma {:induction false} MaximalRunsAreCanonical(a: seq<Run>, b: seq<Run>)
    requires Maximal(a) && Maximal(b)
    requires forall x :: 0 <= x <= 0xFFFF_FFFF ==> (Contains(a, x) <==> Contains(b, x))
    ensures a == b
  {
    if a == [] || b == [] {
      if a != [] {
        assert a[0].first <= a[0].first <= a[0].last;
        assert Contains(a, a[0].first);
      }
      if b != [] {
        assert b[0].first <= b[0].first <= b[0].last;
        assert Contains(b, b[0].first);
      }
    } else {
      HeadsAgree(a, b);
      HeadsAgree(b, a);
      forall x | 0 <= x <= 0xFFFF_FFFF ensures Contains(a[1..], x) <==> Contains(b[1..], x) {
        ContainsCons(a, x);
        ContainsCons(b, x);
      }
      ContainsCons(a, 0);
      ContainsCons(b, 0);
      MaximalRunsAreCanonical(a[1..], b[1..]);
      assert a == [a[0]] + a[1..] && b == [b[0]] + b[1..];
    }
  }

  // ---- Locating a number, and the gaps of a range ----

  /** How many runs lie entirely below `x`. */
  function Passed(ns: seq<Run>, x: int): (p: nat)
    ensures p <= |ns|
    ensures forall i :: 0 <= i < p ==> ns[i].last < x
    ensures p < |ns| ==> x <= ns[p].last
  {
    PassedFrom(ns, x, 0)
  }

  function PassedFrom(ns: seq<Run>, x: int, i: nat): (p: nat)
    requires i <= |ns|
    requires forall j :: 0 <= j < i ==> ns[j].last < x
    ensures p <= |ns|
    ensures forall j :: 0 <= j < p ==> ns[j].last < x
    ensures p < |ns| ==> x <= ns[p].last
    decreases |ns| - i
  {
    if i == |ns| || x <= ns[i].last then i else PassedFrom(ns, x, i + 1)
  }

  /** The run that includes `x`, if there is one. */
  function RunAt(ns: seq<Run>, x: int): Option<Run> {
    var p := Passed(ns, x);
    if p < |ns| && ns[p].first <= x then Some(ns[p]) else None
  }

  lemma RunAtIffContains(ns: seq<Run>, x: int)
    requires Maximal(ns)
    ensures RunAt(ns, x).Some? <==> Contains(ns, x)
  {
    var p := Passed(ns, x);
    if Contains(ns, x) {
      var i :| 0 <= i < |ns| && ns[i].first <= x <= ns[i].last;
      assert p == i;
    }
  }

  lemma PassedIs(ns: seq<Run>, x: int, p: nat)
    requires Maximal(ns) && p <= |ns|
    requires forall i :: 0 <= i < p ==> ns[i].last < x
    requires p < |ns| ==> x <= ns[p].last
    ensures Passed(ns, x) == p
  {
    var q := Passed(ns, x);
    assert !(q < p) && !(p < q);
  }

  function Bias(ns: seq<Run>, min: uint32): nat {
    if RunAt(ns, min).Some? then 1 else 0
  }

  /** The number of gaps of a range, counting the possibly empty ones at either end. */
  function GapCount(ns: seq<Run>, min: uint32, max: uint32): int {
    1 + Passed(ns, max) - Passed(ns, min) + Bias(ns, max)
  }

  /** Some number of the range is free. */
  ghost predicate HasFree(ns: seq<Run>, min: uint32, max: uint32) {
    exists y :: Free(ns, min, max, y)
  }

  ghost predicate Free(ns: seq<Run>, min: uint32, max: uint32, y: int) {
    min <= y <= max && !Contains(ns, y)
  }

  /** The range is all inside one run. */
  predicate Covered(ns: seq<Run>, min: uint32, max: uint32) {
    RunAt(ns, min) == RunAt(ns, max) && RunAt(ns, min).Some?
  }

  lemma PassedMonotone(ns: seq<Run>, x: int, y: int)
    requires x <= y
    ensures Passed(ns, x) <= Passed(ns, y)
  {
    assert !(Passed(ns, y) < Passed(ns, x));
  }

  /** Unless the range is covered by one run there is a gap to choose from. */
  lemma GapsRemain(ns: seq<Run>, min: uint32, max: uint32)
    requires Maximal(ns) && min <= max && !Covered(ns, min, max)
    ensures Passed(ns, min) <= Passed(ns, max)
    ensures GapCount(ns, min, max) > Bias(ns, min) + Bias(ns, max)
  {
    PassedMonotone(ns, min, max);
    var a, b := Passed(ns, min), Passed(ns, max);
  }

  function GapFirst(ns: seq<Run>, min: uint32, g: nat): int
    requires g == 0 || Passed(ns, min) + g - 1 < |ns|
  {
    if g > 0 then ns[Passed(ns, min) + g - 1].last + 1 else min
  }

  function GapLast(ns: seq<Run>, min: uint32, max: uint32, g: nat): int
    requires g < GapCount(ns, min, max) - 1 ==> Passed(ns, min) + g < |ns|
  {
    if g < GapCount(ns, min, max) - 1 then ns[Passed(ns, min) + g].first - 1 else max
  }

  /** The gap numbers between the two biases. */
  predicate GapNumber(ns: seq<Run>, min: uint32, max: uint32, g: int) {
    Bias(ns, min) <= g < GapCount(ns, min, max) - Bias(ns, max)
  }

  /** The runs on either side of a gap that can be chosen exist. */
  lemma GapHasBounds(ns: seq<Run>, min: uint32, max: uint32, g: nat)
    requires Maximal(ns) && min <= max && !Covered(ns, min, max)
    requires GapNumber(ns, min, max, g)
    ensures g > 0 ==> Passed(ns, min) + g - 1 < |ns| && Passed(ns, min) + g - 1 < Passed(ns, max) + Bias(ns, max)
    ensures g < GapCount(ns, min, max) - 1 ==> Passed(ns, min) + g < |ns|
  {
    GapsRemain(ns, min, max);
  }

  /** Every gap that can be chosen is non-empty and lies in the range. */
  lemma GapIsInRange(ns: seq<Run>, min: uint32, max: uint32, g: nat)
    requires Maximal(ns) && min <= max && !Covered(ns, min, max)
    requires GapNumber(ns, min, max, g)
    requires g > 0 ==> Passed(ns, min) + g - 1 < |ns|
    requires g < GapCount(ns, min, max) - 1 ==> Passed(ns, min) + g < |ns|
    ensures min <= GapFirst(ns, min, g) <= GapLast(ns, min, max, g) <= max
  {
    GapsRemain(ns, min, max);
    var a, b := Passed(ns, min), Passed(ns, max);
    MaximalIsOrdered(ns);
    if g > 0 {
      var i := a + g - 1;
      assert ns[a].last <= ns[i].last;
    }
    if g < GapCount(ns, min, max) - 1 {
      var j := a + g;
      if Bias(ns, max) == 0 {
        assert ns[j].last < max;
      } else {
        assert j <= b && ns[j].first <= max;
      }
    }
  }

  lemma NotContained(ns: seq<Run>, y: int, p: nat)
    requires Maximal(ns) && p <= |ns|
    requires forall i :: 0 <= i < p ==> ns[i].last < y
    requires p < |ns| ==> y < ns[p].first
    ensures !Contains(ns, y)
  {
    MaximalIsOrdered(ns);
    forall i | p <= i < |ns| ensures y < ns[i].first {
      assert ns[p].first <= ns[i].first;
    }
  }

  /** Every gap that can be chosen is free. */
  lemma GapIsFree(ns: seq<Run>, min: uint32, max: uint32, g: nat, y: int)
    requires Maximal(ns) && min <= max && !Covered(ns, min, max)
    requires GapNumber(ns, min, max, g)
    requires g > 0 ==> Passed(ns, min) + g - 1 < |ns|
    requires g < GapCount(ns, min, max) - 1 ==> Passed(ns, min) + g < |ns|
    requires GapFirst(ns, min, g) <= y <= GapLast(ns, min, max, g)
    ensures !Contains(ns, y)
  {
    GapsRemain(ns, min, max);
    GapIsInRange(ns, min, max, g);
    var p := Passed(ns, min) + g;
    forall i | 0 <= i < p ensures ns[i].last < y {
      if g > 0 && i < p - 1 {
        assert ns[i].last + 1 < ns[p - 1].first;
      }
    }
    if g == GapCount(ns, min, max) - 1 {
      assert Bias(ns, max) == 0 && p == Passed(ns, max);
    }
    assert p < |ns| ==> y < ns[p].first;
    NotContained(ns, y, p);
  }

  /** Every free number of the range lies in a gap that can be chosen. */
  lemma FreeIsInGap(ns: seq<Run>, min: uint32, max: uint32, y: int) returns (g: nat)
    requires Maximal(ns) && Free(ns, min, max, y)
    ensures !Covered(ns, min, max) && GapNumber(ns, min, max, g)
    ensures g > 0 ==> Passed(ns, min) + g - 1 < |ns|
    ensures g < GapCount(ns, min, max) - 1 ==> Passed(ns, min) + g < |ns|
    ensures GapFirst(ns, min, g) <= y <= GapLast(ns, min, max, g)
  {
    PassedMonotone(ns, min, y);
    PassedMonotone(ns, y, max);
    var a, b, p := Passed(ns, min), Passed(ns, max), Passed(ns, y);
    RunAtIffContains(ns, y);
    assert p < |ns| ==> y < ns[p].first;
    assert !(RunAt(ns, min).Some? && p == a);
    if RunAt(ns, max).Some? && p == b {
      assert p < |ns|;
    }
    g := p - a;
    if p < b {
      assert ns[p].last < max;
    } else {
      assert Bias(ns, max) == 1 ==> ns[b].first <= max;
    }
  }

  /** The outcome of the random generator for a bound: the draw, cut off below the bound. */
  function Intn(draw: nat, bound: int): (r: nat)
    requires bound > 0
    ensures r < bound
  {
    if draw < bound then draw else bound - 1
  }

  /**
   The number AddOneInRange settles on, given the two random draws it makes: which of the
   eligible gaps, and which number of that gap.
   */
  function Chosen(ns: seq<Run>, min: uint32, max: uint32, gapDraw: nat, offsetDraw: nat): Option<int>
    requires Maximal(ns)
  {
    if max < min || Covered(ns, min, max) then None
    else
      GapsRemain(ns, min, max);
      var eligible := GapCount(ns, min, max) - (Bias(ns, min) + Bias(ns, max));
      var g := Bias(ns, min) + Intn(gapDraw, eligible);
      GapHasBounds(ns, min, max, g);
      GapIsInRange(ns, min, max, g);
      var first, last := GapFirst(ns, min, g), GapLast(ns, min, max, g);
      Some(first + Intn(offsetDraw, 1 + (last - first)))
  }

  /** A choice is made exactly when the range has a free number, and then it is one. */
  lemma ChosenIsFree(ns: seq<Run>, min: uint32, max: uint32, gapDraw: nat, offsetDraw: nat)
    requires Maximal(ns)
    ensures Chosen(ns, min, max, gapDraw, offsetDraw).Some? <==> HasFree(ns, min, max)
    ensures Chosen(ns, min, max, gapDraw, offsetDraw).Some?
            ==> Free(ns, min, max, Chosen(ns, min, max, gapDraw, offsetDraw).value)
  {
    if max < min || Covered(ns, min, max) {
      if y :| Free(ns, min, max, y) {
        var g := FreeIsInGap(ns, min, max, y);
        assert false;
      }
    } else {
      GapsRemain(ns, min, max);
      var g := Bias(ns, min) + Intn(gapDraw, GapCount(ns, min, max) - (Bias(ns, min) + Bias(ns, max)));
      GapHasBounds(ns, min, max, g);
      GapIsInRange(ns, min, max, g);
      var first, last := GapFirst(ns, min, g), GapLast(ns, min, max, g);
      var y := first + Intn(offsetDraw, 1 + (last - first));
      GapIsFree(ns, min, max, g, y);
      assert Free(ns, min, max, y);
    }
  }

  /** Every free number of the range is the outcome of some pair of draws. */
  lemma EveryFreeNumberCanBeChosen(ns: seq<Run>, min: uint32, max: uint32, y: int)
    requires Maximal(ns) && Free(ns, min, max, y)
    ensures exists gapDraw: nat, offsetDraw: nat ::
              Chosen(ns, min, max, gapDraw, offsetDraw) == Some(y)
  {
    hide Maximal, Contains, RunAt, Passed;
    var g := FreeIsInGap(ns, min, max, y);
    GapsRemain(ns, min, max);
    var gapDraw: nat, offsetDraw: nat := g - Bias(ns, min), y - GapFirst(ns, min, g);
    assert Chosen(ns, min, max, gapDraw, offsetDraw) == Some(y);
  }
}
