/** The run-based set of staging/kos/pkg/uint32set/sortedset.go. */
module SortedSets {
  import opened Options
  import opened UInt32
  import opened RunLists
  import opened RunSplicing

  /** All numbers of the runs, in order. */
  function Flatten(ns: seq<Run>): seq<int> {
    if ns == [] then [] else Flatten(ns[..|ns| - 1]) + Span(ns[|ns| - 1].first, ns[|ns| - 1].last)
  }

  function Span(first: int, last: int): (s: seq<int>)
    ensures |s| == if first <= last then last - first + 1 else 0
    ensures forall k :: 0 <= k < |s| ==> s[k] == first + k
    decreases last - first
  {
    if last < first then [] else Span(first, last - 1) + [last]
  }

  /** First and last number of each run, alternating. */
  function Pairs(ns: seq<Run>): seq<int> {
    if ns == [] then [] else Pairs(ns[..|ns| - 1]) + [ns[|ns| - 1].first, ns[|ns| - 1].last]
  }

  lemma BeforeVersusPassed(ns: seq<Run>, x: uint32)
    requires Maximal(ns)
    ensures HasKey(ns, x) ==> Passed(ns, x) == Before(ns, x)
    ensures !HasKey(ns, x) && Before(ns, x) > 0 && x <= ns[Before(ns, x) - 1].last
            ==> Passed(ns, x) == Before(ns, x) - 1
    ensures !HasKey(ns, x) && (Before(ns, x) > 0 ==> ns[Before(ns, x) - 1].last < x)
            ==> Passed(ns, x) == Before(ns, x)
  {
    var p := Before(ns, x);
    var q := if !HasKey(ns, x) && p > 0 && x <= ns[p - 1].last then p - 1 else p;
    forall i | 0 <= i < q ensures ns[i].last < x {
      assert q < |ns| ==> ns[i].last + 1 < ns[q].first;
      assert i < q - 1 ==> ns[i].last + 1 < ns[q - 1].first;
    }
    PassedIs(ns, x, q);
  }

  lemma ChosenNone(ns: seq<Run>, min: uint32, max: uint32, gapDraw: nat, offsetDraw: nat)
    requires Maximal(ns)
    ensures max < min || Covered(ns, min, max) ==> Chosen(ns, min, max, gapDraw, offsetDraw) == None
  {
  }

  lemma ChosenByGap(ns: seq<Run>, min: uint32, max: uint32, gapDraw: nat, offsetDraw: nat, g: nat)
    requires Maximal(ns) && min <= max && !Covered(ns, min, max)
    requires GapNumber(ns, min, max, g)
    requires GapCount(ns, min, max) > Bias(ns, min) + Bias(ns, max)
    requires g == Bias(ns, min) + Intn(gapDraw, GapCount(ns, min, max) - (Bias(ns, min) + Bias(ns, max)))
    requires g > 0 ==> Passed(ns, min) + g - 1 < |ns|
    requires g < GapCount(ns, min, max) - 1 ==> Passed(ns, min) + g < |ns|
    requires GapFirst(ns, min, g) <= GapLast(ns, min, max, g)
    ensures Chosen(ns, min, max, gapDraw, offsetDraw)
            == Some(GapFirst(ns, min, g) + Intn(offsetDraw, 1 + (GapLast(ns, min, max, g) - GapFirst(ns, min, g))))
  {
  }

  lemma FreeIsNoMember(ns: seq<Run>, min: uint32, max: uint32, y: uint32)
    requires Free(ns, min, max, y)
    ensures y !in Members(ns)
  {
  }

  class SortedUInt32Set {
    var nodes: seq<Run>
    const checkLevel: int

    ghost predicate Valid()
      reads this
    {
      Maximal(nodes)
    }

    ghost function Elements(): set<int>
      reads this
    {
      Members(nodes)
    }

    constructor (checkLevel: int)
      ensures Valid() && Elements() == {} && nodes == []
    {
      this.checkLevel := checkLevel;
      nodes := [];
    }

    method IsEmpty() returns (empty: bool)
      requires Valid()
      ensures empty <==> Elements() == {}
    {
      empty := |nodes| == 0;
      if !empty {
        assert nodes[0].first <= nodes[0].first <= nodes[0].last;
        assert nodes[0].first in Elements();
      }
    }

    /** The run that includes `x`, and the rank of the run that includes or would include it. */
    method Find(x: uint32) returns (node: Option<Run>, rank: nat)
      requires Valid()
      modifies this
      ensures nodes == old(nodes)
      ensures node == RunAt(nodes, x) && rank == Passed(nodes, x) + 1
    {
      hide AddOrUpdate, RemoveKey;
      MaximalIsOrdered(nodes);
      ghost var p := Before(nodes, x);
      rank := FindRank(nodes, x);
      if rank > 0 {
        node := GetByRank(nodes, rank);
        BeforeVersusPassed(nodes, x);
        return;
      }
      AddThenRemove(nodes, x, x);
      nodes := AddOrUpdate(nodes, x, x);
      var rankNext := FindRank(nodes, x);
      nodes := RemoveKey(nodes, x);
      BeforeVersusPassed(nodes, x);
      if rankNext > 1 {
        var anode := GetByRank(nodes, rankNext - 1);
        if x <= anode.value.last {
          return anode, rankNext - 1;
        }
      }
      return None, rankNext;
    }

    method Has(x: uint32) returns (has: bool)
      requires Valid()
      modifies this
      ensures nodes == old(nodes)
      ensures has <==> x in Elements()
    {
      var node, rank := Find(x);
      RunAtIffContains(nodes, x);
      has := node.Some?;
    }

    method Add(x: uint32) returns (added: bool)
      requires Valid()
      modifies this
      ensures Valid()
      ensures added <==> x !in old(Elements())
      ensures Elements() == old(Elements()) + {x}
    {
      hide AddOrUpdate, RemoveKey, FindRank, Wrap;
      ghost var was := nodes;
      MaximalIsOrdered(nodes);
      var xN := GetByKey(nodes, x);
      if xN.Some? {
        assert was[Before(was, x)].first <= x <= was[Before(was, x)].last;
        assert x in Elements();
        assert Elements() == old(Elements()) + {x};
        return false;
      }
      NoSuchKey(was, x);
      Inserted(was, x, x);
      AddThenRemove(was, x, x);
      nodes := AddOrUpdate(nodes, x, x);
      var rankX := FindRank(nodes, x);
      var mergeWithPrev := false;
      var prevNode: Option<Run> := None;
      if rankX > 1 {
        prevNode := GetByRank(nodes, rankX - 1);
        var prevLast := prevNode.value.last;
        if x <= prevLast {
          nodes := RemoveKey(nodes, x);
          assert x in Elements();
          assert Elements() == old(Elements()) + {x};
          return false;
        }
        mergeWithPrev := Wrap(prevLast + 1) == x;
      }
      var nextNode := GetByRank(nodes, rankX + 1);
      var mergeWithNext := nextNode.Some? && Wrap(x + 1) == nextNode.value.first;
      if mergeWithPrev {
        nodes := RemoveKey(nodes, x);
        if mergeWithNext {
          AddBridging(was, x);
          var nextLast := nextNode.value.last;
          nodes := RemoveKey(nodes, nextNode.value.first);
          nodes := AddOrUpdate(nodes, prevNode.value.first, nextLast);
        } else {
          AddAfterPrevious(was, x);
          nodes := AddOrUpdate(nodes, prevNode.value.first, x);
        }
      } else if mergeWithNext {
        AddBeforeNext(was, x);
        nodes := RemoveKey(nodes, nextNode.value.first);
        nodes := AddOrUpdate(nodes, x, nextNode.value.last);
      } else {
        AddAlone(was, x);
      }
      GainsMembers(nodes, was, x);
      if checkLevel > 0 {
        var sound := Check(checkLevel > 1);
        assert sound;
      }
      return true;
    }

    method Remove(x: uint32) returns (removed: bool)
      requires Valid()
      modifies this
      ensures Valid()
      ensures removed <==> x in old(Elements())
      ensures Elements() == old(Elements()) - {x}
    {
      removed := InnerRemove(x);
      if checkLevel > 0 {
        var sound := Check(checkLevel > 1);
        assert sound;
      }
    }

    method InnerRemove(x: uint32) returns (removed: bool)
      requires Valid()
      modifies this
      ensures Valid()
      ensures removed <==> x in old(Elements())
      ensures Elements() == old(Elements()) - {x}
    {
      hide AddOrUpdate, RemoveKey, FindRank, Wrap;
      ghost var was := nodes;
      ghost var p := Before(was, x);
      MaximalIsOrdered(nodes);
      var xN := GetByKey(nodes, x);
      if xN.Some? {
        assert was[p].first <= x <= was[p].last;
        nodes := RemoveKey(nodes, x);
        var last := xN.value.last;
        if x != last {
          RemoveFirst(was, p);
          var y := Wrap(x + 1);
          nodes := AddOrUpdate(nodes, y, last);
        } else {
          RemoveWholeRun(was, p);
        }
      } else {
        NoSuchKey(was, x);
        AddThenRemove(was, x, x);
        nodes := AddOrUpdate(nodes, x, x);
        var rankX := FindRank(nodes, x);
        nodes := RemoveKey(nodes, x);
        if rankX > 1 {
          var prevNode := GetByRank(nodes, rankX - 1);
          var prevLast := prevNode.value.last;
          if x > prevLast {
            return false;
          }
          nodes := AddOrUpdate(nodes, prevNode.value.first, Wrap(x - 1));
          if x < prevLast {
            RemoveMiddle(was, p - 1, x);
            var y := Wrap(x + 1);
            nodes := AddOrUpdate(nodes, y, prevLast);
          } else {
            RemoveLast(was, p - 1);
          }
        } else {
          return false;
        }
      }
      LosesMembers(nodes, was, x);
      return true;
    }

    /**
     The self-check.  It looks at the first run and, when `hard`, at every consecutive pair;
     `sound` is false where the program panics.
     */
    method Check(hard: bool) returns (sound: bool)
      requires Ordered(nodes)
      ensures Valid() ==> sound
      ensures hard ==> (sound <==> LooksMaximal(nodes))
      ensures !hard ==> (sound <==> nodes == [] || (nodes[0].first <= nodes[0].last
                                                    && nodes[|nodes| - 1].first <= nodes[|nodes| - 1].last))
    {
      hide Maximal, LooksMaximal;
      MaximalLooks(nodes);
      if |nodes| == 0 {
        return true;
      }
      LooksAt(nodes, 0);
      LooksAt(nodes, |nodes| - 1);
      var firstNode := GetByRank(nodes, 1);
      if firstNode.value.first > firstNode.value.last {
        return false;
      }
      var count := |nodes|;
      var lastNode := firstNode.value;
      if hard {
        var rank := 2;
        while rank <= count
          invariant 2 <= rank <= count + 1
          invariant lastNode == nodes[rank - 2]
          invariant LooksMaximal(nodes[..rank - 1])
        {
          var node := GetByRank(nodes, rank).value;
          assert nodes[..rank][rank - 1] == node && nodes[..rank][rank - 2] == lastNode;
          LooksMaximalPrefix(nodes, rank);
          if node.first <= Wrap(lastNode.last + 1) {
            return false;
          }
          if node.first > node.last {
            return false;
          }
          lastNode := node;
          rank := rank + 1;
        }
        assert nodes[..count] == nodes;
      } else {
        lastNode := GetByRank(nodes, count).value;
      }
      return lastNode.first <= lastNode.last;
    }

    /**
     Picks a free number of the range and adds it.  `gapDraw` and `offsetDraw` stand for the two
     outcomes of the random generator.
     */
    method AddOneInRange(min: uint32, max: uint32, gapDraw: nat, offsetDraw: nat) returns (x: uint32, ok: bool)
      requires Valid()
      modifies this
      ensures Valid()
      ensures ok <==> HasFree(old(nodes), min, max)
      ensures ok ==> Free(old(nodes), min, max, x) && Chosen(old(nodes), min, max, gapDraw, offsetDraw) == Some(x)
      ensures !ok ==> x == 0
      ensures Elements() == if ok then old(Elements()) + {x} else old(Elements())
    {
      hide Chosen, HasFree, Members, Free, Maximal, Contains, Passed, RunAt, Wrap;
      ghost var was := nodes;
      ChosenIsFree(was, min, max, gapDraw, offsetDraw);
      ChosenNone(was, min, max, gapDraw, offsetDraw);
      if max < min {
        return 0, false;
      }
      var onMin, minR := Find(min);
      var onMax, maxR := Find(max);
      if onMin == onMax && onMin.Some? {
        return 0, false;
      }
      GapsRemain(was, min, max);
      var nGaps := 1 + maxR - minR;
      var bias, saib := 0, 0;
      if onMin.Some? {
        bias := 1;
      }
      if onMax.Some? {
        saib := 1;
        nGaps := nGaps + 1;
      }
      if nGaps <= bias + saib {
        assert false;
      }
      var gapNum := bias + Intn(gapDraw, nGaps - (bias + saib));
      GapHasBounds(was, min, max, gapNum);
      GapIsInRange(was, min, max, gapNum);
      var first, last: uint32;
      if gapNum > 0 {
        var prevNode := GetByRank(nodes, minR + gapNum - 1);
        if prevNode.None? {
          assert false;
        } else {
          first := Wrap(prevNode.value.last + 1);
        }
      } else {
        first := min;
      }
      if gapNum < nGaps - 1 {
        var nextNode := GetByRank(nodes, minR + gapNum);
        if nextNode.None? {
          assert false;
        } else {
          last := Wrap(nextNode.value.first - 1);
        }
      } else {
        last := max;
      }
      ChosenByGap(was, min, max, gapDraw, offsetDraw, gapNum);
      x := Wrap(first + Intn(offsetDraw, 1 + Wrap(last - first)));
      ok := Add(x);
      FreeIsNoMember(was, min, max, x);
      if !ok {
        assert false;
      }
    }

    method Export() returns (ans: seq<int>)
      requires Valid()
      ensures ans == Flatten(nodes)
    {
      hide Flatten, Contains;
      ans := [];
      FlattenNothing();
      var rank := 1;
      while rank <= |nodes|
        invariant 1 <= rank <= |nodes| + 1
        invariant ans == Flatten(nodes[..rank - 1])
      {
        var node := GetByRank(nodes, rank).value;
        var i, l := node.first, node.last;
        assert i <= l;
        ghost var before := ans;
        var x := i;
        while true
          invariant 0 <= i <= x <= l <= LAST
          invariant ans == before + Span(i, x - 1)
          decreases l - x
        {
          ans := ans + [x];
          assert ans == before + Span(i, x);
          if x >= l {
            break;
          }
          x := Wrap(x + 1);
        }
        FlattenOneMore(nodes, rank);
        rank := rank + 1;
      }
      assert nodes[..|nodes|] == nodes;
    }

    method RExport() returns (ans: seq<int>)
      requires Valid()
      ensures ans == Pairs(nodes)
    {
      ans := [];
      var rank := 1;
      while rank <= |nodes|
        invariant 1 <= rank <= |nodes| + 1
        invariant ans == Pairs(nodes[..rank - 1])
      {
        var node := GetByRank(nodes, rank).value;
        ans := ans + [node.first, node.last];
        assert nodes[..rank][..rank - 1] == nodes[..rank - 1];
        rank := rank + 1;
      }
      assert nodes[..|nodes|] == nodes;
    }
  }

  /** What the exhaustive self-check can see: consecutive runs, compared after the increment wraps. */
  ghost predicate LooksMaximal(ns: seq<Run>) {
    && (forall i :: 0 <= i < |ns| ==> ns[i].first <= ns[i].last)
    && (forall i :: 0 < i < |ns| ==> ns[i].first > Wrap(ns[i - 1].last + 1))
  }

  lemma FlattenNothing()
    ensures Flatten([]) == []
  {
  }

  lemma FlattenOneMore(ns: seq<Run>, k: nat)
    requires 0 < k <= |ns|
    ensures Flatten(ns[..k]) == Flatten(ns[..k - 1]) + Span(ns[k - 1].first, ns[k - 1].last)
  {
    assert ns[..k][..k - 1] == ns[..k - 1];
  }

  lemma MaximalLooks(ns: seq<Run>)
    ensures Maximal(ns) ==> LooksMaximal(ns)
    ensures ns == [] ==> LooksMaximal(ns)
  {
    if Maximal(ns) {
      forall i | 0 < i < |ns| ensures ns[i].first > Wrap(ns[i - 1].last + 1) {
        assert ns[i - 1].last + 1 < ns[i].first;
      }
    }
  }

  lemma LooksAt(ns: seq<Run>, k: nat)
    requires k < |ns|
    ensures LooksMaximal(ns) ==> ns[k].first <= ns[k].last
    ensures k == 0 ==> (LooksMaximal(ns[..1]) <==> ns[0].first <= ns[0].last)
  {
  }

  lemma LooksMaximalPrefix(ns: seq<Run>, k: nat)
    requires 2 <= k <= |ns| && LooksMaximal(ns[..k - 1])
    ensures LooksMaximal(ns[..k])
            <==> ns[k - 1].first <= ns[k - 1].last && ns[k - 1].first > Wrap(ns[k - 2].last + 1)
    ensures !LooksMaximal(ns[..k]) ==> !LooksMaximal(ns)
  {
    var a, b := ns[..k - 1], ns[..k];
    assert forall i :: 0 <= i < k - 1 ==> b[i] == a[i];
    assert forall i :: 0 <= i < k ==> b[i] == ns[i];
  }

  /**
   The self-check overlooks one thing: runs placed after a run that ends at the last number,
   where the increment wraps to zero.
   */
  lemma CheckIsExactBelowTheTop(ns: seq<Run>)
    requires Ordered(ns)
    ensures Maximal(ns) <==> LooksMaximal(ns) && forall i :: 0 <= i < |ns| - 1 ==> ns[i].last != LAST
  {
    if Maximal(ns) {
      forall i | 0 <= i < |ns| - 1 ensures ns[i].last != LAST {
        assert ns[i].last + 1 < ns[i + 1].first;
      }
      forall i | 0 < i < |ns| ensures ns[i].first > Wrap(ns[i - 1].last + 1) {
        var h := i - 1;
        assert ns[h].last + 1 < ns[i].first;
      }
    }
    if LooksMaximal(ns) && forall i :: 0 <= i < |ns| - 1 ==> ns[i].last != LAST {
      forall i, j | 0 <= i < j < |ns| ensures ns[i].last + 1 < ns[j].first {
        var k := i + 1;
        assert ns[k].first > Wrap(ns[k - 1].last + 1);
        assert ns[k].first <= ns[j].first;
      }
    }
  }

  // ---- What the exports contain ----

  /** A list it accepts although two runs overlap, as the first one ends at the top. */
  lemma CheckExample() returns (ns: seq<Run>)
    ensures Ordered(ns) && LooksMaximal(ns) && !Maximal(ns) && ns[0].last == LAST
  {
    ns := [Run(5, LAST), Run(7, 8)];
    assert ns[0].last + 1 >= ns[1].first;
  }

  ghost predicate Increasing(s: seq<int>) {
    forall i, j :: 0 <= i < j < |s| ==> s[i] < s[j]
  }

  /** The flat export lists exactly the members, in increasing order. */
  lemma {:induction false} FlattenIsSorted(ns: seq<Run>)
    requires Maximal(ns)
    ensures Increasing(Flatten(ns))
    ensures forall y :: y in Flatten(ns) <==> Contains(ns, y)
  {
    if ns != [] {
      var init, r := ns[..|ns| - 1], ns[|ns| - 1];
      assert Maximal(init);
      FlattenIsSorted(init);
      assert ns == init + [r];
      forall y ensures y in Flatten(ns) <==> Contains(ns, y) {
        InSpan(r.first, r.last, y);
        ContainsConcat(init, [r], y);
        OneRun(r, y);
      }
      forall y | y in Flatten(init) ensures y < r.first {
        var k :| 0 <= k < |init| && init[k].first <= y <= init[k].last;
        assert ns[k].last + 1 < ns[|ns| - 1].first;
      }
      IncreasingConcat(Flatten(init), r.first, r.last);
    }
  }

  lemma InSpan(first: int, last: int, y: int)
    ensures y in Span(first, last) <==> first <= y <= last
  {
    if first <= y <= last {
      assert Span(first, last)[y - first] == y;
    }
  }

  lemma IncreasingConcat(front: seq<int>, first: int, last: int)
    requires Increasing(front) && forall y :: y in front ==> y < first
    ensures Increasing(front + Span(first, last))
  {
    assert forall i :: 0 <= i < |front| ==> front[i] in front;
  }

  lemma HeadIn(t: seq<int>)
    ensures t != [] ==> t[0] in t
  {
  }

  /** A finite set of numbers has one increasing list. */
  lemma {:induction false} IncreasingIsUnique(s: seq<int>, t: seq<int>)
    requires Increasing(s) && Increasing(t)
    requires forall y :: y in s <==> y in t
    ensures s == t
  {
    if s == [] {
      HeadIn(t);
    } else {
      assert s[0] in t && |t| > 0 && t[0] in s;
      assert s[0] == t[0];
      var s', t' := s[1..], t[1..];
      forall y ensures y in s' <==> y in t' {
        assert y in s' <==> y in s && y != s[0];
        assert y in t' <==> y in t && y != t[0];
      }
      IncreasingIsUnique(s', t');
      assert s == [s[0]] + s' && t == [t[0]] + t';
    }
  }
}
