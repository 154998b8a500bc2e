/** What single-number updates do to a list of maximal runs. */
module RunSplicing {
  import opened UInt32
  import opened RunLists

  function Splice(ns: seq<Run>, i: nat, j: nat, mid: seq<Run>): seq<Run>
    requires i <= j <= |ns|
  {
    ns[..i] + mid + ns[j..]
  }

  lemma ContainsConcat(a: seq<Run>, b: seq<Run>, y: int)
    ensures Contains(a + b, y) <==> Contains(a, y) || Contains(b, y)
  {
    var c := a + b;
    if Contains(a, y) {
      var k :| 0 <= k < |a| && a[k].first <= y <= a[k].last;
      assert c[k] == a[k];
    }
    if Contains(b, y) {
      var k :| 0 <= k < |b| && b[k].first <= y <= b[k].last;
      assert c[|a| + k] == b[k];
    }
  }

  lemma MaximalConcat(a: seq<Run>, b: seq<Run>)
    requires Maximal(a) && Maximal(b)
    requires a != [] && b != [] ==> a[|a| - 1].last + 1 < b[0].first
    ensures Maximal(a + b)
  {
    var c := a + b;
    forall i, j | 0 <= i < j < |c| ensures c[i].last + 1 < c[j].first {
      if i < |a| <= j {
        assert i < |a| - 1 ==> a[i].last + 1 < a[|a| - 1].first;
        assert |a| < j ==> b[0].last + 1 < b[j - |a|].first;
      }
    }
  }

  /** Replacing a stretch of runs by others that fit keeps the list maximal. */
  lemma SpliceIsMaximal(ns: seq<Run>, i: nat, j: nat, mid: seq<Run>)
    requires Maximal(ns) && i <= j <= |ns| && Maximal(mid)
    requires mid != [] && i > 0 ==> ns[i - 1].last + 1 < mid[0].first
    requires mid != [] && j < |ns| ==> mid[|mid| - 1].last + 1 < ns[j].first
    ensures Maximal(Splice(ns, i, j, mid))
  {
    MaximalConcat(ns[..i], mid);
    MaximalConcat(ns[..i] + mid, ns[j..]);
  }

  lemma SpliceContains(ns: seq<Run>, i: nat, j: nat, mid: seq<Run>, y: int)
    requires i <= j <= |ns|
    ensures Contains(Splice(ns, i, j, mid), y)
            <==> Contains(ns[..i], y) || Contains(mid, y) || Contains(ns[j..], y)
    ensures Contains(ns, y)
            <==> Contains(ns[..i], y) || Contains(ns[i..j], y) || Contains(ns[j..], y)
  {
    ContainsConcat(ns[..i], mid, y);
    ContainsConcat(ns[..i] + mid, ns[j..], y);
    ContainsConcat(ns[..i], ns[i..j], y);
    ContainsConcat(ns[..i] + ns[i..j], ns[j..], y);
    assert ns == ns[..i] + ns[i..j] + ns[j..];
  }

  /** A splice whose middle gains just `x` adds just `x` to the set. */
  lemma SpliceAdds(ns: seq<Run>, i: nat, j: nat, mid: seq<Run>, x: int)
    requires i <= j <= |ns|
    requires forall y :: Contains(mid, y) <==> Contains(ns[i..j], y) || y == x
    ensures forall y :: Contains(Splice(ns, i, j, mid), y) <==> Contains(ns, y) || y == x
  {
    forall y ensures Contains(Splice(ns, i, j, mid), y) <==> Contains(ns, y) || y == x {
      SpliceContains(ns, i, j, mid, y);
    }
  }

  /** A splice whose middle loses just `x` removes just `x` from the set. */
  lemma SpliceRemoves(ns: seq<Run>, i: nat, mid: seq<Run>, x: int)
    requires Maximal(ns) && i < |ns| && ns[i].first <= x <= ns[i].last
    requires forall y :: Contains(mid, y) <==> ns[i].first <= y <= ns[i].last && y != x
    ensures forall y :: Contains(Splice(ns, i, i + 1, mid), y) <==> Contains(ns, y) && y != x
  {
    var a, b := ns[..i], ns[i + 1..];
    assert !Contains(a, x) by {
      assert forall k :: 0 <= k < |a| ==> a[k] == ns[k] && ns[k].last + 1 < ns[i].first;
    }
    assert !Contains(b, x) by {
      assert forall k :: 0 <= k < |b| ==> b[k] == ns[i + 1 + k] && ns[i].last + 1 < ns[i + 1 + k].first;
    }
    forall y ensures Contains(Splice(ns, i, i + 1, mid), y) <==> Contains(ns, y) && y != x {
      SpliceContains(ns, i, i + 1, mid, y);
      OneRun(ns[i], y);
      assert ns[i..i + 1] == [ns[i]];
    }
  }

  lemma OneRun(r: Run, y: int)
    ensures Contains([r], y) <==> r.first <= y <= r.last
  {
    if r.first <= y <= r.last {
      assert [r][0] == r;
    }
  }

  lemma TwoRuns(r: Run, q: Run, y: int)
    ensures Contains([r, q], y) <==> r.first <= y <= r.last || q.first <= y <= q.last
  {
    OneRun(r, y);
    OneRun(q, y);
    ContainsConcat([r], [q], y);
    assert [r] + [q] == [r, q];
  }

  // ---- The external operations at a known position ----

  lemma AtKey(ns: seq<Run>, i: nat, last: uint32)
    requires Ordered(ns) && i < |ns|
    ensures HasKey(ns, ns[i].first) && Before(ns, ns[i].first) == i
    ensures AddOrUpdate(ns, ns[i].first, last) == Splice(ns, i, i + 1, [Run(ns[i].first, last)])
    ensures RemoveKey(ns, ns[i].first) == Splice(ns, i, i + 1, [])
  {
    PositionIsBefore(ns, ns[i].first, i);
  }

  lemma InsertIsSplice(ns: seq<Run>, x: uint32, last: uint32)
    requires Ordered(ns) && !HasKey(ns, x)
    ensures AddOrUpdate(ns, x, last) == Splice(ns, Before(ns, x), Before(ns, x), [Run(x, last)])
  {
    Inserted(ns, x, last);
  }

  /** Splicing keeps the order when the new keys fit between the neighbours. */
  lemma SpliceIsOrdered(ns: seq<Run>, i: nat, j: nat, mid: seq<Run>)
    requires Ordered(ns) && i <= j <= |ns| && Ordered(mid)
    requires forall k, m :: 0 <= k < i && 0 <= m < |mid| ==> ns[k].first < mid[m].first
    requires forall k, m :: j <= k < |ns| && 0 <= m < |mid| ==> mid[m].first < ns[k].first
    ensures Ordered(Splice(ns, i, j, mid))
  {
    var c := Splice(ns, i, j, mid);
    var e := i + |mid|;
    assert forall k :: 0 <= k < i ==> c[k] == ns[k];
    assert forall k :: i <= k < e ==> c[k] == mid[k - i];
    assert forall k :: e <= k < |c| ==> c[k] == ns[k - e + j];
  }

  /** Taking a key out and putting in one that fits in the same place. */
  lemma ReplaceKey(ns: seq<Run>, i: nat, f: uint32, l: uint32)
    requires Ordered(ns) && i < |ns| && ns[i].first < f
    requires i + 1 < |ns| ==> f < ns[i + 1].first
    ensures AddOrUpdate(RemoveKey(ns, ns[i].first), f, l) == Splice(ns, i, i + 1, [Run(f, l)])
  {
    AtKey(ns, i, 0);
    SpliceIsOrdered(ns, i, i + 1, []);
    var os := Splice(ns, i, i + 1, []);
    assert os[..i] == ns[..i] && os[i..] == ns[i + 1..];
    assert forall k :: 0 <= k < i ==> os[k] == ns[k];
    assert i < |os| ==> os[i] == ns[i + 1];
    PositionIsBefore(os, f, i);
    InsertIsSplice(os, f, l);
  }

  /** Cutting a run's end and putting in another key right after it. */
  lemma SplitKey(ns: seq<Run>, i: nat, cut: uint32, f: uint32, l: uint32)
    requires Ordered(ns) && i < |ns| && ns[i].first < f
    requires i + 1 < |ns| ==> f < ns[i + 1].first
    ensures AddOrUpdate(AddOrUpdate(ns, ns[i].first, cut), f, l)
            == Splice(ns, i, i + 1, [Run(ns[i].first, cut), Run(f, l)])
  {
    AtKey(ns, i, cut);
    var r := Run(ns[i].first, cut);
    SpliceIsOrdered(ns, i, i + 1, [r]);
    var os := Splice(ns, i, i + 1, [r]);
    assert os[..i + 1] == ns[..i] + [r] && os[i + 1..] == ns[i + 1..];
    assert forall k :: 0 <= k < i ==> os[k] == ns[k];
    assert os[i] == r;
    assert i + 1 < |os| ==> os[i + 1] == ns[i + 1];
    PositionIsBefore(os, f, i + 1);
    InsertIsSplice(os, f, l);
    assert ns[..i] + [r] + [Run(f, l)] + ns[i + 1..] == Splice(ns, i, i + 1, [r, Run(f, l)]);
  }

  /** Putting in a key, taking out the one after it, and updating the first. */
  lemma InsertRemoveUpdate(ns: seq<Run>, x: uint32, l: uint32)
    requires Ordered(ns) && !HasKey(ns, x) && Before(ns, x) < |ns|
    ensures AddOrUpdate(RemoveKey(AddOrUpdate(ns, x, x), ns[Before(ns, x)].first), x, l)
            == Splice(ns, Before(ns, x), Before(ns, x) + 1, [Run(x, l)])
  {
    hide AddOrUpdate, RemoveKey, HasKey, InsertAt;
    var p, r := Before(ns, x), Run(x, x);
    Inserted(ns, x, x);
    var ms := InsertAt(ns, p, r);
    assert ms[p + 1] == ns[p];
    AtKey(ms, p + 1, 0);
    SpliceIsOrdered(ms, p + 1, p + 2, []);
    var os := Splice(ms, p + 1, p + 2, []);
    assert os[p] == ms[p] == r;
    assert os[..p] == ns[..p] && os[p + 1..] == ns[p + 1..];
    AtKey(os, p, l);
  }

  lemma GainsMembers(after: seq<Run>, before: seq<Run>, x: uint32)
    requires Gains(after, before, x)
    ensures Members(after) == Members(before) + {x}
  {
  }

  lemma LosesMembers(after: seq<Run>, before: seq<Run>, x: uint32)
    requires Loses(after, before, x)
    ensures Members(after) == Members(before) - {x}
  {
  }

  /** What is known about a number that starts no run. */
  lemma NoSuchKey(ns: seq<Run>, x: uint32)
    requires Maximal(ns) && !HasKey(ns, x)
    ensures Before(ns, x) < |ns| ==> x < ns[Before(ns, x)].first
    ensures Contains(ns, x) <==> Before(ns, x) > 0 && x <= ns[Before(ns, x) - 1].last
  {
    MaximalIsOrdered(ns);
    var p := Before(ns, x);
    if Contains(ns, x) {
      var i :| 0 <= i < |ns| && ns[i].first <= x <= ns[i].last;
      assert i < p;
      assert ns[i].last + 1 < ns[p - 1].first || i == p - 1;
      assert i == p - 1;
    }
  }

  // ---- Add, case by case ----

  ghost predicate Gains(after: seq<Run>, before: seq<Run>, x: int) {
    Maximal(after) && forall y :: Contains(after, y) <==> Contains(before, y) || y == x
  }

  ghost predicate Loses(after: seq<Run>, before: seq<Run>, x: int) {
    Maximal(after) && forall y :: Contains(after, y) <==> Contains(before, y) && y != x
  }

  lemma AddAlone(ns: seq<Run>, x: uint32)
    requires Maximal(ns) && !HasKey(ns, x)
    requires Before(ns, x) > 0 ==> ns[Before(ns, x) - 1].last + 1 < x
    requires Before(ns, x) < |ns| ==> x + 1 < ns[Before(ns, x)].first
    ensures Gains(AddOrUpdate(ns, x, x), ns, x)
  {
    hide AddOrUpdate, RemoveKey;
    MaximalIsOrdered(ns);
    var p, mid := Before(ns, x), [Run(x, x)];
    InsertIsSplice(ns, x, x);
    SpliceIsMaximal(ns, p, p, mid);
    forall y ensures Contains(mid, y) <==> Contains(ns[p..p], y) || y == x {
      OneRun(mid[0], y);
    }
    SpliceAdds(ns, p, p, mid, x);
  }

  lemma AddAfterPrevious(ns: seq<Run>, x: uint32)
    requires Maximal(ns) && !HasKey(ns, x)
    requires Before(ns, x) > 0 && ns[Before(ns, x) - 1].last + 1 == x
    requires Before(ns, x) < |ns| ==> x + 1 < ns[Before(ns, x)].first
    ensures Gains(AddOrUpdate(ns, ns[Before(ns, x) - 1].first, x), ns, x)
  {
    hide AddOrUpdate, RemoveKey;
    MaximalIsOrdered(ns);
    var i := Before(ns, x) - 1;
    var mid := [Run(ns[i].first, x)];
    AtKey(ns, i, x);
    assert i > 0 ==> ns[i - 1].last + 1 < ns[i].first;
    SpliceIsMaximal(ns, i, i + 1, mid);
    forall y ensures Contains(mid, y) <==> Contains(ns[i..i + 1], y) || y == x {
      OneRun(mid[0], y);
      OneRun(ns[i], y);
      assert ns[i..i + 1] == [ns[i]];
    }
    SpliceAdds(ns, i, i + 1, mid, x);
  }

  lemma AddBeforeNext(ns: seq<Run>, x: uint32)
    requires Maximal(ns) && !HasKey(ns, x)
    requires Before(ns, x) > 0 ==> ns[Before(ns, x) - 1].last + 1 < x
    requires Before(ns, x) < |ns| && x + 1 == ns[Before(ns, x)].first
    ensures var next := ns[Before(ns, x)];
            Gains(AddOrUpdate(RemoveKey(AddOrUpdate(ns, x, x), next.first), x, next.last), ns, x)
  {
    hide AddOrUpdate, RemoveKey;
    MaximalIsOrdered(ns);
    var p := Before(ns, x);
    var next := ns[p];
    InsertRemoveUpdate(ns, x, next.last);
    var mid := [Run(x, next.last)];
    assert p + 1 < |ns| ==> next.last + 1 < ns[p + 1].first;
    SpliceIsMaximal(ns, p, p + 1, mid);
    forall y ensures Contains(mid, y) <==> Contains(ns[p..p + 1], y) || y == x {
      OneRun(mid[0], y);
      OneRun(next, y);
      assert ns[p..p + 1] == [next];
    }
    SpliceAdds(ns, p, p + 1, mid, x);
  }

  lemma AddBridging(ns: seq<Run>, x: uint32)
    requires Maximal(ns) && !HasKey(ns, x)
    requires Before(ns, x) > 0 && ns[Before(ns, x) - 1].last + 1 == x
    requires Before(ns, x) < |ns| && x + 1 == ns[Before(ns, x)].first
    ensures var prev, next := ns[Before(ns, x) - 1], ns[Before(ns, x)];
            Gains(AddOrUpdate(RemoveKey(ns, next.first), prev.first, next.last), ns, x)
  {
    hide AddOrUpdate, RemoveKey, HasKey;
    MaximalIsOrdered(ns);
    var p := Before(ns, x);
    var prev, next := ns[p - 1], ns[p];
    AtKey(ns, p, 0);
    var os := RemoveKey(ns, next.first);
    assert Ordered(os);
    assert os[p - 1] == prev;
    AtKey(os, p - 1, next.last);
    var mid := [Run(prev.first, next.last)];
    assert AddOrUpdate(os, prev.first, next.last) == Splice(ns, p - 1, p + 1, mid);
    assert p > 1 ==> ns[p - 2].last + 1 < prev.first;
    assert p + 1 < |ns| ==> next.last + 1 < ns[p + 1].first;
    SpliceIsMaximal(ns, p - 1, p + 1, mid);
    forall y ensures Contains(mid, y) <==> Contains(ns[p - 1..p + 1], y) || y == x {
      OneRun(mid[0], y);
      TwoRuns(prev, next, y);
      assert ns[p - 1..p + 1] == [prev, next];
    }
    SpliceAdds(ns, p - 1, p + 1, mid, x);
  }

  // ---- Remove, case by case ----

  lemma RemoveWholeRun(ns: seq<Run>, i: nat)
    requires Maximal(ns) && i < |ns| && ns[i].first == ns[i].last
    ensures Loses(RemoveKey(ns, ns[i].first), ns, ns[i].first)
  {
    hide AddOrUpdate, RemoveKey;
    MaximalIsOrdered(ns);
    AtKey(ns, i, 0);
    SpliceIsMaximal(ns, i, i + 1, []);
    assert i > 0 && i + 1 < |ns| ==> ns[i - 1].last + 1 < ns[i + 1].first;
    SpliceRemoves(ns, i, [], ns[i].first);
  }

  lemma RemoveFirst(ns: seq<Run>, i: nat)
    requires Maximal(ns) && i < |ns| && ns[i].first < ns[i].last
    ensures Loses(AddOrUpdate(RemoveKey(ns, ns[i].first), ns[i].first + 1, ns[i].last), ns, ns[i].first)
  {
    hide AddOrUpdate, RemoveKey;
    MaximalIsOrdered(ns);
    var r := ns[i];
    var mid := [Run(r.first + 1, r.last)];
    assert i + 1 < |ns| ==> r.last + 1 < ns[i + 1].first;
    ReplaceKey(ns, i, r.first + 1, r.last);
    assert i > 0 ==> ns[i - 1].last + 1 < r.first;
    assert i + 1 < |ns| ==> r.last + 1 < ns[i + 1].first;
    SpliceIsMaximal(ns, i, i + 1, mid);
    forall y ensures Contains(mid, y) <==> r.first <= y <= r.last && y != r.first {
      OneRun(mid[0], y);
    }
    SpliceRemoves(ns, i, mid, r.first);
  }

  lemma RemoveLast(ns: seq<Run>, i: nat)
    requires Maximal(ns) && i < |ns| && ns[i].first < ns[i].last
    ensures Loses(AddOrUpdate(ns, ns[i].first, ns[i].last - 1), ns, ns[i].last)
  {
    hide AddOrUpdate, RemoveKey;
    MaximalIsOrdered(ns);
    var r := ns[i];
    AtKey(ns, i, r.last - 1);
    var mid := [Run(r.first, r.last - 1)];
    assert i > 0 ==> ns[i - 1].last + 1 < r.first;
    assert i + 1 < |ns| ==> r.last + 1 < ns[i + 1].first;
    SpliceIsMaximal(ns, i, i + 1, mid);
    forall y ensures Contains(mid, y) <==> r.first <= y <= r.last && y != r.last {
      OneRun(mid[0], y);
    }
    SpliceRemoves(ns, i, mid, r.last);
  }

  lemma RemoveMiddle(ns: seq<Run>, i: nat, x: uint32)
    requires Maximal(ns) && i < |ns| && ns[i].first < x < ns[i].last
    ensures Loses(AddOrUpdate(AddOrUpdate(ns, ns[i].first, x - 1), x + 1, ns[i].last), ns, x)
  {
    hide AddOrUpdate, RemoveKey;
    MaximalIsOrdered(ns);
    var r := ns[i];
    var mid := [Run(r.first, x - 1), Run(x + 1, r.last)];
    assert i + 1 < |ns| ==> r.last + 1 < ns[i + 1].first;
    SplitKey(ns, i, x - 1, x + 1, r.last);
    assert i > 0 ==> ns[i - 1].last + 1 < r.first;
    assert i + 1 < |ns| ==> r.last + 1 < ns[i + 1].first;
    SpliceIsMaximal(ns, i, i + 1, mid);
    forall y ensures Contains(mid, y) <==> r.first <= y <= r.last && y != x {
      TwoRuns(mid[0], mid[1], y);
    }
    SpliceRemoves(ns, i, mid, x);
  }
}
