/** The simple set of staging/kos/pkg/uint32set/hashset.go, the oracle of the repository's random test. */
module HashSets {
  import opened UInt32
  import opened RunLists
  import opened RunSplicing
  import opened SortedSets

  /** `ans` is the alternating form of the maximal runs of `members`. */
  ghost predicate ListsRunsOf(ans: seq<int>, members: set<int>) {
    exists rs: seq<Run> :: Maximal(rs) && Members(rs) == members && ans == Pairs(rs)
  }

  lemma SnocRun(rs: seq<Run>, r: Run)
    requires Maximal(rs) && r.first <= r.last
    requires rs != [] ==> rs[|rs| - 1].last + 1 < r.first
    ensures Maximal(rs + [r]) && Pairs(rs + [r]) == Pairs(rs) + [r.first, r.last]
    ensures forall y :: Contains(rs + [r], y) <==> Contains(rs, y) || r.first <= y <= r.last
  {
    MaximalConcat(rs, [r]);
    var c := rs + [r];
    assert c[..|c| - 1] == rs && c[|c| - 1] == r;
    forall y ensures Contains(c, y) <==> Contains(rs, y) || r.first <= y <= r.last {
      ContainsConcat(rs, [r], y);
      OneRun(r, y);
    }
  }

  /**
   The state of a scan that has looked at every number below `x`: the closed runs `rs`, and a run
   from `start` that is still open when `isin`.
   */
  ghost predicate Scanned(rs: seq<Run>, isin: bool, start: int, members: set<int>, x: int) {
    && Maximal(rs)
    && (isin ==> 0 <= start < x)
    && (rs != [] ==> rs[|rs| - 1].last + 1 < if isin then start else x)
    && forall y :: (0 <= y < x && y in members) <==> (Contains(rs, y) || (isin && start <= y < x))
  }

  lemma ScanStart(members: set<int>, low: uint32)
    requires forall y :: y in members ==> low <= y
    ensures Scanned([], false, 0, members, low)
  {
  }

  lemma ScanEnd(rs: seq<Run>, members: set<int>, high: uint32, x: int)
    requires Scanned(rs, false, 0, members, x) && high < x
    requires forall y :: y in members ==> 0 <= y <= high
    ensures ListsRunsOf(Pairs(rs), members)
  {
    assert Members(rs) == members;
  }

  lemma EmptyPairs()
    ensures Pairs([]) == []
  {
  }

  lemma ScanIn(rs: seq<Run>, isin: bool, start: int, members: set<int>, x: uint32)
    requires Scanned(rs, isin, start, members, x) && x in members
    ensures Scanned(rs, true, if isin then start else x, members, x + 1)
  {
    hide Maximal, Contains;
  }

  lemma ScanOut(rs: seq<Run>, start: int, members: set<int>, x: int)
    requires x !in members
    requires 0 <= x <= 0x1_0000_0000
    ensures Scanned(rs, false, 0, members, x) ==> Scanned(rs, false, 0, members, x + 1)
    ensures Scanned(rs, true, start, members, x)
            ==> 0 <= start < x
                && Scanned(rs + [Run(start, x - 1)], false, 0, members, x + 1)
                && Pairs(rs + [Run(start, x - 1)]) == Pairs(rs) + [start, x - 1]
  {
    hide Maximal, Contains, Pairs;
    if Scanned(rs, true, start, members, x) {
      SnocRun(rs, Run(start, x - 1));
      assert (rs + [Run(start, x - 1)])[|rs|] == Run(start, x - 1);
    }
  }

  class HashUInt32Set {
    var low: uint32
    var high: uint32
    var members: set<int>

    /** The bounds enclose the members, but after a removal they need not be tight. */
    ghost predicate Valid()
      reads this
    {
      && (forall x :: x in members ==> low <= x <= high)
      && (members == {} ==> low == LAST && high == 0)
    }

    constructor ()
      ensures Valid() && members == {}
    {
      low, high, members := LAST, 0, {};
    }

    method IsEmpty() returns (empty: bool)
      ensures empty <==> members == {}
    {
      empty := |members| == 0;
    }

    method Has(x: uint32) returns (has: bool)
      ensures has <==> x in members
    {
      has := x in members;
    }

    method Add(x: uint32) returns (added: bool)
      requires Valid()
      modifies this
      ensures Valid()
      ensures added <==> x !in old(members)
      ensures members == old(members) + {x}
    {
      if x in members {
        return false;
      }
      members := members + {x};
      if x < low {
        low := x;
      }
      if x > high {
        high := x;
      }
      return true;
    }

    method Remove(x: uint32) returns (removed: bool)
      requires Valid()
      modifies this
      ensures Valid()
      ensures removed <==> x in old(members)
      ensures members == old(members) - {x}
    {
      if x !in members {
        return false;
      }
      members := members - {x};
      if |members| == 0 {
        low, high := LAST, 0;
      }
      return true;
    }

    /** Whether AddOneInRange could have answered `(x, could)`; performs the addition if so. */
    method CouldAddInRange(min: uint32, max: uint32, x: uint32, could: bool) returns (agrees: bool)
      requires Valid()
      modifies this
      ensures Valid()
      ensures agrees <==> (could <==> min <= x <= max && x !in old(members))
      ensures members == if min <= x <= max then old(members) + {x} else old(members)
    {
      var c: bool;
      if x < min || x > max {
        c := false;
      } else {
        var has := Has(x);
        c := !has;
        if c {
          var added := Add(x);
        }
      }
      return c == could;
    }

    /** Scans from the low to the high bound. */
    method Export() returns (ans: seq<int>)
      requires Valid()
      ensures Increasing(ans)
      ensures forall y :: y in ans <==> y in members
    {
      ans := [];
      var x: uint32 := low;
      while true
        invariant 0 <= x <= LAST && low <= x
        invariant Increasing(ans)
        invariant forall y :: y in ans <==> y in members && y < x
        decreases LAST - x
      {
        if x in members {
          assert forall i :: 0 <= i < |ans| ==> ans[i] in ans;
          ans := ans + [x];
        }
        if x >= high {
          break;
        }
        x := Wrap(x + 1);
      }
    }

    method RExport() returns (ans: seq<int>)
      requires Valid()
      ensures ListsRunsOf(ans, members)
    {
      ans := [];
      hide Scanned, Pairs, Wrap, ListsRunsOf, Maximal, Members;
      var isin := false;
      var x: uint32 := low;
      ghost var rs: seq<Run> := [];
      ghost var start: uint32 := 0;
      ScanStart(members, low);
      assert Pairs(rs) == [] by {
        EmptyPairs();
      }
      while true
        invariant low <= x
        invariant Scanned(rs, isin, start, members, x)
        invariant if isin then start < x else start == 0
        invariant ans == Pairs(rs) + if isin then [start] else []
        decreases LAST - x
      {
        if x in members {
          ScanIn(rs, isin, start, members, x);
        } else {
          ScanOut(rs, start, members, x);
        }
        if x in members && !isin {
          ans := ans + [x];
          isin := true;
          start := x;
        } else if isin && x !in members {
          rs := rs + [Run(start, x - 1)];
          ans := ans + [Wrap(x - 1)];
          isin, start := false, 0;
        }
        if x >= high {
          break;
        }
        x := Wrap(x + 1);
      }
      if isin {
        ScanOut(rs, start, members, x + 1);
        rs := rs + [Run(start, x)];
        ans := ans + [x];
        ScanEnd(rs, members, high, x + 2);
      } else {
        ScanEnd(rs, members, high, x + 1);
      }
      assert ans == Pairs(rs);
    }
  }
}
