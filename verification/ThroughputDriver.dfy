/**
 How the load driver of staging/kos/cmd/attachment-tput-driver/main.go lists and shuffles the slots of its virtual
 networks and spreads them over its threads.
 */
module ThroughputDriver {
  import opened Arithmetic
  import opened Shares

  /** A slot of a virtual network, by the indices of both. */
  datatype SlotRef = SlotRef(net: nat, slot: nat)

  // ---- Spreading the slots ----

  /** The slots of all networks, network by network. */
  function EverySlot(sizes: seq<nat>): seq<SlotRef> {
    if sizes == [] then []
    else EverySlot(sizes[..|sizes| - 1]) + seq(sizes[|sizes| - 1], (j: nat) => SlotRef(|sizes| - 1, j))
  }

  function Total(sizes: seq<nat>): nat {
    if sizes == [] then 0 else Total(sizes[..|sizes| - 1]) + sizes[|sizes| - 1]
  }

  lemma {:induction false} SlotsInTotal(sizes: seq<nat>)
    ensures |EverySlot(sizes)| == Total(sizes)
  {
    if sizes != [] {
      SlotsInTotal(sizes[..|sizes| - 1]);
    }
  }

  predicate NoDuplicates<T(==)>(s: seq<T>) {
    forall i, j :: 0 <= i < j < |s| ==> s[i] != s[j]
  }

  /** Each slot of each network is there, once. */
  lemma {:induction false} EverySlotOnce(sizes: seq<nat>)
    ensures forall r :: r in EverySlot(sizes) <==> r.net < |sizes| && r.slot < sizes[r.net]
    ensures NoDuplicates(EverySlot(sizes))
  {
    if sizes != [] {
      var init, n := sizes[..|sizes| - 1], |sizes| - 1;
      EverySlotOnce(init);
      var last := seq(sizes[n], (j: nat) => SlotRef(n, j));
      forall r ensures r in EverySlot(sizes) <==> r.net < |sizes| && r.slot < sizes[r.net] {
        assert r in EverySlot(sizes) <==> r in EverySlot(init) || r in last;
        assert r in last <==> r.net == n && r.slot < sizes[n] by {
          if r.net == n && r.slot < sizes[n] {
            assert last[r.slot] == r;
          }
        }
      }
      forall i, j | 0 <= i < j < |EverySlot(sizes)| ensures EverySlot(sizes)[i] != EverySlot(sizes)[j] {
        if i < |EverySlot(init)| {
          assert EverySlot(sizes)[i] in EverySlot(init);
        }
      }
    }
  }

  /** The slots are listed by two nested loops. */
  method ListSlots(sizes: seq<nat>) returns (all: array<SlotRef>)
    ensures fresh(all) && all[..] == EverySlot(sizes)
  {
    SlotsInTotal(sizes);
    all := new SlotRef[Total(sizes)](_ => SlotRef(0, 0));
    var k := 0;
    for i := 0 to |sizes|
      invariant k == |EverySlot(sizes[..i])| <= all.Length
      invariant all[..k] == EverySlot(sizes[..i])
    {
      assert sizes[..i + 1][..i] == sizes[..i];
      FitsSoFar(sizes, i + 1);
      ghost var start := k;
      for j := 0 to sizes[i]
        invariant k == start + j && start + sizes[i] <= all.Length
        invariant all[..k] == EverySlot(sizes[..i]) + seq(j, (n: nat) => SlotRef(i, n))
      {
        all[k] := SlotRef(i, j);
        k := k + 1;
      }
    }
    assert sizes[..|sizes|] == sizes;
  }

  lemma {:induction false} FitsSoFar(sizes: seq<nat>, i: nat)
    requires i <= |sizes|
    ensures |EverySlot(sizes[..i])| <= Total(sizes)
    decreases |sizes| - i
  {
    if i == |sizes| {
      assert sizes[..i] == sizes;
      SlotsInTotal(sizes);
    } else {
      FitsSoFar(sizes, i + 1);
      assert sizes[..i + 1][..i] == sizes[..i];
    }
  }

  /** What is left when the element at `j` is taken: the last one fills its place. */
  function TakenFrom(x: seq<SlotRef>, j: nat): seq<SlotRef>
    requires j < |x|
  {
    var n := |x| - 1;
    if j == n then x[..n] else x[..n][j := x[n]]
  }

  /** The draws from number `i` on pick the elements; `draw(i)` stands for the random number of step `i`. */
  function Shuffled(x: seq<SlotRef>, draw: nat -> nat, i: nat): seq<SlotRef>
    decreases |x|
  {
    if x == [] then []
    else
      var j := draw(i) % |x|;
      [x[j]] + Shuffled(TakenFrom(x, j), draw, i + 1)
  }

  /** The input array is overwritten. */
  method Shuffle(x: array<SlotRef>, draw: nat -> nat) returns (ans: array<SlotRef>)
    modifies x
    ensures ans[..] == Shuffled(old(x[..]), draw, 0)
    ensures x.Length < 2 ==> ans == x && x[..] == old(x[..])
    ensures x.Length >= 2 ==> fresh(ans)
  {
    hide Shuffled, TakenFrom;
    if x.Length < 2 {
      ShortShuffle(x[..], draw, 0);
      return x;
    }
    ans := new SlotRef[x.Length](_ => SlotRef(0, 0));
    var rem := x.Length;
    assert x[..rem] == x[..];
    for i := 0 to x.Length - 1
      invariant rem == x.Length - i
      invariant ans[..i] + Shuffled(x[..rem], draw, i) == Shuffled(old(x[..]), draw, 0)
    {
      var j := draw(i) % rem;
      ghost var done, left := ans[..i], x[..rem];
      ans[i] := x[j];
      rem := rem - 1;
      if j != rem {
        x[j] := x[rem];
      }
      assert ans[..i + 1] == done + [left[j]];
      OneTaken(done, left, x[..rem], draw, i);
    }
    ans[x.Length - 1] := x[0];
    assert ans[..] == ans[..x.Length - 1] + [x[0]];
    ShortShuffle(x[..1], draw, x.Length - 1);
  }

  lemma ShortShuffle(x: seq<SlotRef>, draw: nat -> nat, i: nat)
    requires |x| < 2
    ensures Shuffled(x, draw, i) == x
  {
    if x != [] {
      assert TakenFrom(x, 0) == [] && x == [x[0]];
    }
  }

  lemma OneTaken(done: seq<SlotRef>, left: seq<SlotRef>, left': seq<SlotRef>, draw: nat -> nat, i: nat)
    requires |left| == |left'| + 1
    requires var j := draw(i) % |left|;
             forall n :: 0 <= n < |left'| ==> left'[n] == if n == j then left[|left'|] else left[n]
    ensures done + Shuffled(left, draw, i) == done + [left[draw(i) % |left|]] + Shuffled(left', draw, i + 1)
  {
    assert left' == TakenFrom(left, draw(i) % |left|);
  }

  lemma TakingOut(x: seq<SlotRef>, j: nat)
    requires j < |x|
    ensures multiset{x[j]} + multiset(TakenFrom(x, j)) == multiset(x)
  {
    var n := |x| - 1;
    assert x == x[..n] + [x[n]];
  }

  /** Nothing is lost or repeated. */
  lemma {:induction false} ShuffledIsPermutation(x: seq<SlotRef>, draw: nat -> nat, i: nat)
    ensures multiset(Shuffled(x, draw, i)) == multiset(x)
    decreases |x|
  {
    if x != [] {
      var j := draw(i) % |x|;
      TakingOut(x, j);
      ShuffledIsPermutation(TakenFrom(x, j), draw, i + 1);
    }
  }

  /** Any arrangement can come out. */
  lemma {:induction false} EveryArrangement(x: seq<SlotRef>, y: seq<SlotRef>, i: nat) returns (draw: nat -> nat)
    requires multiset(x) == multiset(y)
    ensures Shuffled(x, draw, i) == y
    decreases |x|
  {
    SameSize(x, y);
    if x == [] {
      draw := n => 0;
    } else {
      hide Shuffled, TakenFrom;
      var j := FirstOf(x, y);
      var draw' := EveryArrangement(TakenFrom(x, j), y[1..], i + 1);
      draw := n => if n == i then j else draw'(n);
      LaterDrawsMatter(TakenFrom(x, j), draw, draw', i + 1);
      FirstTaken(x, y, draw, i);
    }
  }

  /** Where the first element of an arrangement is. */
  lemma FirstOf(x: seq<SlotRef>, y: seq<SlotRef>) returns (j: nat)
    requires multiset(x) == multiset(y) && y != []
    ensures j < |x| && x[j] == y[0] && multiset(TakenFrom(x, j)) == multiset(y[1..])
    ensures |TakenFrom(x, j)| < |x|
  {
    hide TakenFrom;
    assert y == [y[0]] + y[1..];
    assert y[0] in multiset(x);
    j :| j < |x| && x[j] == y[0];
    TakingOut(x, j);
    Cancels(multiset{y[0]}, multiset(TakenFrom(x, j)), multiset(y[1..]));
    SameSize(TakenFrom(x, j), y[1..]);
    SameSize(x, y);
  }

  lemma FirstTaken(x: seq<SlotRef>, y: seq<SlotRef>, draw: nat -> nat, i: nat)
    requires y != [] && draw(i) < |x| && x[draw(i)] == y[0]
    requires Shuffled(TakenFrom(x, draw(i)), draw, i + 1) == y[1..]
    ensures Shuffled(x, draw, i) == y
  {
    QuotientIs(draw(i), |x|, 0, draw(i));
    hide TakenFrom;
  }

  lemma Cancels(a: multiset<SlotRef>, b: multiset<SlotRef>, c: multiset<SlotRef>)
    requires a + b == a + c
    ensures b == c
  {
    forall r ensures b[r] == c[r] {
      assert (a + b)[r] == (a + c)[r];
    }
  }

  lemma {:induction false} LaterDrawsMatter(x: seq<SlotRef>, draw: nat -> nat, draw': nat -> nat, i: nat)
    requires forall n :: n >= i ==> draw(n) == draw'(n)
    ensures Shuffled(x, draw, i) == Shuffled(x, draw', i)
    decreases |x|
  {
    if x != [] {
      LaterDrawsMatter(TakenFrom(x, draw(i) % |x|), draw, draw', i + 1);
    }
  }

  lemma SameSize(a: seq<SlotRef>, b: seq<SlotRef>)
    requires multiset(a) == multiset(b)
    ensures |a| == |b|
  {
    assert |multiset(a)| == |a| && |multiset(b)| == |b|;
  }

  /** The work of a thread: every `threads`-th slot. */
  function Selected(thd: nat, threads: nat, from: seq<SlotRef>): (work: seq<SlotRef>)
    requires thd < threads
    ensures |work| == Share(|from|, threads, thd)
  {
    seq(Share(|from|, threads, thd), i requires 0 <= i < Share(|from|, threads, thd) =>
      ShareInRange(|from|, threads, thd, i);
      from[thd + i * threads])
  }

  lemma ShareInRange(total: nat, parts: nat, part: nat, i: nat)
    requires part < parts && i < Share(total, parts, part)
    ensures part + i * parts < total
  {
    RoundsFit(total + parts - 1 - part, parts, i);
  }

  /** It is the elements at `thd`, `thd + threads` and so on to the end. */
  lemma SelectedAre(thd: nat, threads: nat, from: seq<SlotRef>)
    requires thd < threads
    ensures var work := Selected(thd, threads, from);
            && |from| <= thd + |work| * threads
            && forall i :: 0 <= i < |work| ==> thd + i * threads < |from| && work[i] == from[thd + i * threads]
  {
    var x := |from| + threads - 1 - thd;
    assert x == x / threads * threads + x % threads;
    hide Share;
    ShareIs(|from|, threads, thd);
    var work := Selected(thd, threads, from);
    forall i | 0 <= i < |work| ensures thd + i * threads < |from| && work[i] == from[thd + i * threads] {
      ShareInRange(|from|, threads, thd, i);
    }
  }

  method SelectWork(thd: nat, threads: nat, from: array<SlotRef>) returns (ans: array<SlotRef>)
    requires thd < threads
    ensures fresh(ans) && ans[..] == Selected(thd, threads, from[..])
  {
    hide Share;
    var count := (from.Length + threads - 1 - thd) / threads;
    assert count == Share(from.Length, threads, thd) by {
      ShareIs(from.Length, threads, thd);
    }
    ans := new SlotRef[count](_ => SlotRef(0, 0));
    for i := 0 to ans.Length
      invariant ans[..i] == Selected(thd, threads, from[..])[..i]
    {
      ShareInRange(from.Length, threads, thd, i);
      ans[i] := from[thd + i * threads];
    }
  }

  lemma ShareIs(total: nat, parts: nat, part: nat)
    requires part < parts
    ensures Share(total, parts, part) == (total + parts - 1 - part) / parts
  {
  }

  /** What the threads below `upto` have to do together. */
  function AllSelected(upto: nat, threads: nat, from: seq<SlotRef>): multiset<SlotRef>
    requires upto <= threads
  {
    if upto == 0 then multiset{} else AllSelected(upto - 1, threads, from) + multiset(Selected(upto - 1, threads, from))
  }

  lemma SelectedStep(thd: nat, threads: nat, from: seq<SlotRef>, r: SlotRef)
    requires thd < threads
    ensures Selected(thd, threads, from + [r])
            == Selected(thd, threads, from) + if |from| % threads == thd then [r] else []
  {
    var n := |from|;
    ShareStep(n, threads, thd);
    hide Share;
    var before, after := Selected(thd, threads, from), Selected(thd, threads, from + [r]);
    forall i | 0 <= i < |before| ensures after[i] == before[i] {
      ShareInRange(n, threads, thd, i);
    }
    if n % threads == thd {
      var q := n / threads;
      ShareInWindow(n, n, threads);
      assert n == thd + q * threads;
    }
  }

  lemma {:induction false} NothingSelected(upto: nat, threads: nat)
    requires upto <= threads
    ensures AllSelected(upto, threads, []) == multiset{}
  {
    if upto > 0 {
      NothingSelected(upto - 1, threads);
      ShareOfNothing(threads, upto - 1);
    }
  }

  lemma {:induction false} AllSelectedStep(upto: nat, threads: nat, from: seq<SlotRef>, r: SlotRef)
    requires upto <= threads && threads > 0
    ensures AllSelected(upto, threads, from + [r])
            == AllSelected(upto, threads, from) + if |from| % threads < upto then multiset{r} else multiset{}
  {
    hide Selected;
    if upto > 0 {
      AllSelectedStep(upto - 1, threads, from, r);
      SelectedStep(upto - 1, threads, from, r);
    }
  }

  /** Together the threads do each slot just once, and with no more threads than slots each has something to do. */
  lemma {:induction false} WorkIsPartitioned(threads: nat, from: seq<SlotRef>)
    requires threads > 0
    ensures AllSelected(threads, threads, from) == multiset(from)
    ensures threads <= |from| ==> forall thd :: 0 <= thd < threads ==> Selected(thd, threads, from) != []
  {
    hide Selected;
    if from == [] {
      NothingSelected(threads, threads);
    } else {
      var init, r := from[..|from| - 1], from[|from| - 1];
      assert from == init + [r];
      WorkIsPartitioned(threads, init);
      AllSelectedStep(threads, threads, init, r);
    }
    if threads <= |from| {
      forall thd | 0 <= thd < threads ensures Selected(thd, threads, from) != [] {
        EachHasWork(|from|, threads, thd);
      }
    }
  }

  lemma EachHasWork(total: nat, parts: nat, part: nat)
    requires part < parts <= total
    ensures Share(total, parts, part) > 0
  {
    var x := total + parts - 1 - part;
    assert x == (x / parts) * parts + x % parts;
  }
}
