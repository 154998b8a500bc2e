/** The repository's random test, for every sequence of operations instead of sampled ones. */
module SetMirror {
  import opened UInt32
  import opened RunLists
  import opened SortedSets
  import opened HashSets

  datatype Op =
    | Add(x: uint32)
    | Remove(x: uint32)
    | AddOne(min: uint32, max: uint32, gapDraw: nat, offsetDraw: nat)
    | Has(x: uint32)

  /** What an operation answers, and how the set looks from outside afterwards. */
  datatype Answer = Answer(yes: bool, x: uint32, listing: seq<int>, runs: seq<int>, empty: bool)

  /** The members after an operation with this answer. */
  function After(s: set<int>, op: Op, a: Answer): set<int> {
    match op
    case Add(x) => s + {x}
    case Remove(x) => s - {x}
    case AddOne(min, max, _, _) => if a.yes then s + {a.x} else s
    case Has(x) => s
  }

  /** The answer of a mathematical set: of AddOne any free number of the range will do. */
  ghost predicate Right(s: set<int>, op: Op, a: Answer) {
    && (match op
        case Add(x) => a.yes <==> x !in s
        case Remove(x) => a.yes <==> x in s
        case AddOne(min, max, _, _) =>
          && (a.yes <==> exists y :: min <= y <= max && y !in s)
          && (a.yes ==> min <= a.x <= max && a.x !in s)
        case Has(x) => a.yes <==> x in s)
    && Increasing(a.listing) && (forall y :: y in a.listing <==> y in After(s, op, a))
    && ListsRunsOf(a.runs, After(s, op, a))
    && (a.empty <==> After(s, op, a) == {})
  }

  function SetAfter(ops: seq<Op>, answers: seq<Answer>): set<int>
    requires |ops| == |answers|
  {
    if ops == [] then {}
    else After(SetAfter(ops[..|ops| - 1], answers[..|ops| - 1]), ops[|ops| - 1], answers[|ops| - 1])
  }

  ghost predicate AllRight(ops: seq<Op>, answers: seq<Answer>)
    requires |ops| == |answers|
  {
    forall i :: 0 <= i < |ops| ==> Right(SetAfter(ops[..i], answers[..i]), ops[i], answers[i])
  }

  lemma OneMoreRight(ops: seq<Op>, answers: seq<Answer>, op: Op, a: Answer)
    requires |ops| == |answers| && AllRight(ops, answers) && Right(SetAfter(ops, answers), op, a)
    ensures AllRight(ops + [op], answers + [a])
    ensures SetAfter(ops + [op], answers + [a]) == After(SetAfter(ops, answers), op, a)
  {
    hide Right, After;
    var ops', answers' := ops + [op], answers + [a];
    assert ops'[..|ops|] == ops && answers'[..|ops|] == answers;
    forall i | 0 <= i < |ops'| ensures Right(SetAfter(ops'[..i], answers'[..i]), ops'[i], answers'[i]) {
      if i < |ops| {
        assert ops'[..i] == ops[..i] && answers'[..i] == answers[..i];
      }
    }
  }

  /** Equal members give equal exports: the run form is canonical. */
  lemma ExportsAgree(ns: seq<Run>, members: set<int>, hashExport: seq<int>, hashRExport: seq<int>)
    requires Maximal(ns) && Members(ns) == members
    requires Increasing(hashExport) && forall y :: y in hashExport <==> y in members
    requires ListsRunsOf(hashRExport, members)
    ensures hashExport == Flatten(ns)
    ensures hashRExport == Pairs(ns)
  {
    FlattenIsSorted(ns);
    forall y ensures y in Flatten(ns) <==> y in hashExport {
      MembersAre(ns, y);
    }
    IncreasingIsUnique(hashExport, Flatten(ns));
    var rs :| Maximal(rs) && Members(rs) == members && hashRExport == Pairs(rs);
    forall x | 0 <= x <= 0xFFFF_FFFF ensures Contains(rs, x) <==> Contains(ns, x) {
      MembersAre(ns, x);
      MembersAre(rs, x);
    }
    MaximalRunsAreCanonical(rs, ns);
  }

  lemma MembersAre(ns: seq<Run>, y: int)
    requires Maximal(ns)
    ensures y in Members(ns) <==> Contains(ns, y)
  {
  }

  /**
   The oracle accepts whatever AddOneInRange answers.  When the range has no free number the
   answer is 0, and 0 is then either a member or out of the range.
   */
  lemma OracleAccepts(ns: seq<Run>, min: uint32, max: uint32, x: uint32, ok: bool)
    requires Maximal(ns)
    requires ok <==> HasFree(ns, min, max)
    requires ok ==> Free(ns, min, max, x)
    requires !ok ==> x == 0
    ensures ok <==> min <= x <= max && x !in Members(ns)
    ensures (if min <= x <= max then Members(ns) + {x} else Members(ns))
            == if ok then Members(ns) + {x} else Members(ns)
  {
    MembersAre(ns, x);
    if min <= x <= max && x !in Members(ns) {
      assert Free(ns, min, max, x);
    }
  }

  /** A free number of the range, of the run set and of the set of its members. */
  lemma FreeInSet(ns: seq<Run>, s: set<int>, min: uint32, max: uint32)
    requires Maximal(ns) && s == Members(ns)
    ensures HasFree(ns, min, max) <==> exists y :: min <= y <= max && y !in s
  {
    if y :| min <= y <= max && y !in s {
      MembersAre(ns, y);
      assert Free(ns, min, max, y);
    }
    if y :| Free(ns, min, max, y) {
      MembersAre(ns, y);
      assert min <= y <= max && y !in s;
    }
  }

  /** Performs one operation on both sets; the hash set's answer to an answer of AddOneInRange is whether it agrees. */
  method Perform(uis: SortedUInt32Set, hus: HashUInt32Set, op: Op) returns (fast: Answer, slow: Answer)
    requires uis.Valid() && hus.Valid() && uis.Elements() == hus.members
    modifies uis, hus
    ensures uis.Valid() && hus.Valid() && uis.Elements() == hus.members
    ensures fast == slow && Right(old(uis.Elements()), op, fast)
    ensures uis.Elements() == After(old(uis.Elements()), op, fast)
  {
    hide Members, ListsRunsOf, Flatten, Pairs, HasFree, Chosen;
    var yes, yes', x := false, false, 0;
    match op {
      case Add(n) =>
        yes := uis.Add(n);
        yes' := hus.Add(n);
      case Remove(n) =>
        yes := uis.Remove(n);
        yes' := hus.Remove(n);
      case AddOne(min, max, gapDraw, offsetDraw) =>
        FreeInSet(uis.nodes, uis.Elements(), min, max);
        ghost var was := uis.nodes;
        x, yes := uis.AddOneInRange(min, max, gapDraw, offsetDraw);
        OracleAccepts(was, min, max, x, yes);
        var could := hus.CouldAddInRange(min, max, x, yes);
        yes' := if could then yes else !yes;
      case Has(n) =>
        yes := uis.Has(n);
        yes' := hus.Has(n);
    }
    var e1 := uis.Export();
    var e2 := hus.Export();
    var r1 := uis.RExport();
    var r2 := hus.RExport();
    var m1 := uis.IsEmpty();
    var m2 := hus.IsEmpty();
    ExportsAgree(uis.nodes, hus.members, e2, r2);
    fast, slow := Answer(yes, x, e1, r1, m1), Answer(yes', x, e2, r2, m2);
  }

  /** Over any sequence of operations both sets answer alike, and as a mathematical set does. */
  method MirroredRun(ops: seq<Op>) returns (fast: seq<Answer>, slow: seq<Answer>)
    ensures |fast| == |ops| && fast == slow && AllRight(ops, fast)
  {
    hide Members, Right, After;
    var uis := new SortedUInt32Set(1);
    var hus := new HashUInt32Set();
    fast, slow := [], [];
    for i := 0 to |ops|
      invariant uis.Valid() && hus.Valid()
      invariant |fast| == i && fast == slow && AllRight(ops[..i], fast)
      invariant uis.Elements() == hus.members == SetAfter(ops[..i], fast)
    {
      var a, b := Perform(uis, hus, ops[i]);
      OneMoreRight(ops[..i], fast, ops[i], a);
      assert ops[..i + 1] == ops[..i] + [ops[i]];
      fast, slow := fast + [a], slow + [b];
    }
    assert ops[..|ops|] == ops;
  }
}
