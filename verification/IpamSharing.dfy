/** When two workers can come to hold one address. */
module IpamSharing {
  import opened Arithmetic
  import opened Options
  import opened LockNames
  import opened ReleasePlan
  import opened IpamProtocol
  import opened IpamNoLeak
  import opened IpamSole

  ghost predicate Shared(s: State, at: Address) {
    exists v, w :: v != w && Holds(s, v, at) && Holds(s, w, at)
  }

  /** A step in which no create call takes effect. */
  ghost predicate Quiet(s: State, a: Action) {
    IsSole(s, a) && !a.CreateTakes?
  }

  ghost predicate IsQuietRun(s: State, run: seq<State>, acts: seq<Action>, s': State) {
    && IsRun(run, acts) && run[0] == s && run[|acts|] == s'
    && forall i :: 0 <= i < |acts| ==> Quiet(run[i], acts[i])
  }

  ghost predicate LeadsTo(s: State, s': State) {
    exists run, acts :: IsQuietRun(s, run, acts, s')
  }

  /** The worker's create call for the address is in effect and not yet replied to. */
  predicate Outstanding(s: State, w: Worker, at: Address) {
    Holds(s, w, at) && PcOf(s, 0, w).made.Some?
  }

  lemma LeadsNowhere(s: State)
    ensures LeadsTo(s, s)
  {
    var acts: seq<Action> := [];
    assert IsQuietRun(s, [s], acts, s);
  }

  lemma LeadsOneOn(s: State, s1: State, a: Action)
    requires LeadsTo(s, s1) && Enabled(s1, a) && Quiet(s1, a)
    ensures LeadsTo(s, Apply(s1, a))
  {
    hide Enabled, Apply, Quiet;
    var run, acts :| IsQuietRun(s, run, acts, s1);
    var run', acts' := run + [Apply(s1, a)], acts + [a];
    forall i | 0 <= i < |acts'| ensures Follows(run'[i], acts'[i], run'[i + 1]) && Quiet(run'[i], acts'[i]) {
      assert i < |acts| ==> Follows(run[i], acts[i], run[i + 1]) && Quiet(run[i], acts[i]);
    }
    assert IsQuietRun(s, run', acts', Apply(s1, a));
  }

  /** Without a create call taking effect none comes to be outstanding. */
  lemma NoneBecomesOutstanding(s: State, a: Action, at: Address)
    requires SoleOk(s) && Enabled(s, a) && Quiet(s, a) && forall w :: !Outstanding(s, w, at)
    ensures forall w :: !Outstanding(Apply(s, a), w, at)
  {
    hide SoleOk, Analyze, Listed, MakeName;
    forall w ensures !Outstanding(Apply(s, a), w, at) {
      assert !Outstanding(s, w, at);
    }
  }

  lemma {:induction false} StaysUnshared(s: State, run: seq<State>, acts: seq<Action>, i: nat, at: Address)
    requires SoleOk(s) && IsRun(run, acts) && run[0] == s && i < |run|
    requires forall n :: 0 <= n < |acts| ==> Quiet(run[n], acts[n])
    requires forall w :: !Outstanding(s, w, at)
    ensures SoleOk(run[i]) && forall w :: !Outstanding(run[i], w, at)
  {
    if i > 0 {
      hide SoleOk, Outstanding, IsSole, Apply, Enabled;
      StaysUnshared(s, run, acts, i - 1, at);
      assert Follows(run[i - 1], acts[i - 1], run[i - 1 + 1]);
      assert Quiet(run[i - 1], acts[i - 1]);
      StepKeepsSole(run[i - 1], acts[i - 1]);
      NoneBecomesOutstanding(run[i - 1], acts[i - 1], at);
    }
  }

  lemma UnsharedThen(s: State, at: Address)
    requires SoleOk(s) && forall w :: !Outstanding(s, w, at)
    ensures !Shared(s, at)
  {
    hide SoleOk;
    forall v, w | v != w && Holds(s, v, at) ensures !Holds(s, w, at) {
      assert !Outstanding(s, v, at) && !Outstanding(s, w, at);
      if Holds(s, w, at) {
        HoldersApart(s, v, w, at);
      }
    }
  }

  /** All notifications are delivered. */
  lemma {:induction false} Drain(s: State, s1: State) returns (s': State)
    requires LeadsTo(s, s1) && SoleOk(s1)
    ensures LeadsTo(s, s') && SoleOk(s') && s'.live == s1.live
    ensures s'.ctrls[0].inbox == [] && s'.ctrls[0].workers == s1.ctrls[0].workers
    decreases |s1.ctrls[0].inbox|
  {
    hide LeadsTo, Exact, MadeAreKnown;
    if s1.ctrls[0].inbox == [] {
      s' := s1;
    } else {
      LeadsOneOn(s, s1, Deliver(0));
      StepKeepsSole(s1, Deliver(0));
      s' := Drain(s, Apply(s1, Deliver(0)));
    }
  }

  lemma NobodyYet(k: Controller) returns (w: Worker)
    ensures w !in k.workers
  {
    w := NumberAbove(k.workers.Keys);
  }

  lemma Sharing(s: State, w: Worker, at: Address) returns (s': State)
    requires SoleOk(s) && Outstanding(s, w, at)
    ensures LeadsTo(s, s') && Shared(s', at)
  {
    hide LeadsTo, SoleOk;
    LeadsNowhere(s);
    var s1 := s;
    if at in s.live {
      LeadsOneOn(s, s, Delete(at));
      StepKeepsSole(s, Delete(at));
      s1 := Apply(s, Delete(at));
      OnlyZero(s);
    }
    OnlyZero(s1);
    assert Holds(s1, w, at) && Outstanding(s1, w, at);
    var s2 := Drain(s, s1);
    OnlyZero(s2);
    assert Outstanding(s2, w, at);
    CachedMeansWanted(s2, at);
    if at in s2.ctrls[0].cache {
      var v :| v in s2.ctrls[0].workers && Wants(s2.ctrls[0].workers[v], at);
      assert v != w && Holds(s2, v, at) && Holds(s2, w, at);
      s' := s2;
    } else {
      var v := NobodyYet(s2.ctrls[0]);
      var a := Pick(0, v, 0, Attachment(0, None, None), Wanted(at.vni, at.addr, at.addr), at.addr);
      HeldIsSmall(s2, w);
      LeadsOneOn(s, s2, a);
      s' := Apply(s2, a);
      assert v != w && Holds(s', v, at) && Holds(s', w, at);
    }
  }

  lemma OnlyZero(s: State)
    requires SoleOk(s)
    ensures 0 in s.ctrls
  {
  }

  lemma HeldIsSmall(s: State, w: Worker)
    requires SoleOk(s) && Creating(s, 0, w)
    ensures PcOf(s, 0, w).at.vni < 0x20_0000
  {
  }

  lemma CachedMeansWanted(s: State, at: Address)
    requires SoleOk(s) && s.ctrls[0].inbox == [] && at !in s.live
    ensures at in s.ctrls[0].cache ==> AwaitedBy(s.ctrls[0], at)
  {
    hide LastAbout, DeletesComeLast;
    EmptyInbox();
    assert ExactAt(s.live, s.ctrls[0], at);
  }

  /**
   From a reachable state of a sole controller two workers can come to hold an address, without any further
   create call taking effect, exactly when some create call for it is in effect and not yet replied to.
   */
  lemma SharedIff(run: seq<State>, acts: seq<Action>, i: nat, at: Address)
    requires IsSoleRun(run, acts) && i < |run|
    ensures (exists s' :: LeadsTo(run[i], s') && Shared(s', at)) <==> exists w :: Outstanding(run[i], w, at)
  {
    hide SoleOk, LeadsTo, Shared, Outstanding;
    RunsStayExact(run, acts, i);
    if w :| Outstanding(run[i], w, at) {
      var s' := Sharing(run[i], w, at);
    } else {
      forall s' | LeadsTo(run[i], s') ensures !Shared(s', at) {
        NeverShared(run[i], s', at);
      }
    }
  }

  lemma NeverShared(s: State, s': State, at: Address)
    requires SoleOk(s) && LeadsTo(s, s') && forall w :: !Outstanding(s, w, at)
    ensures !Shared(s', at)
  {
    hide SoleOk, Shared, Outstanding, Quiet;
    var run, acts :| IsQuietRun(s, run, acts, s');
    StaysUnshared(s, run, acts, |acts|, at);
    UnsharedThen(s', at);
  }

  /** It takes no more than one pick and one lock: from there a run leads to two workers that hold 0.0.0.10 on VNI 5. */
  lemma SharingExample() returns (run: seq<State>, acts: seq<Action>, s: State)
    ensures IsSoleRun(run, acts) && |acts| == 2 && LeadsTo(run[2], s) && Shared(s, Address(5, 10))
  {
    hide LeadsTo, Shared, SoleOk, MakeName;
    var s0 := State(map[], map[], map[0 := Controller({}, [], map[])], []);
    var pick := Pick(0, 0, 1, Attachment(2, None, None), Wanted(5, 10, 10), 10);
    var take := CreateTakes(0, 0, 7, 0);
    var s1 := Apply(s0, pick);
    var s2 := Apply(s1, take);
    run, acts := [s0, s1, s2], [pick, take];
    assert Follows(run[0], acts[0], run[0 + 1]) && Follows(run[1], acts[1], run[1 + 1]);
    RunsStayExact(run, acts, 2);
    assert Outstanding(s2, 0, Address(5, 10));
    s := Sharing(s2, 0, Address(5, 10));
  }
}
