/** What the addresses written into attachment statuses rest on. */
module IpamStatus {
  import opened Options
  import opened UInt32
  import opened LockNames
  import opened ReleasePlan
  import opened IpamProtocol

  predicate Covers(want: Wanted, at: Address) {
    at.vni == want.vni && want.base <= at.addr <= want.last
  }

  /**
   The update names a lock that was made, is owned by the attachment, has a name that decodes to just the
   VNI and address written, and lies within the subnet the worker read.
   */
  predicate Backed(s: State, wr: Write) {
    && wr.lockUid.Some? && wr.lockUid.value in s.ever
    && s.ever[wr.lockUid.value].ownerUid == wr.attUid
    && Parsed(s.ever[wr.lockUid.value].name) == Some(wr.at)
    && Covers(wr.want, wr.at)
  }

  predicate WriteOk(s: State, wr: Write) {
    if wr.rejected then wr.lockUid.None? else Backed(s, wr)
  }

  predicate PcOk(s: State, pc: Pc) {
    match pc
    case AwaitCreate(at, name, att, want, made) =>
      Covers(want, at) && at.vni < 0x20_0000 && (made.Some? ==> WriteOk(s, Write(att.uid, at, made, want, false)))
    case AwaitGet(at, name, att, want) => Covers(want, at) && at.vni < 0x20_0000
    case AwaitUpdate(write) => WriteOk(s, write)
  }

  predicate StoreOk(s: State) {
    && (forall u :: u in s.ever ==> s.ever[u].uid == u)
    && (forall at :: at in s.live ==> s.live[at].uid in s.ever && s.ever[s.live[at].uid] == s.live[at])
    && (forall at :: at in s.live ==> Parsed(s.live[at].name) == Some(at))
  }

  ghost predicate StatusOk(s: State) {
    && StoreOk(s)
    && (forall c, w :: At(s, c, w) ==> PcOk(s, PcOf(s, c, w)))
    && (forall i :: 0 <= i < |s.writes| ==> WriteOk(s, s.writes[i]))
  }

  /** Locks are never changed, so more of them back no less. */
  lemma MoreLocks(s: State, s': State)
    requires forall u :: u in s.ever ==> u in s'.ever && s'.ever[u] == s.ever[u]
    ensures forall wr :: WriteOk(s, wr) ==> WriteOk(s', wr)
    ensures forall pc :: PcOk(s, pc) ==> PcOk(s', pc)
  {
  }

  lemma {:induction false} ParsedComesFrom(locks: seq<IPLock>, p: ParsedLock)
    requires p in ParsedLocks(locks)
    ensures exists l :: l in locks && NewParsedLock(l) == Some(p)
  {
    var init, last := locks[..|locks| - 1], locks[|locks| - 1];
    if p in ParsedLocks(init) {
      ParsedComesFrom(init, p);
      var l :| l in init && NewParsedLock(l) == Some(p);
      assert l in locks;
    } else {
      assert last in locks && NewParsedLock(last) == Some(p);
    }
  }

  /** The lock an attachment already owns and keeps backs the update that names it. */
  lemma KeepIsBacked(s: State, a: Action)
    requires StatusOk(s) && a.Keep? && Enabled(s, a)
    ensures var p := Analyze(Some(a.att), a.want, a.owned, a.fetched).forStatus.value;
            Backed(s, Write(a.att.uid, p.at, Some(p.uid), a.want, false))
  {
    hide Analyze, Considered, Parsed, ParsedLocks;
    var p := Analyze(Some(a.att), a.want, a.owned, a.fetched).forStatus.value;
    KeptIsRight(Some(a.att), a.want, a.owned, a.fetched);
    var plan := Analyze(Some(a.att), a.want, a.owned, a.fetched);
    OneKept(Some(a.att), a.want, a.owned, a.fetched);
    assert Kept(plan) == [p];
    assert p in Kept(plan);
    ParsedComesFrom(Considered(Some(a.att), a.owned, a.fetched), p);
    var l :| l in Considered(Some(a.att), a.owned, a.fetched) && NewParsedLock(l) == Some(p);
    ConsideredExists(s, a, l);
  }

  lemma OneKept(att: Option<Attachment>, want: Wanted, owned: seq<IPLock>, fetched: Option<IPLock>)
    ensures Analyze(att, want, owned, fetched).forStatus.Some? ==> Analyze(att, want, owned, fetched).inStatus.None?
  {
  }

  lemma ConsideredExists(s: State, a: Action, l: IPLock)
    requires a.Keep? && Enabled(s, a) && l in Considered(Some(a.att), a.owned, a.fetched)
    ensures l.uid in s.ever && s.ever[l.uid] == l
  {
  }

  lemma RangeIsCovered(want: Wanted, addr: uint32)
    requires Pickable(want, addr)
    ensures want.base <= addr <= want.last
  {
  }

  lemma EverGrows(s: State, a: Action)
    requires Enabled(s, a)
    ensures forall u :: u in s.ever ==> u in Apply(s, a).ever && Apply(s, a).ever[u] == s.ever[u]
  {
    hide Apply;
    StoreEffect(s, a);
  }

  /** The steps that leave a worker somewhere new. */
  predicate MovesWorker(a: Action) {
    || a.Pick? || a.CreateTakes? || a.CreateOk? || a.CreateClash? || a.CreateRejected? || a.GetMine? || a.GetMissing?
    || a.Keep?
  }

  /** Every step that is not a worker's own leaves each worker where it was, or gone. */
  lemma OthersStay(s: State, a: Action, c: CtrlId, w: Worker)
    requires Enabled(s, a) && At(Apply(s, a), c, w)
    ensures || (At(s, c, w) && PcOf(Apply(s, a), c, w) == PcOf(s, c, w))
            || (MovesWorker(a) && a.c == c && a.w == w)
  {
    hide Analyze, MakeName, Listed;
  }

  lemma WorkerIsOk(s: State, a: Action)
    requires StatusOk(s) && Enabled(s, a)
    requires MovesWorker(a)
    ensures At(Apply(s, a), a.c, a.w) && PcOk(Apply(s, a), PcOf(Apply(s, a), a.c, a.w))
  {
    hide Analyze, Parsed, MakeName, WriteOk, NewParsedLock;
    var s' := Apply(s, a);
    MoreLocks(s, s') by {
      EverGrows(s, a);
    }
    match a
    case Pick(c, w, name, att, want, addr) => RangeIsCovered(want, addr);
    case CreateTakes(c, w, uid, created) => CreatedIsBacked(s, a);
    case GetMine(c, w) => MineIsBacked(s, a);
    case Keep(c, w, att, want, owned, fetched) =>
      KeepIsBacked(s, a);
      BackedIsOk(s, Analyze(Some(att), want, owned, fetched).forStatus.value, att, want);
    case CreateRejected(c, w) => RejectedIsOk(s', PcOf(s, c, w));
    case CreateOk(c, w) => assert PcOk(s, PcOf(s, c, w));
    case CreateClash(c, w) => assert PcOk(s, PcOf(s, c, w));
    case GetMissing(c, w) => assert PcOk(s, PcOf(s, c, w));
    case _ =>
  }

  /** A step leaves the store alone, deletes a lock, or makes one. */
  lemma StoreEffect(s: State, a: Action)
    requires Enabled(s, a)
    ensures a.Delete? ==> Apply(s, a).ever == s.ever && Apply(s, a).live == s.live - {a.at}
    ensures a.CreateTakes? ==>
              && Apply(s, a).live == s.live[PcOf(s, a.c, a.w).at := OwnLock(PcOf(s, a.c, a.w), a.uid, a.created)]
              && Apply(s, a).ever == s.ever[a.uid := OwnLock(PcOf(s, a.c, a.w), a.uid, a.created)]
    ensures a.Appear? ==>
              && Apply(s, a).live == s.live[a.at := IPLock(MakeName(a.at), a.uid, a.created, a.name, a.owner)]
              && Apply(s, a).ever == s.ever[a.uid := IPLock(MakeName(a.at), a.uid, a.created, a.name, a.owner)]
    ensures !a.Delete? && !a.CreateTakes? && !a.Appear? ==> Apply(s, a).live == s.live && Apply(s, a).ever == s.ever
  {
    hide Analyze, MakeName, Listed;
  }

  lemma NewLock(s: State, s': State, at: Address, l: IPLock)
    requires StoreOk(s) && l.uid !in s.ever && Parsed(l.name) == Some(at)
    requires s'.live == s.live[at := l] && s'.ever == s.ever[l.uid := l]
    ensures StoreOk(s')
  {
    hide Parsed;
  }

  lemma StoreStaysOk(s: State, a: Action)
    requires StatusOk(s) && Enabled(s, a)
    ensures StoreOk(Apply(s, a))
  {
    hide Apply, Parsed, MakeName, PcOk;
    StoreEffect(s, a);
    match a
    case CreateTakes(c, w, uid, created) =>
      assert PcOk(s, PcOf(s, c, w));
      AwaitedIsSmall(s, PcOf(s, c, w));
      NameRoundTrip(PcOf(s, c, w).at);
      NewLock(s, Apply(s, a), PcOf(s, c, w).at, OwnLock(PcOf(s, c, w), uid, created));
    case Appear(at, uid, created, name, owner) =>
      NameRoundTrip(at);
      NewLock(s, Apply(s, a), at, IPLock(MakeName(at), uid, created, name, owner));
    case _ =>
  }

  lemma AwaitedIsSmall(s: State, pc: Pc)
    requires PcOk(s, pc) && pc.AwaitCreate?
    ensures pc.at.vni < 0x20_0000
  {
  }

  lemma WritesStayOk(s: State, a: Action)
    requires StatusOk(s) && Enabled(s, a)
    ensures forall i :: 0 <= i < |Apply(s, a).writes| ==> WriteOk(Apply(s, a), Apply(s, a).writes[i])
  {
    hide Analyze, Parsed, MakeName, Listed, WriteOk;
    MoreLocks(s, Apply(s, a)) by {
      EverGrows(s, a);
    }
    if a.Update? {
      assert PcOk(s, PcOf(s, a.c, a.w));
    }
  }

  lemma StepKeepsStatus(s: State, a: Action)
    requires StatusOk(s) && Enabled(s, a)
    ensures StatusOk(Apply(s, a))
  {
    hide Apply, Enabled, PcOk, WriteOk, StoreOk;
    var s' := Apply(s, a);
    StoreStaysOk(s, a);
    WritesStayOk(s, a);
    forall c, w | At(s', c, w) ensures PcOk(s', PcOf(s', c, w)) {
      OthersStay(s, a, c, w);
      if At(s, c, w) && PcOf(s', c, w) == PcOf(s, c, w) {
        EverGrows(s, a);
        MoreLocks(s, s');
      } else {
        WorkerIsOk(s, a);
      }
    }
  }

  lemma CreatedIsBacked(s: State, a: Action)
    requires StatusOk(s) && a.CreateTakes? && Enabled(s, a)
    ensures var pc := PcOf(s, a.c, a.w);
            WriteOk(Apply(s, a), Write(pc.att.uid, pc.at, Some(a.uid), pc.want, false))
  {
    hide Parsed, MakeName;
    NameRoundTrip(PcOf(s, a.c, a.w).at);
  }

  lemma MineIsBacked(s: State, a: Action)
    requires StatusOk(s) && a.GetMine? && Enabled(s, a)
    ensures var pc := PcOf(s, a.c, a.w);
            WriteOk(s, Write(pc.att.uid, pc.at, Some(s.live[pc.at].uid), pc.want, false))
  {
    hide Parsed;
  }

  lemma BackedIsOk(s: State, p: ParsedLock, att: Attachment, want: Wanted)
    requires Backed(s, Write(att.uid, p.at, Some(p.uid), want, false))
    ensures WriteOk(s, Write(att.uid, p.at, Some(p.uid), want, false))
  {
  }

  lemma RejectedIsOk(s: State, pc: Pc)
    requires pc.AwaitCreate?
    ensures WriteOk(s, Write(pc.att.uid, pc.at, None, pc.want, true))
  {
  }

  lemma {:induction false} RunsKeepStatus(run: seq<State>, acts: seq<Action>, i: nat)
    requires IsRun(run, acts) && run[0] == EMPTY && i < |run|
    ensures StatusOk(run[i])
  {
    if i > 0 {
      RunsKeepStatus(run, acts, i - 1);
      assert Follows(run[i - 1], acts[i - 1], run[i - 1 + 1]);
      StepKeepsStatus(run[i - 1], acts[i - 1]);
    }
  }

  /**
   Over every run a status update with an address is backed by a lock exactly when it does not come from
   the branch that follows an Invalid reply.
   */
  lemma StatusBacking(run: seq<State>, acts: seq<Action>, i: nat, j: nat)
    requires IsRun(run, acts) && run[0] == EMPTY && i < |run| && j < |run[i].writes|
    ensures Backed(run[i], run[i].writes[j]) <==> !run[i].writes[j].rejected
  {
    RunsKeepStatus(run, acts, i);
    assert WriteOk(run[i], run[i].writes[j]);
  }

  /** Hence no lock is ever written for two attachments or for two addresses. */
  lemma LockIsWrittenForOne(run: seq<State>, acts: seq<Action>, i: nat, j: nat, k: nat)
    requires IsRun(run, acts) && run[0] == EMPTY && i < |run| && j < |run[i].writes| && k < |run[i].writes|
    requires run[i].writes[j].lockUid.Some? && run[i].writes[j].lockUid == run[i].writes[k].lockUid
    ensures run[i].writes[j].attUid == run[i].writes[k].attUid && run[i].writes[j].at == run[i].writes[k].at
  {
    hide Parsed;
    RunsKeepStatus(run, acts, i);
    assert WriteOk(run[i], run[i].writes[j]) && WriteOk(run[i], run[i].writes[k]);
  }

  /** A run that sends an update without a lock: one controller, one worker, one create call found invalid. */
  lemma RejectedExample() returns (run: seq<State>, acts: seq<Action>)
    ensures IsRun(run, acts) && run[0] == EMPTY && |acts| == 4 && |run[4].writes| == 1
    ensures run[4].writes[0].rejected && !Backed(run[4], run[4].writes[0])
  {
    var at, want, att := Address(5, 10), Wanted(5, 10, 10), Attachment(2, None, None);
    var k := Controller({}, [], map[]);
    var s1 := EMPTY.(ctrls := map[0 := k]);
    var s2 := Put(s1, 0, k.(cache := {at}, workers := map[0 := AwaitCreate(at, 1, att, want, None)]));
    var write := Write(2, at, None, want, true);
    var s3 := Put(s1, 0, k.(workers := map[0 := AwaitUpdate(write)]));
    var s4 := s1.(writes := [write]);
    acts := [Restart(0, []), Pick(0, 0, 1, att, want, 10), CreateRejected(0, 0), Update(0, 0)];
    run := [EMPTY, s1, s2, s3, s4];
    RejectedSteps(s1, s2, s3, s4, k, at, att, want, write);
  }

  lemma RejectedSteps(s1: State, s2: State, s3: State, s4: State, k: Controller, at: Address, att: Attachment,
                      want: Wanted, write: Write)
    requires at == Address(5, 10) && want == Wanted(5, 10, 10) && k == Controller({}, [], map[])
    requires write == Write(att.uid, at, None, want, true)
    requires s1 == EMPTY.(ctrls := map[0 := k])
    requires s2 == Put(s1, 0, k.(cache := {at}, workers := map[0 := AwaitCreate(at, 1, att, want, None)]))
    requires s3 == Put(s1, 0, k.(workers := map[0 := AwaitUpdate(write)])) && s4 == s1.(writes := [write])
    ensures Follows(EMPTY, Restart(0, []), s1) && Follows(s1, Pick(0, 0, 1, att, want, 10), s2)
    ensures Follows(s2, CreateRejected(0, 0), s3) && Follows(s3, Update(0, 0), s4)
  {
    assert Listed([]) == [];
    assert k.cache + {at} == {at};
    assert {at} - {at} == {};
    var one := map[0 := AwaitUpdate(write)];
    assert one - {0} == map[];
    var none: map<Worker, Pc> := map[];
    assert none[0 := AwaitCreate(at, 1, att, want, None)] == map[0 := AwaitCreate(at, 1, att, want, None)];
    assert s2.ctrls[0].workers[0 := AwaitUpdate(write)] == one;
    assert s1.ctrls[0 := k] == s1.ctrls;
  }
}
