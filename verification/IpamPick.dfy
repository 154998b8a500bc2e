/**
 One call of pickAndLockAddress as a run of the protocol machine: whatever the API server replies, the machine
 can go the same way, and then has the same in its cache.
 */
module IpamPick {
  import opened Arithmetic
  import opened Options
  import opened LockNames
  import opened ReleasePlan
  import opened AddressCaches
  import opened IpamProtocol

  /** Worker `w` of controller `c` is to lock an address for an attachment. */
  datatype Task = Task(c: CtrlId, w: Worker, name: nat, att: Attachment, want: Wanted, at: Address)

  ghost predicate Gets(s: State, s': State) {
    exists run, acts :: IsRun(run, acts) && run[0] == s && run[|acts|] == s'
  }

  lemma NoStep(s: State)
    ensures Gets(s, s)
  {
    assert IsRun([s], []) && [s][0] == s;
  }

  lemma OneMore(s: State, m: State, a: Action)
    requires Gets(s, m) && Enabled(m, a)
    ensures Gets(s, Apply(m, a))
  {
    var run, acts :| IsRun(run, acts) && run[0] == s && run[|acts|] == m;
    var run', acts' := run + [Apply(m, a)], acts + [a];
    forall i | 0 <= i < |acts'| ensures Follows(run'[i], acts'[i], run'[i + 1]) {
      assert i < |acts| ==> Follows(run[i], acts[i], run[i + 1]);
    }
    assert IsRun(run', acts') && run'[0] == s && run'[|acts'|] == Apply(m, a);
  }

  /** What the controller has and what its workers do. */
  predicate Is(s: State, t: Task, cache: set<Address>, workers: map<Worker, Pc>) {
    t.c in s.ctrls && s.ctrls[t.c].cache == cache && s.ctrls[t.c].workers == workers
  }

  function Creates(t: Task, made: Option<nat>): Pc {
    AwaitCreate(t.at, t.name, t.att, t.want, made)
  }

  function Fetches(t: Task): Pc {
    AwaitGet(t.at, t.name, t.att, t.want)
  }

  /** Somebody makes the lock first, and the create call clashes with it. */
  lemma Clashes(s: State, m: State, t: Task, cache: set<Address>, workers: map<Worker, Pc>, uid: nat, owner: nat)
    returns (m': State)
    requires Gets(s, m) && Is(m, t, cache, workers[t.w := Creates(t, None)])
    requires t.at !in m.live && uid !in m.ever && t.at.vni < 0x20_0000
    ensures Gets(s, m') && Is(m', t, cache, workers[t.w := Fetches(t)])
    ensures m'.live == m.live[t.at := IPLock(MakeName(t.at), uid, 0, t.name, owner)]
    ensures m'.ever.Keys == m.ever.Keys + {uid}
  {
    hide Gets;
    OneMore(s, m, Appear(t.at, uid, 0, t.name, owner));
    m' := Apply(m, Appear(t.at, uid, 0, t.name, owner));
    OneMore(s, m', CreateClash(t.c, t.w));
    m' := Apply(m', CreateClash(t.c, t.w));
    assert workers[t.w := Creates(t, None)][t.w := Fetches(t)] == workers[t.w := Fetches(t)];
  }

  /** The lock in the way is deleted before it is looked at, and the create call is made again. */
  lemma Vanishes(s: State, m: State, t: Task, cache: set<Address>, workers: map<Worker, Pc>) returns (m': State)
    requires Gets(s, m) && Is(m, t, cache, workers[t.w := Fetches(t)]) && t.at in m.live
    ensures Gets(s, m') && Is(m', t, cache, workers[t.w := Creates(t, None)])
    ensures m'.live == m.live - {t.at} && m'.ever == m.ever
  {
    hide Gets;
    OneMore(s, m, Delete(t.at));
    m' := Apply(m, Delete(t.at));
    OneMore(s, m', GetMissing(t.c, t.w));
    m' := Apply(m', GetMissing(t.c, t.w));
    assert workers[t.w := Fetches(t)][t.w := Creates(t, None)] == workers[t.w := Creates(t, None)];
  }

  /** Where a settling reply leads: what is in the cache, and whether and how the status is then updated. */
  ghost predicate Ends(s: State, t: Task, cache: set<Address>, workers: map<Worker, Pc>, reply: CreateReply)
    requires reply != Exists(Gone)
  {
    match reply
    case Created(uid) =>
      Is(s, t, cache + {t.at}, workers[t.w := AwaitUpdate(Write(t.att.uid, t.at, Some(uid), t.want, false))])
    case Exists(Mine(uid)) =>
      Is(s, t, cache + {t.at}, workers[t.w := AwaitUpdate(Write(t.att.uid, t.at, Some(uid), t.want, false))])
    case Exists(Foreign) => Is(s, t, cache + {t.at}, workers)
    case Exists(GetFailed) => Is(s, t, cache + {t.at}, workers)
    case Invalid => Is(s, t, cache, workers[t.w := AwaitUpdate(Write(t.att.uid, t.at, None, t.want, true))])
    case NotCreated => Is(s, t, cache, workers)
  }

  /** The UID in a reply. */
  function UidIn(reply: CreateReply): Option<nat> {
    match reply
    case Created(uid) => Some(uid)
    case Exists(Mine(uid)) => Some(uid)
    case _ => None
  }

  lemma Settled(s: State, m: State, t: Task, cache: set<Address>, workers: map<Worker, Pc>, reply: CreateReply)
    returns (m': State)
    requires Gets(s, m) && Is(m, t, cache + {t.at}, workers[t.w := Creates(t, None)]) && t.w !in workers
    requires t.at !in cache && t.at !in m.live && t.at.vni < 0x20_0000
    requires reply != Exists(Gone) && (UidIn(reply).Some? ==> UidIn(reply).value !in m.ever)
    ensures Gets(s, m') && Ends(m', t, cache, workers, reply)
  {
    hide Gets;
    match reply {
      case Created(uid) =>
        m' := Takes(s, m, t, cache + {t.at}, workers, uid);
      case Exists(get) =>
        m' := Fetched(s, m, t, cache, workers, get);
      case Invalid =>
        OneMore(s, m, CreateRejected(t.c, t.w));
        m' := Apply(m, CreateRejected(t.c, t.w));
      case NotCreated =>
        OneMore(s, m, CreateFailed(t.c, t.w));
        m' := Apply(m, CreateFailed(t.c, t.w));
        assert workers[t.w := Creates(t, None)] - {t.w} == workers;
    }
  }

  lemma Takes(s: State, m: State, t: Task, cache: set<Address>, workers: map<Worker, Pc>, uid: nat)
    returns (m': State)
    requires Gets(s, m) && Is(m, t, cache, workers[t.w := Creates(t, None)]) && t.at !in m.live && uid !in m.ever
    ensures Gets(s, m')
    ensures Is(m', t, cache, workers[t.w := AwaitUpdate(Write(t.att.uid, t.at, Some(uid), t.want, false))])
  {
    hide Gets;
    OneMore(s, m, CreateTakes(t.c, t.w, uid, 0));
    m' := Apply(m, CreateTakes(t.c, t.w, uid, 0));
    assert workers[t.w := Creates(t, None)][t.w := Creates(t, Some(uid))] == workers[t.w := Creates(t, Some(uid))];
    m' := IsTold(s, m', t, cache, workers, uid);
  }

  lemma IsTold(s: State, m: State, t: Task, cache: set<Address>, workers: map<Worker, Pc>, uid: nat)
    returns (m': State)
    requires Gets(s, m) && Is(m, t, cache, workers[t.w := Creates(t, Some(uid))])
    ensures Gets(s, m')
    ensures Is(m', t, cache, workers[t.w := AwaitUpdate(Write(t.att.uid, t.at, Some(uid), t.want, false))])
  {
    hide Gets;
    OneMore(s, m, CreateOk(t.c, t.w));
    m' := Apply(m, CreateOk(t.c, t.w));
  }

  lemma Fetched(s: State, m: State, t: Task, cache: set<Address>, workers: map<Worker, Pc>, get: GetReply)
    returns (m': State)
    requires Gets(s, m) && Is(m, t, cache + {t.at}, workers[t.w := Creates(t, None)]) && t.w !in workers
    requires t.at !in m.live && t.at.vni < 0x20_0000
    requires get != Gone && (get.Mine? ==> get.uid !in m.ever)
    ensures Gets(s, m') && Ends(m', t, cache, workers, Exists(get))
  {
    hide Gets;
    var unused := NumberAbove(m.ever.Keys);
    var uid := if get.Mine? then get.uid else unused;
    m' := Clashes(s, m, t, cache + {t.at}, workers, uid, if get.Foreign? then t.att.uid + 1 else t.att.uid);
    var a := match get
      case Mine(_) => GetMine(t.c, t.w)
      case Foreign => GetForeign(t.c, t.w)
      case GetFailed => IpamProtocol.Action.GetFailed(t.c, t.w);
    OneMore(s, m', a);
    m' := Apply(m', a);
    assert workers[t.w := Fetches(t)] - {t.w} == workers;
  }

  /**
   The address drawn is free in the cache, and any number of times the lock in the way is gone when looked at; the
   first reply other than that, `replies[n]`, decides, for the machine as for the method.
   */
  lemma PickIsRun(s: State, t: Task, replies: seq<CreateReply>, n: nat) returns (s': State)
    requires t.c in s.ctrls && t.w !in s.ctrls[t.c].workers && t.at !in s.ctrls[t.c].cache
    requires t.at.vni == t.want.vni < 0x20_0000 && Pickable(t.want, t.at.addr)
    requires Settles(replies, n) && (UidIn(replies[n]).Some? ==> UidIn(replies[n]).value !in s.ever)
    ensures Gets(s, s') && Ends(s', t, s.ctrls[t.c].cache, s.ctrls[t.c].workers, replies[n])
  {
    hide Gets, Ends;
    var cache, workers := s.ctrls[t.c].cache, s.ctrls[t.c].workers;
    NoStep(s);
    OneMore(s, s, Pick(t.c, t.w, t.name, t.att, t.want, t.at.addr));
    var m := Apply(s, Pick(t.c, t.w, t.name, t.att, t.want, t.at.addr));
    if t.at in m.live {
      OneMore(s, m, Delete(t.at));
      m := Apply(m, Delete(t.at));
    }
    for i := 0 to n
      invariant Gets(s, m) && Is(m, t, cache + {t.at}, workers[t.w := Creates(t, None)]) && t.at !in m.live
      invariant UidIn(replies[n]).Some? ==> UidIn(replies[n]).value !in m.ever
    {
      hide Apply;
      var uid := NumberAbove(m.ever.Keys + if UidIn(replies[n]).Some? then {UidIn(replies[n]).value} else {});
      m := Clashes(s, m, t, cache + {t.at}, workers, uid, t.att.uid);
      m := Vanishes(s, m, t, cache + {t.at}, workers);
    }
    s' := Settled(s, m, t, cache, workers, replies[n]);
  }
}
