/**
 The address lock protocol of staging/kos/pkg/controllers/ipam/ipam.go as a state machine: the API
 server's store of IPLocks, any number of controllers with any number of workers, and one FIFO of lock
 notifications for each controller.  A create call takes effect at one step and is replied to at a later
 one, and anything may happen before, between and after.  A reply that reports no effect only moves its
 worker on, so it is one step, taken when the server decides it; likewise for a Get and a status update.
 */
module IpamProtocol {
  import opened Options
  import opened UInt32
  import opened LockNames
  import opened ReleasePlan

  type CtrlId = nat
  type Worker = nat

  datatype Event = Event(present: bool, at: Address)

  /** A status update.  `rejected` marks the branch taken after an Invalid reply to the create call. */
  datatype Write = Write(attUid: nat, at: Address, lockUid: Option<nat>, want: Wanted, rejected: bool)

  /**
   Where a worker is in pickAndLockAddress and updateNAStatus.  `made` is the UID of the lock that the create
   call has made, which its worker learns from the reply.
   */
  datatype Pc =
    | AwaitCreate(at: Address, name: nat, att: Attachment, want: Wanted, made: Option<nat>)
    | AwaitGet(at: Address, name: nat, att: Attachment, want: Wanted)
    | AwaitUpdate(write: Write)

  datatype Controller = Controller(cache: set<Address>, inbox: seq<Event>, workers: map<Worker, Pc>)

  /** `ever` remembers every lock ever made, by UID; `writes` every status update sent. */
  datatype State = State(
    live: map<Address, IPLock>, ever: map<nat, IPLock>, ctrls: map<CtrlId, Controller>, writes: seq<Write>)

  datatype Action =
    | Pick(c: CtrlId, w: Worker, name: nat, att: Attachment, want: Wanted, addr: uint32)
    | CreateTakes(c: CtrlId, w: Worker, uid: nat, created: int)       // the lock is made
    | CreateOk(c: CtrlId, w: Worker)                                  // the reply that says so
    | CreateClash(c: CtrlId, w: Worker)
    | CreateFailed(c: CtrlId, w: Worker)
    | CreateRejected(c: CtrlId, w: Worker)
    | GetMine(c: CtrlId, w: Worker)
    | GetForeign(c: CtrlId, w: Worker)
    | GetMissing(c: CtrlId, w: Worker)
    | GetFailed(c: CtrlId, w: Worker)
    | Keep(c: CtrlId, w: Worker, att: Attachment, want: Wanted, owned: seq<IPLock>, fetched: Option<IPLock>)
    | Update(c: CtrlId, w: Worker)
    | Deliver(c: CtrlId)
    | Touch(at: Address)                                              // a live lock is updated
    | Delete(at: Address)                                             // released, or garbage collected
    | Appear(at: Address, uid: nat, created: int, name: nat, owner: nat) // a lock made by anybody else
    | Restart(c: CtrlId, order: seq<Address>)                         // a controller starts, with an empty cache

  predicate At(s: State, c: CtrlId, w: Worker) {
    c in s.ctrls && w in s.ctrls[c].workers
  }

  function PcOf(s: State, c: CtrlId, w: Worker): Pc
    requires At(s, c, w)
  {
    s.ctrls[c].workers[w]
  }

  predicate Creating(s: State, c: CtrlId, w: Worker) {
    At(s, c, w) && PcOf(s, c, w).AwaitCreate?
  }

  /** The worker's create call has not taken effect. */
  predicate Unmade(s: State, c: CtrlId, w: Worker) {
    Creating(s, c, w) && PcOf(s, c, w).made.None?
  }

  predicate Getting(s: State, c: CtrlId, w: Worker) {
    At(s, c, w) && PcOf(s, c, w).AwaitGet?
  }

  /** Is the lock there the worker's own? */
  predicate IsMine(l: IPLock, pc: Pc)
    requires pc.AwaitGet?
  {
    l.ownerName == pc.name && l.ownerUid == pc.att.uid
  }

  ghost predicate Enabled(s: State, a: Action) {
    match a
    case Pick(c, w, name, att, want, addr) =>
      && c in s.ctrls && w !in s.ctrls[c].workers
      && want.vni < 0x20_0000 && Pickable(want, addr)
      && Address(want.vni, addr) !in s.ctrls[c].cache
    case CreateTakes(c, w, uid, created) => Unmade(s, c, w) && PcOf(s, c, w).at !in s.live && uid !in s.ever
    case CreateOk(c, w) => Creating(s, c, w) && PcOf(s, c, w).made.Some?
    case CreateClash(c, w) => Unmade(s, c, w) && PcOf(s, c, w).at in s.live
    case CreateFailed(c, w) => Creating(s, c, w)
    case CreateRejected(c, w) => Creating(s, c, w)
    case GetMine(c, w) =>
      Getting(s, c, w) && PcOf(s, c, w).at in s.live && IsMine(s.live[PcOf(s, c, w).at], PcOf(s, c, w))
    case GetForeign(c, w) =>
      Getting(s, c, w) && PcOf(s, c, w).at in s.live && !IsMine(s.live[PcOf(s, c, w).at], PcOf(s, c, w))
    case GetMissing(c, w) => Getting(s, c, w) && PcOf(s, c, w).at !in s.live
    case GetFailed(c, w) => Getting(s, c, w)
    case Keep(c, w, att, want, owned, fetched) =>
      && c in s.ctrls && w !in s.ctrls[c].workers
      && (forall l :: l in owned ==> l.uid in s.ever && s.ever[l.uid] == l)
      && (fetched.Some? ==> fetched.value.uid in s.ever && s.ever[fetched.value.uid] == fetched.value)
      && Analyze(Some(att), want, owned, fetched).forStatus.Some?
    case Update(c, w) => At(s, c, w) && PcOf(s, c, w).AwaitUpdate?
    case Deliver(c) => c in s.ctrls && s.ctrls[c].inbox != []
    case Touch(at) => at in s.live
    case Delete(at) => at in s.live
    case Appear(at, uid, created, name, owner) => at !in s.live && uid !in s.ever && at.vni < 0x20_0000
    case Restart(c, order) => forall at :: at in order <==> at in s.live
  }

  // ---- Effects ----

  function Put(s: State, c: CtrlId, k: Controller): State {
    s.(ctrls := s.ctrls[c := k])
  }

  function Become(k: Controller, w: Worker, pc: Pc): Controller {
    k.(workers := k.workers[w := pc])
  }

  function Quit(k: Controller, w: Worker): Controller {
    k.(workers := k.workers - {w})
  }

  function Notified(k: Controller, e: Event): Controller {
    k.(inbox := k.inbox + [e])
  }

  /** Every controller will be told, in the order things happen. */
  function NotifyAll(s: State, e: Event): State {
    s.(ctrls := map c | c in s.ctrls :: Notified(s.ctrls[c], e))
  }

  function Made(s: State, at: Address, l: IPLock): State {
    NotifyAll(s.(live := s.live[at := l], ever := s.ever[l.uid := l]), Event(true, at))
  }

  /** OnLockNotify: TakeAddress or ReleaseAddress. */
  function Received(k: Controller): Controller
    requires k.inbox != []
  {
    var e := k.inbox[0];
    k.(cache := if e.present then k.cache + {e.at} else k.cache - {e.at}, inbox := k.inbox[1..])
  }

  function Listed(order: seq<Address>): seq<Event> {
    if order == [] then [] else Listed(order[..|order| - 1]) + [Event(true, order[|order| - 1])]
  }

  function OwnLock(pc: Pc, uid: nat, created: int): IPLock
    requires pc.AwaitCreate?
  {
    IPLock(MakeName(pc.at), uid, created, pc.name, pc.att.uid)
  }

  ghost function Apply(s: State, a: Action): State
    requires Enabled(s, a)
  {
    match a
    case Pick(c, w, name, att, want, addr) =>
      var k, at := s.ctrls[c], Address(want.vni, addr);
      Put(s, c, Become(k, w, AwaitCreate(at, name, att, want, None)).(cache := k.cache + {at}))
    case CreateTakes(c, w, uid, created) =>
      var k, pc := s.ctrls[c], PcOf(s, c, w);
      Made(Put(s, c, Become(k, w, pc.(made := Some(uid)))), pc.at, OwnLock(pc, uid, created))
    case CreateOk(c, w) =>
      var k, pc := s.ctrls[c], PcOf(s, c, w);
      Put(s, c, Become(k, w, AwaitUpdate(Write(pc.att.uid, pc.at, pc.made, pc.want, false))))
    case CreateClash(c, w) =>
      var k, pc := s.ctrls[c], PcOf(s, c, w);
      Put(s, c, Become(k, w, AwaitGet(pc.at, pc.name, pc.att, pc.want)))
    case CreateFailed(c, w) =>
      var k, pc := s.ctrls[c], PcOf(s, c, w);
      Put(s, c, Quit(k, w).(cache := k.cache - {pc.at}))
    case CreateRejected(c, w) =>
      var k, pc := s.ctrls[c], PcOf(s, c, w);
      Put(s, c, Become(k, w, AwaitUpdate(Write(pc.att.uid, pc.at, None, pc.want, true))).(cache := k.cache - {pc.at}))
    case GetMine(c, w) =>
      var k, pc := s.ctrls[c], PcOf(s, c, w);
      Put(s, c, Become(k, w, AwaitUpdate(Write(pc.att.uid, pc.at, Some(s.live[pc.at].uid), pc.want, false))))
    case GetForeign(c, w) => Put(s, c, Quit(s.ctrls[c], w))
    case GetMissing(c, w) =>
      var k, pc := s.ctrls[c], PcOf(s, c, w);
      Put(s, c, Become(k, w, AwaitCreate(pc.at, pc.name, pc.att, pc.want, None)))
    case GetFailed(c, w) => Put(s, c, Quit(s.ctrls[c], w))
    case Keep(c, w, att, want, owned, fetched) =>
      var p := Analyze(Some(att), want, owned, fetched).forStatus.value;
      Put(s, c, Become(s.ctrls[c], w, AwaitUpdate(Write(att.uid, p.at, Some(p.uid), want, false))))
    case Update(c, w) =>
      Put(s, c, Quit(s.ctrls[c], w)).(writes := s.writes + [PcOf(s, c, w).write])
    case Deliver(c) => Put(s, c, Received(s.ctrls[c]))
    case Touch(at) => NotifyAll(s, Event(true, at))
    case Delete(at) => NotifyAll(s.(live := s.live - {at}), Event(false, at))
    case Appear(at, uid, created, name, owner) => Made(s, at, IPLock(MakeName(at), uid, created, name, owner))
    case Restart(c, order) => Put(s, c, Controller({}, Listed(order), map[]))
  }

  const EMPTY := State(map[], map[], map[], [])

  ghost predicate Follows(s: State, a: Action, s': State) {
    Enabled(s, a) && s' == Apply(s, a)
  }

  /** A run: `acts[i]` leads from `run[i]` to `run[i + 1]`. */
  ghost predicate IsRun(run: seq<State>, acts: seq<Action>) {
    && |run| == |acts| + 1
    && forall i :: 0 <= i < |acts| ==> Follows(run[i], acts[i], run[i + 1])
  }
}
