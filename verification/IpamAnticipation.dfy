/**
 One edition of an attachment as the IPAM controller sees it through informers that lag: the anticipation
 fields of NetworkAttachmentData and the direct Get of the lock named in the status, from
 staging/kos/pkg/controllers/ipam/ipam.go.  The subnet revision is fixed, locks are deleted only by the
 controller itself, and no call fails and no update conflicts.
 */
module IpamAnticipation {
  import opened Options
  import opened UInt32
  import opened LockNames
  import opened ReleasePlan

  /** The attachment's name and UID, and what its subnet asks for. */
  datatype Job = Job(name: nat, uid: nat, want: Wanted, subnetRV: nat)

  datatype Status = Status(ip: Option<uint32>, lockUid: Option<nat>)

  datatype Nadat = Nadat(ip: Option<uint32>, anticipating: Option<nat>, anticipated: Option<nat>, subnetRV: Option<nat>)

  const NO_DATA := Nadat(None, None, None, None)
  const NO_STATUS := Status(None, None)

  /** How far the worker has got; `rv` is the revision of the attachment it read. */
  datatype Pc =
    | Idle
    | Read(rv: nat)
    | Listed(rv: nat, owned: seq<IPLock>)
    | Fetched(rv: nat, owned: seq<IPLock>, fetched: Option<IPLock>)
    | Picking(rv: nat)
    | Writing(rv: nat, addr: uint32, lockUid: nat)

  /**
   `edits[rv]` is the status in revision `rv` of the attachment and `view` the revision its lister shows;
   `locks` are the live locks and `seen` those that the lock lister shows.
   */
  datatype World = World(
    edits: seq<Status>, locks: map<Address, IPLock>, view: nat, seen: set<Address>, nadat: Nadat, pc: Pc)

  datatype Action =
    | OtherLock(at: Address, uid: nat, created: int, name: nat, owner: nat) // a lock for another attachment
    | OtherEdit                                                            // an update that keeps the address
    | ShowEdit(rv: nat)
    | ShowLock(at: Address)
    | Begin
    | List(owned: seq<IPLock>)
    | Fetch
    | Decide
    | Create(addr: uint32, uid: nat, created: int)
    | PickFails                                                            // no address: an error, and a later pass
    | Update

  predicate FreshUid(w: World, uid: nat) {
    forall at :: at in w.locks ==> w.locks[at].uid != uid
  }

  /** The lock lister's index by owner name: each lock shown, once, in any order. */
  ghost predicate IsListing(j: Job, w: World, owned: seq<IPLock>) {
    && (forall i, k :: 0 <= i < k < |owned| ==> owned[i] != owned[k])
    && (forall l :: l in owned <==>
                      exists at :: at in w.seen && at in w.locks && w.locks[at] == l && l.ownerName == j.name)
  }

  ghost predicate Enabled(j: Job, w: World, a: Action) {
    match a
    case OtherLock(at, uid, created, name, owner) =>
      at !in w.locks && FreshUid(w, uid) && at.vni < 0x20_0000 && name != j.name && owner != j.uid
    case OtherEdit => w.edits != []
    case ShowEdit(rv) => w.view < rv < |w.edits|
    case ShowLock(at) => at in w.locks
    case Begin => w.pc.Idle? && w.view < |w.edits|
    case List(owned) => w.pc.Read? && IsListing(j, w, owned)
    case Fetch => w.pc.Listed? && w.pc.rv < |w.edits|
    case Decide => w.pc.Fetched? && w.pc.rv < |w.edits|
    case Create(addr, uid, created) =>
      w.pc.Picking? && Pickable(j.want, addr) && Address(j.want.vni, addr) !in w.locks && FreshUid(w, uid)
    case PickFails => w.pc.Picking?
    case Update => w.pc.Writing? && w.pc.rv == |w.edits| - 1
  }

  function AttAt(j: Job, w: World, rv: nat): Attachment
    requires rv < |w.edits|
  {
    Attachment(j.uid, w.edits[rv].lockUid, w.edits[rv].ip)
  }

  /** What the direct Get answers, dropped when its owner has another name. */
  function GetNamed(j: Job, locks: map<Address, IPLock>, ip: Option<uint32>): Option<IPLock> {
    if ip.Some? && Address(j.want.vni, ip.value) in locks && locks[Address(j.want.vni, ip.value)].ownerName == j.name
    then Some(locks[Address(j.want.vni, ip.value)]) else None
  }

  /** The anticipation is dropped at any revision other than the two it is about. */
  function Refreshed(j: Job, n: Nadat, rv: nat): Nadat {
    if (n.anticipating != Some(rv) && n.anticipated != Some(rv)) || n.subnetRV != Some(j.subnetRV) then NO_DATA else n
  }

  function PlanAt(j: Job, w: World): Plan
    requires w.pc.Fetched? && w.pc.rv < |w.edits|
  {
    Analyze(Some(AttAt(j, w, w.pc.rv)), j.want, w.pc.owned, w.pc.fetched)
  }

  /** Deletion is by name and only of the lock with the UID given. */
  ghost function Released(locks: map<Address, IPLock>, release: seq<ParsedLock>): map<Address, IPLock> {
    map at | at in locks && !(exists p :: p in release && p.at == at && p.uid == locks[at].uid) :: locks[at]
  }

  function After(plan: Plan, n: Nadat, rv: nat): Pc {
    if plan.inStatus.Some? then Idle
    else if plan.forStatus.Some? then
      if n.ip == Some(plan.forStatus.value.at.addr) then Idle
      else Writing(rv, plan.forStatus.value.at.addr, plan.forStatus.value.uid)
    else if n.ip.Some? then Idle
    else Picking(rv)
  }

  ghost function Apply(j: Job, w: World, a: Action): World
    requires Enabled(j, w, a)
  {
    match a
    case OtherLock(at, uid, created, name, owner) =>
      w.(locks := w.locks[at := IPLock(MakeName(at), uid, created, name, owner)])
    case OtherEdit => w.(edits := w.edits + [w.edits[|w.edits| - 1]])
    case ShowEdit(rv) => w.(view := rv)
    case ShowLock(at) => w.(seen := w.seen + {at})
    case Begin => w.(pc := Read(w.view))
    case List(owned) => w.(pc := Listed(w.pc.rv, owned))
    case Fetch => w.(pc := Fetched(w.pc.rv, w.pc.owned, GetNamed(j, w.locks, w.edits[w.pc.rv].ip)))
    case Decide =>
      var n := Refreshed(j, w.nadat, w.pc.rv);
      w.(locks := Released(w.locks, PlanAt(j, w).release), nadat := n, pc := After(PlanAt(j, w), n, w.pc.rv))
    case Create(addr, uid, created) =>
      var at := Address(j.want.vni, addr);
      w.(locks := w.locks[at := IPLock(MakeName(at), uid, created, j.name, j.uid)], pc := Writing(w.pc.rv, addr, uid))
    case PickFails => w.(pc := Idle)
    case Update =>
      w.(edits := w.edits + [Status(Some(w.pc.addr), Some(w.pc.lockUid))],
         nadat := Nadat(Some(w.pc.addr), Some(w.pc.rv), Some(|w.edits|), Some(j.subnetRV)),
         pc := Idle)
  }

  ghost predicate Reachable(j: Job, w0: World, w: World) {
    exists run: seq<World>, acts: seq<Action> :: IsRun(j, run, acts) && run[0] == w0 && run[|acts|] == w
  }

  ghost predicate IsRun(j: Job, run: seq<World>, acts: seq<Action>) {
    && |run| == |acts| + 1
    && forall i :: 0 <= i < |acts| ==> Follows(j, run[i], acts[i], run[i + 1])
  }

  ghost predicate Follows(j: Job, w: World, a: Action, w': World) {
    Enabled(j, w, a) && w' == Apply(j, w, a)
  }

  /** The store holds well-named locks with distinct UIDs. */
  ghost predicate StoreOk(j: Job, locks: map<Address, IPLock>) {
    && (forall at :: at in locks ==> at.vni < 0x20_0000 && locks[at].name == MakeName(at))
    && (forall a, b :: a in locks && b in locks && locks[a].uid == locks[b].uid ==> a == b)
  }

  predicate IsOwn(j: Job, l: IPLock) {
    l.ownerUid == j.uid
  }

  /** A new edition of the attachment; locks of older editions may still be around. */
  ghost predicate Start(j: Job, w: World) {
    && j.want.vni < 0x20_0000 && StoreOk(j, w.locks) && w.seen <= w.locks.Keys
    && (forall at :: at in w.locks ==> !IsOwn(j, w.locks[at]))
    && w.edits == [NO_STATUS] && w.view == 0 && w.nadat == NO_DATA && w.pc == Idle
  }

  /** A lock of an older edition, in another network, at an address of the subnet. */
  ghost predicate ShadowAt(j: Job, locks: map<Address, IPLock>, addr: uint32) {
    exists at :: at in locks && at.addr == addr && at.vni != j.want.vni && locks[at].ownerName == j.name
  }

  predicate Available(j: Job, locks: map<Address, IPLock>, addr: uint32) {
    Pickable(j.want, addr) && Address(j.want.vni, addr) !in locks
  }

  /** Two addresses can be picked, and one of them has such a shadow. */
  ghost predicate Shadowed(j: Job, locks: map<Address, IPLock>) {
    exists x, y :: x != y && Available(j, locks, x) && Available(j, locks, y) && ShadowAt(j, locks, x)
  }
}
