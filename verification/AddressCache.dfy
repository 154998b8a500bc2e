/** The IPAM controller's cache of taken addresses: one run set per VNI, made and dropped on demand. */
module AddressCaches {
  import opened UInt32
  import opened RunLists
  import opened SortedSets
  import opened LockNames
  import opened ReleasePlan

  /** What the API server answers to a Get of a lock said to exist already. */
  datatype GetReply = Mine(uid: nat) | Foreign | Gone | GetFailed

  /** What it answers to the create call. */
  datatype CreateReply = Created(uid: nat) | Exists(get: GetReply) | Invalid | NotCreated

  /** `Retrying` is where the replies given end before the loop does. */
  datatype Outcome =
    | NoAddress
    | Locked(addr: uint32, uid: nat)
    | Collision(addr: uint32)
    | Unfetched(addr: uint32)
    | Rejected(addr: uint32)
    | Failed(addr: uint32)
    | Retrying(addr: uint32)

  /** The first reply other than that of a lock in the way that is gone when looked at. */
  predicate Settles(replies: seq<CreateReply>, n: nat) {
    n < |replies| && replies[n] != Exists(Gone) && forall m :: 0 <= m < n ==> replies[m] == Exists(Gone)
  }

  class AddressCache {
    var addrCache: map<uint32, SortedUInt32Set>

    ghost predicate Valid()
      reads this, addrCache.Values
    {
      && (forall v :: v in addrCache ==> addrCache[v].Valid())
      && (forall v, w :: v in addrCache && w in addrCache && v != w ==> addrCache[v] != addrCache[w])
    }

    ghost predicate Holds(a: Address)
      reads this, addrCache.Values
    {
      a.vni in addrCache && a.addr in addrCache[a.vni].Elements()
    }

    constructor ()
      ensures Valid() && addrCache == map[]
    {
      addrCache := map[];
    }

    /** The set of a VNI, made if missing. */
    method SetFor(vni: uint32) returns (addrs: SortedUInt32Set)
      requires Valid()
      modifies this
      ensures Valid() && vni in addrCache && addrCache[vni] == addrs
      ensures forall a :: Holds(a) <==> old(Holds(a))
      ensures vni in old(addrCache) ==> addrCache == old(addrCache)
      ensures vni !in old(addrCache) ==> fresh(addrs) && addrCache == old(addrCache)[vni := addrs]
    {
      if vni in addrCache {
        addrs := addrCache[vni];
      } else {
        addrs := new SortedUInt32Set(1);
        addrCache := addrCache[vni := addrs];
      }
    }

    method TakeAddress(vni: uint32, addr: uint32) returns (changed: bool)
      requires Valid()
      modifies this, addrCache.Values
      ensures Valid() && fresh(addrCache.Values - old(addrCache.Values))
      ensures changed <==> !old(Holds(Address(vni, addr)))
      ensures forall a :: Holds(a) <==> old(Holds(a)) || a == Address(vni, addr)
    {
      var addrs := SetFor(vni);
      changed := addrs.Add(addr);
    }

    /** The two draws are the random choices made by the run set. */
    method PickAddress(vni: uint32, min: uint32, max: uint32, gapDraw: nat, offsetDraw: nat)
      returns (addr: uint32, ok: bool)
      requires Valid()
      modifies this, addrCache.Values
      ensures Valid() && fresh(addrCache.Values - old(addrCache.Values))
      ensures ok ==> min <= addr <= max && !old(Holds(Address(vni, addr)))
      ensures !ok ==> forall x: uint32 :: min <= x <= max ==> old(Holds(Address(vni, x)))
      ensures forall a :: Holds(a) <==> old(Holds(a)) || (ok && a == Address(vni, addr))
    {
      hide HasFree, Chosen, Members, Free;
      var addrs := SetFor(vni);
      ghost var was := addrs.nodes;
      addr, ok := addrs.AddOneInRange(min, max, gapDraw, offsetDraw);
      if ok {
        FreeIsOutside(was, min, max, addr);
      } else {
        forall x: uint32 | min <= x <= max ensures old(Holds(Address(vni, x))) {
          FullRange(was, min, max, x);
        }
      }
    }

    method ReleaseAddress(vni: uint32, addr: uint32) returns (changed: bool)
      requires Valid()
      modifies this, addrCache.Values
      ensures Valid() && addrCache.Values <= old(addrCache.Values)
      ensures changed <==> old(Holds(Address(vni, addr)))
      ensures forall a :: Holds(a) <==> old(Holds(a)) && a != Address(vni, addr)
    {
      if vni !in addrCache {
        return false;
      }
      var addrs := addrCache[vni];
      changed := addrs.Remove(addr);
      assert forall v :: v in addrCache && v != vni ==> addrCache[v].Elements() == old(addrCache[v].Elements());
      assert forall x: uint32 :: x in addrs.Elements() <==> x in old(addrs.Elements()) && x != addr;
      var empty := addrs.IsEmpty();
      if empty {
        addrCache := addrCache - {vni};
      }
    }

    /** The loop over create calls: again as long as the lock in the way is gone when looked at. */
    method TryToLock(addr: uint32, replies: seq<CreateReply>) returns (outcome: Outcome)
      ensures forall n: nat :: Settles(replies, n) ==>
                match replies[n]
                case Created(uid) => outcome == Locked(addr, uid)
                case Exists(Mine(uid)) => outcome == Locked(addr, uid)
                case Exists(Foreign) => outcome == Collision(addr)
                case Exists(GetFailed) => outcome == Unfetched(addr)
                case Invalid => outcome == Rejected(addr)
                case NotCreated => outcome == Failed(addr)
      ensures (forall n: nat :: !Settles(replies, n)) ==> outcome == Retrying(addr)
      ensures !outcome.NoAddress? && outcome.addr == addr
    {
      for n := 0 to |replies|
        invariant forall m :: 0 <= m < n ==> replies[m] == Exists(Gone)
      {
        assert replies[n] != Exists(Gone) ==> Settles(replies, n);
        match replies[n] {
          case Created(uid) => return Locked(addr, uid);
          case Exists(Mine(uid)) => return Locked(addr, uid);
          case Exists(Foreign) => return Collision(addr);
          case Exists(Gone) =>
          case Exists(GetFailed) => return Unfetched(addr);
          case Invalid => return Rejected(addr);
          case NotCreated => return Failed(addr);
        }
      }
      outcome := Retrying(addr);
    }

    /**
     Picks an address and tries to make its lock.  A failed create gives the address back; a collision keeps
     it, as something else holds it, and so does a failed Get.
     */
    method PickAndLockAddress(want: Wanted, gapDraw: nat, offsetDraw: nat, replies: seq<CreateReply>)
      returns (outcome: Outcome)
      requires Valid() && want.base <= want.last
      modifies this, addrCache.Values
      ensures Valid()
      ensures outcome.NoAddress? <==> forall x :: Pickable(want, x) ==> old(Holds(Address(want.vni, x)))
      ensures !outcome.NoAddress? ==>
                Pickable(want, outcome.addr) && !old(Holds(Address(want.vni, outcome.addr)))
      ensures forall n: nat :: !outcome.NoAddress? && Settles(replies, n) ==>
                match replies[n]
                case Created(uid) => outcome == Locked(outcome.addr, uid)
                case Exists(Mine(uid)) => outcome == Locked(outcome.addr, uid)
                case Exists(Foreign) => outcome.Collision?
                case Exists(GetFailed) => outcome.Unfetched?
                case Invalid => outcome.Rejected?
                case NotCreated => outcome.Failed?
      ensures !outcome.NoAddress? && (forall n: nat :: !Settles(replies, n)) ==> outcome.Retrying?
      ensures outcome.NoAddress? || outcome.Rejected? || outcome.Failed? ==> forall a :: Holds(a) <==> old(Holds(a))
      ensures outcome.Locked? || outcome.Collision? || outcome.Unfetched? || outcome.Retrying? ==>
                forall a :: Holds(a) <==> old(Holds(a)) || a == Address(want.vni, outcome.addr)
    {
      hide Valid, Holds;
      var min, max := want.base, want.last;
      if max - min >= 4 {
        min, max := want.base + 2, want.last - 1;
      }
      var addr, ok := PickAddress(want.vni, min, max, gapDraw, offsetDraw);
      if !ok {
        return NoAddress;
      }
      outcome := TryToLock(addr, replies);
      if outcome.Rejected? || outcome.Failed? {
        var changed := ReleaseAddress(want.vni, addr);
      }
    }
  }

  lemma FreeIsOutside(ns: seq<Run>, min: uint32, max: uint32, x: uint32)
    requires Free(ns, min, max, x)
    ensures min <= x <= max && x !in Members(ns)
  {
  }

  lemma FullRange(ns: seq<Run>, min: uint32, max: uint32, x: uint32)
    requires !HasFree(ns, min, max) && min <= x <= max
    ensures x in Members(ns)
  {
    if x !in Members(ns) {
      assert Free(ns, min, max, x);
    }
  }
}
