/** IPv4 blocks and the validation of subnets, from staging/kos/pkg/registry/network/subnet/strategy.go. */
module Subnets {
  import opened Arithmetic
  import opened Options
  import opened UInt32

  const MIN_VNI: uint32 := 1
  const MAX_VNI: uint32 := 2097151

  type PrefixLength = n: int | 0 <= n <= 32 witness 0

  /** What a CIDR text says: an address and a number of leading bits that matter. */
  datatype Cidr = Cidr(ip: uint32, ones: PrefixLength)

  /** `cidr` is what the subnet's IPv4 text parses to, if it does. */
  datatype Subnet = Subnet(uid: nat, ns: string, vni: uint32, cidr: Option<Cidr>)

  datatype Error = BadVni | BadCidr | NotListed | OtherNamespace(than: Subnet) | Overlap(that: Subnet)

  function Pow2(n: nat): (p: nat)
    ensures p > 0
  {
    if n == 0 then 1 else 2 * Pow2(n - 1)
  }

  /** The number of addresses in a block. */
  function Size(c: Cidr): (n: nat)
    ensures n > 0
  {
    Pow2(32 - c.ones)
  }

  /** Prefix notation, section 3.1 of RFC 4632: the leading bits are those of the prefix. */
  predicate InBlock(c: Cidr, a: uint32) {
    a / Size(c) == c.ip / Size(c)
  }

  datatype ParsedSubnet = ParsedSubnet(base: uint32, last: uint32) {
    predicate Overlaps(that: ParsedSubnet) {
      base <= that.last && last >= that.base
    }
  }

  /** The masked address, and the one that is the block's size less one further, in 32-bit arithmetic. */
  function ParseCidr(c: Cidr): ParsedSubnet {
    var base := Wrap(c.ip - c.ip % Size(c));
    ParsedSubnet(base, Wrap(base + Wrap(Size(c) - 1)))
  }

  function ParseSubnet(s: Subnet): ParsedSubnet {
    match s.cidr
    case None => ParsedSubnet(0, 0)
    case Some(c) => ParseCidr(c)
  }

  // ---- Range arithmetic ----

  lemma {:induction false} Pow2Splits(m: nat, n: nat)
    ensures Pow2(m + n) == Pow2(m) * Pow2(n)
  {
    if m > 0 {
      Pow2Splits(m - 1, n);
    }
  }

  lemma SameQuotient(a: nat, x: nat, n: nat)
    requires n > 0
    ensures x - x % n <= a < x - x % n + n <==> a / n == x / n
  {
    var d := x / n;
    assert x - x % n == d * n;
    if d * n <= a < d * n + n {
      QuotientIs(a, n, d, a - d * n);
    }
    assert a == (a / n) * n + a % n;
  }

  /** A number below a multiple of the size has its whole block below it. */
  lemma BlockFits(q: nat, n: nat, x: nat)
    requires n > 0 && x < q * n
    ensures 0 <= x - x % n && x - x % n + n <= q * n
  {
    var d := x / n;
    assert x == d * n + x % n;
    MulOrder(d, q, n);
    TimesSign(q - d, n);
    assert (q - d) * n == q * n - d * n;
  }

  lemma SizeDivides(c: Cidr)
    ensures Pow2(c.ones) * Size(c) == 0x1_0000_0000
    ensures 0 < Size(c) <= 0x1_0000_0000
  {
    hide Pow2;
    Pow2Splits(c.ones, 32 - c.ones);
    AllAddresses();
    TimesSign(Pow2(c.ones) - 1, Size(c));
    assert (Pow2(c.ones) - 1) * Size(c) == Pow2(c.ones) * Size(c) - Size(c);
    assert (Pow2(c.ones) - 1) * Size(c) >= 0;
  }

  lemma AllAddresses()
    ensures Pow2(32) == 0x1_0000_0000
  {
    assert Pow2(8) == 256;
    Pow2Splits(8, 8);
    Pow2Splits(16, 16);
  }

  /** The range never wraps. */
  lemma RangeFits(c: Cidr)
    ensures ParseCidr(c).base == c.ip - c.ip % Size(c)
    ensures ParseCidr(c).last == ParseCidr(c).base + Size(c) - 1
  {
    hide Pow2, Size, Wrap;
    SizeDivides(c);
    BlockFits(Pow2(c.ones), Size(c), c.ip);
    NoWrap(c.ip - c.ip % Size(c), Size(c));
  }

  lemma NoWrap(base: int, n: nat)
    requires 0 <= base && 0 < n && base + n <= 0x1_0000_0000
    ensures Wrap(base) == base && Wrap(n - 1) == n - 1 && Wrap(base + (n - 1)) == base + n - 1
  {
  }

  /** It is the block. */
  lemma RangeIsBlock(c: Cidr, a: uint32)
    ensures ParseCidr(c).base <= a <= ParseCidr(c).last <==> InBlock(c, a)
  {
    hide Pow2, Size, ParseCidr;
    RangeFits(c);
    SameQuotient(a, c.ip, Size(c));
  }

  ghost predicate Shared(c: Cidr, d: Cidr) {
    exists a :: InBlock(c, a) && InBlock(d, a)
  }

  /** Ranges overlap just when some address is in both blocks. */
  lemma OverlapIffShared(c: Cidr, d: Cidr)
    ensures ParseCidr(c).Overlaps(ParseCidr(d)) <==> Shared(c, d)
  {
    hide Pow2, InBlock, Size, ParseCidr;
    var p, q := ParseCidr(c), ParseCidr(d);
    RangeFits(c);
    RangeFits(d);
    var a := if p.base < q.base then q.base else p.base;
    RangeIsBlock(c, a);
    RangeIsBlock(d, a);
    if b :| InBlock(c, b) && InBlock(d, b) {
      RangeIsBlock(c, b);
      RangeIsBlock(d, b);
    }
  }

  /** Blocks that share an address are nested: the one with the longer prefix lies within the other. */
  lemma SharedMeansNested(c: Cidr, d: Cidr, a: uint32)
    requires Shared(c, d) && c.ones <= d.ones && InBlock(d, a)
    ensures InBlock(c, a)
  {
    hide Pow2, Size;
    var b :| InBlock(c, b) && InBlock(d, b);
    CoarserQuotient(c, d, a);
    CoarserQuotient(c, d, b);
  }

  lemma CoarserQuotient(c: Cidr, d: Cidr, a: uint32)
    requires c.ones <= d.ones && InBlock(d, a)
    ensures a / Size(c) == d.ip / Size(c)
  {
    hide Pow2, Size;
    var k: nat := Pow2(d.ones - c.ones);
    SizeRatio(c, d);
    DivDiv(a, Size(d), k);
    DivDiv(d.ip, Size(d), k);
  }

  lemma SizeRatio(c: Cidr, d: Cidr)
    requires c.ones <= d.ones
    ensures Size(c) == Size(d) * Pow2(d.ones - c.ones)
  {
    Pow2Splits(32 - d.ones, d.ones - c.ones);
  }

  lemma DivDiv(a: nat, n: nat, k: nat)
    requires n > 0 && k > 0
    ensures n * k > 0 && a / (n * k) == a / n / k
  {
    var q, r := a / n, a % n;
    var q', r' := q / k, q % k;
    TimesSign(k, n);
    assert a == q * n + r && q == q' * k + r';
    assert q * n == q' * (n * k) + r' * n by {
      Expand(q', k, r', n);
    }
    Below(r', k, n, r);
    QuotientIs(a, n * k, q', r' * n + r);
  }

  lemma Below(r: nat, k: nat, n: nat, s: nat)
    requires r < k && s < n
    ensures 0 <= r * n + s < k * n
  {
    TimesSign(k - r, n);
    assert (k - r) * n == k * n - r * n;
    assert r * n >= 0;
  }

  lemma Expand(q: nat, k: nat, r: nat, n: nat)
    ensures (q * k + r) * n == q * (n * k) + r * n
  {
    assert (q * k + r) * n == q * k * n + r * n;
    assert q * k * n == q * (n * k);
  }

  // ---- Validation ----

  /** Two subnets that may not coexist. */
  ghost predicate Conflict(s: Subnet, t: Subnet) {
    && s.vni == t.vni
    && (s.ns != t.ns || (s.cidr.Some? && t.cidr.Some? && Shared(s.cidr.value, t.cidr.value)))
  }

  predicate WellFormed(s: Subnet) {
    MIN_VNI <= s.vni <= MAX_VNI && s.cidr.Some?
  }

  function SameVni(vni: uint32, list: seq<Subnet>): seq<Subnet> {
    if list == [] then []
    else SameVni(vni, list[..|list| - 1]) + if list[|list| - 1].vni == vni then [list[|list| - 1]] else []
  }

  function NamespaceErrors(s: Subnet, list: seq<Subnet>): seq<Error> {
    if list == [] then []
    else
      var t := list[|list| - 1];
      NamespaceErrors(s, list[..|list| - 1]) + if t.ns != s.ns then [OtherNamespace(t)] else []
  }

  function OverlapErrors(s: Subnet, list: seq<Subnet>): seq<Error> {
    if list == [] then []
    else
      var t := list[|list| - 1];
      OverlapErrors(s, list[..|list| - 1])
      + if t.uid != s.uid && ParseSubnet(s).Overlaps(ParseSubnet(t)) then [Overlap(t)] else []
  }

  /** `listed` is what the subnet lister answers. */
  function Verdict(s: Subnet, listed: Option<seq<Subnet>>): seq<Error> {
    var vniErrs := if s.vni < MIN_VNI || s.vni > MAX_VNI then [BadVni] else [];
    var cidrErrs := if s.cidr.None? then [BadCidr] else [];
    if vniErrs != [] then vniErrs + cidrErrs
    else if listed.None? then vniErrs + cidrErrs + [NotListed]
    else
      var same := SameVni(s.vni, listed.value);
      vniErrs + cidrErrs + NamespaceErrors(s, same) + if cidrErrs == [] then OverlapErrors(s, same) else []
  }

  method AllSubnetsWithVni(vni: uint32, list: seq<Subnet>) returns (same: seq<Subnet>)
    ensures same == SameVni(vni, list)
  {
    same := [];
    for i := 0 to |list|
      invariant same == SameVni(vni, list[..i])
    {
      assert list[..i + 1][..i] == list[..i];
      if list[i].vni == vni {
        same := same + [list[i]];
      }
    }
    assert list[..|list|] == list;
  }

  method CheckSameVniSameNs(s: Subnet, same: seq<Subnet>) returns (errs: seq<Error>)
    ensures errs == NamespaceErrors(s, same)
  {
    errs := [];
    for i := 0 to |same|
      invariant errs == NamespaceErrors(s, same[..i])
    {
      assert same[..i + 1][..i] == same[..i];
      if same[i].ns != s.ns {
        errs := errs + [OtherNamespace(same[i])];
      }
    }
    assert same[..|same|] == same;
  }

  method CheckCidrDoesNotOverlap(s: Subnet, same: seq<Subnet>) returns (errs: seq<Error>)
    ensures errs == OverlapErrors(s, same)
  {
    hide ParseSubnet;
    errs := [];
    var parsed := ParseSubnet(s);
    for i := 0 to |same|
      invariant errs == OverlapErrors(s, same[..i])
    {
      assert same[..i + 1][..i] == same[..i];
      if s.uid == same[i].uid {
        continue;
      }
      if parsed.Overlaps(ParseSubnet(same[i])) {
        errs := errs + [Overlap(same[i])];
      }
    }
    assert same[..|same|] == same;
  }

  method Validate(s: Subnet, listed: Option<seq<Subnet>>) returns (errs: seq<Error>)
    ensures errs == Verdict(s, listed)
  {
    hide NamespaceErrors, OverlapErrors, SameVni;
    errs := [];
    var vniOk := MIN_VNI <= s.vni <= MAX_VNI;
    if !vniOk {
      errs := errs + [BadVni];
    }
    if s.cidr.None? {
      errs := errs + [BadCidr];
    }
    if !vniOk {
      return;
    }
    match listed
    case None =>
      errs := errs + [NotListed];
    case Some(list) =>
      var same := AllSubnetsWithVni(s.vni, list);
      var nsErrs := CheckSameVniSameNs(s, same);
      errs := errs + nsErrs;
      if s.cidr.Some? {
        var overlaps := CheckCidrDoesNotOverlap(s, same);
        errs := errs + overlaps;
      }
  }

  lemma {:induction false} SameVniHolds(vni: uint32, list: seq<Subnet>)
    ensures forall t :: t in SameVni(vni, list) <==> t in list && t.vni == vni
  {
    if list != [] {
      SameVniHolds(vni, list[..|list| - 1]);
      assert list == list[..|list| - 1] + [list[|list| - 1]];
    }
  }

  lemma {:induction false} NoNamespaceErrors(s: Subnet, list: seq<Subnet>)
    ensures NamespaceErrors(s, list) == [] <==> forall t :: t in list ==> t.ns == s.ns
  {
    if list != [] {
      NoNamespaceErrors(s, list[..|list| - 1]);
      assert list == list[..|list| - 1] + [list[|list| - 1]];
    }
  }

  lemma {:induction false} NoOverlapErrors(s: Subnet, list: seq<Subnet>)
    ensures OverlapErrors(s, list) == []
            <==> forall t :: t in list && t.uid != s.uid ==> !ParseSubnet(s).Overlaps(ParseSubnet(t))
  {
    hide ParseSubnet;
    if list != [] {
      NoOverlapErrors(s, list[..|list| - 1]);
      assert list == list[..|list| - 1] + [list[|list| - 1]];
    }
  }

  /**
   A subnet is accepted just when it is well formed, the others could be listed, and none of these that is
   well formed conflicts with it; its own earlier version only counts for the namespace.
   */
  lemma AcceptedIff(s: Subnet, listed: Option<seq<Subnet>>)
    requires listed.Some? ==> forall t :: t in listed.value ==> WellFormed(t)
    ensures Verdict(s, listed) == []
            <==> 1 <= s.vni <= 2097151 && s.cidr.Some? && listed.Some?
                 && forall t :: t in listed.value ==> !Conflict(s, t) || (t.uid == s.uid && s.ns == t.ns)
  {
    hide NamespaceErrors, OverlapErrors, SameVni, ParseCidr, Shared;
    if WellFormed(s) && listed.Some? {
      var list := listed.value;
      var same := SameVni(s.vni, list);
      SameVniHolds(s.vni, list);
      NoNamespaceErrors(s, same);
      NoOverlapErrors(s, same);
      forall t | t in same ensures ParseSubnet(s).Overlaps(ParseSubnet(t)) <==> Shared(s.cidr.value, t.cidr.value) {
        OverlapIffShared(s.cidr.value, t.cidr.value);
      }
    }
  }

  lemma {:induction false} NamespaceErrorsSay(s: Subnet, list: seq<Subnet>, e: Error)
    ensures e in NamespaceErrors(s, list) <==> e.OtherNamespace? && e.than in list && e.than.ns != s.ns
  {
    if list != [] {
      NamespaceErrorsSay(s, list[..|list| - 1], e);
      assert list == list[..|list| - 1] + [list[|list| - 1]];
    }
  }

  lemma {:induction false} OverlapErrorsSay(s: Subnet, list: seq<Subnet>, e: Error)
    ensures e in OverlapErrors(s, list)
            <==> e.Overlap? && e.that in list && e.that.uid != s.uid && ParseSubnet(s).Overlaps(ParseSubnet(e.that))
  {
    hide ParseSubnet;
    if list != [] {
      OverlapErrorsSay(s, list[..|list| - 1], e);
      assert list == list[..|list| - 1] + [list[|list| - 1]];
    }
  }

  /** A range of nothing but 0, which a text that is no CIDR is taken for. */
  lemma ZeroRange(c: Cidr)
    ensures ParseCidr(c).Overlaps(ParsedSubnet(0, 0)) <==> InBlock(c, 0)
  {
    hide Pow2, Size, InBlock, ParseCidr;
    RangeIsBlock(c, 0);
  }

  /** Which errors are reported, whatever is listed. */
  lemma ErrorsSay(s: Subnet, listed: Option<seq<Subnet>>, e: Error)
    ensures e in Verdict(s, listed) <==>
              match e
              case BadVni => s.vni == 0 || s.vni >= 0x20_0000
              case BadCidr => s.cidr.None?
              case NotListed => 0 < s.vni < 0x20_0000 && listed.None?
              case OtherNamespace(t) =>
                0 < s.vni < 0x20_0000 && listed.Some? && t in listed.value && t.vni == s.vni && t.ns != s.ns
              case Overlap(t) =>
                && 0 < s.vni < 0x20_0000 && listed.Some? && t in listed.value && t.vni == s.vni && t.uid != s.uid
                && s.cidr.Some?
                && if t.cidr.Some? then Shared(s.cidr.value, t.cidr.value) else InBlock(s.cidr.value, 0)
  {
    hide NamespaceErrors, OverlapErrors, SameVni, ParseCidr, Shared, InBlock;
    if listed.Some? {
      var same := SameVni(s.vni, listed.value);
      SameVniHolds(s.vni, listed.value);
      NamespaceErrorsSay(s, same, e);
      OverlapErrorsSay(s, same, e);
      if e.Overlap? && s.cidr.Some? {
        if e.that.cidr.Some? {
          OverlapIffShared(s.cidr.value, e.that.cidr.value);
        } else {
          ZeroRange(s.cidr.value);
        }
      }
    }
  }

  // ---- Runs ----

  type Store = map<nat, Subnet>

  datatype Op = Put(subnet: Subnet) | Delete(uid: nat)

  /** Every subnet is well formed and no two conflict. */
  ghost predicate Consistent(store: Store) {
    && (forall u :: u in store ==> store[u].uid == u && WellFormed(store[u]))
    && (forall u, v :: u in store && v in store && u != v ==> !Conflict(store[u], store[v]))
  }

  ghost predicate IsListing(store: Store, list: seq<Subnet>) {
    forall t :: t in list <==> exists u :: u in store && store[u] == t
  }

  /** A create or an update, kept if it is accepted against an up-to-date list, or a delete. */
  function Apply(store: Store, op: Op, list: seq<Subnet>): Store {
    match op
    case Put(s) => if Verdict(s, Some(list)) == [] then store[s.uid := s] else store
    case Delete(uid) => store - {uid}
  }

  ghost predicate IsRun(run: seq<Store>, ops: seq<Op>, lists: seq<seq<Subnet>>) {
    && |run| == |ops| + 1 && |lists| == |ops|
    && forall i :: 0 <= i < |ops| ==> IsListing(run[i], lists[i]) && run[i + 1] == Apply(run[i], ops[i], lists[i])
  }

  lemma ConflictIsMutual(s: Subnet, t: Subnet)
    ensures Conflict(s, t) <==> Conflict(t, s)
  {
    if s.cidr.Some? && t.cidr.Some? {
      assert Shared(s.cidr.value, t.cidr.value) <==> Shared(t.cidr.value, s.cidr.value);
    }
  }

  lemma OpKeepsConsistent(store: Store, op: Op, list: seq<Subnet>)
    requires Consistent(store) && IsListing(store, list)
    ensures Consistent(Apply(store, op, list))
  {
    hide Verdict, Conflict;
    if op.Put? && Verdict(op.subnet, Some(list)) == [] {
      var s := op.subnet;
      AcceptedIff(s, Some(list));
      forall u | u in store && u != s.uid ensures !Conflict(s, store[u]) && !Conflict(store[u], s) {
        assert store[u] in list;
        ConflictIsMutual(s, store[u]);
      }
    }
  }

  /** However subnets come, change and go one after the other, the accepted ones stay consistent. */
  lemma {:induction false} AcceptedStayConsistent(run: seq<Store>, ops: seq<Op>, lists: seq<seq<Subnet>>, i: nat)
    requires IsRun(run, ops, lists) && run[0] == map[] && i < |run|
    ensures Consistent(run[i])
    ensures forall u, v :: u in run[i] && v in run[i] && u != v && run[i][u].vni == run[i][v].vni ==>
                             !Shared(run[i][u].cidr.value, run[i][v].cidr.value)
    ensures forall u, v :: u in run[i] && v in run[i] && run[i][u].vni == run[i][v].vni ==> run[i][u].ns == run[i][v].ns
  {
    if i > 0 {
      hide InBlock, Apply;
      AcceptedStayConsistent(run, ops, lists, i - 1);
      assert run[i - 1 + 1] == Apply(run[i - 1], ops[i - 1], lists[i - 1]);
      OpKeepsConsistent(run[i - 1], ops[i - 1], lists[i - 1]);
    }
  }

  /** Two creates validated against the same list leave the store consistent just when they do not conflict. */
  lemma RacingCreates(store: Store, list: seq<Subnet>, s: Subnet, t: Subnet)
    requires Consistent(store) && IsListing(store, list)
    requires s.uid !in store && t.uid !in store && s.uid != t.uid
    requires Verdict(s, Some(list)) == [] && Verdict(t, Some(list)) == []
    ensures Consistent(store[s.uid := s][t.uid := t]) <==> !Conflict(s, t)
  {
    hide Verdict, Conflict, WellFormed;
    var after := store[s.uid := s][t.uid := t];
    OpKeepsConsistent(store, Put(s), list);
    OpKeepsConsistent(store, Put(t), list);
    ConflictIsMutual(s, t);
    assert after[s.uid] == s && after[t.uid] == t;
    if Conflict(s, t) {
      assert Conflict(after[s.uid], after[t.uid]);
    } else {
      forall u | u in after ensures after[u].uid == u && WellFormed(after[u]) {
        var one, other := store[s.uid := s], store[t.uid := t];
        if u == t.uid {
          assert WellFormed(other[u]) && other[u] == after[u];
        } else {
          assert WellFormed(one[u]) && one[u] == after[u];
        }
      }
      forall u, v | u in after && v in after && u != v ensures !Conflict(after[u], after[v]) {
        var one, other := store[s.uid := s], store[t.uid := t];
        if u in one && v in one {
          assert !Conflict(one[u], one[v]);
        } else if u in other && v in other {
          assert !Conflict(other[u], other[v]);
        }
      }
    }
  }

  /** Two such creates: 10.0.0.0/8 on VNI 5, in two namespaces. */
  lemma RacingExample() returns (s: Subnet, t: Subnet)
    ensures Verdict(s, Some([])) == [] && Verdict(t, Some([])) == []
    ensures Conflict(s, t) && !Consistent(map[s.uid := s, t.uid := t])
  {
    s, t := Subnet(1, "one", 5, Some(Cidr(0x0A00_0000, 8))), Subnet(2, "other", 5, Some(Cidr(0x0A00_0000, 8)));
    AcceptedIff(s, Some([]));
    AcceptedIff(t, Some([]));
    var both := map[s.uid := s, t.uid := t];
    assert Conflict(both[1], both[2]);
  }
}
