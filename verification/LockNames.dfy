/**
 Names of IPLock objects, from makeIPLockName2 and parseIPLockName of
 staging/kos/pkg/controllers/ipam/ipam.go: "v1", the VNI and the four bytes of the address, in
 decimal, joined by dashes.
 */
module LockNames {
  import opened Options
  import opened UInt32

  datatype Address = Address(vni: uint32, addr: uint32)

  // ---- Decimal numbers ----

  function DigitChar(d: nat): char
    requires d < 10
  {
    ['0', '1', '2', '3', '4', '5', '6', '7', '8', '9'][d]
  }

  predicate IsDigit(c: char) {
    '0' <= c <= '9'
  }

  function DigitValue(c: char): nat
    requires IsDigit(c)
  {
    c as int - '0' as int
  }

  /** The verb %d. */
  function Decimal(n: nat): (s: string)
    ensures s != [] && forall i :: 0 <= i < |s| ==> IsDigit(s[i])
  {
    if n < 10 then [DigitChar(n)] else Decimal(n / 10) + [DigitChar(n % 10)]
  }

  /** The number a string of digits spells; leading zeros are allowed, an empty string is not a number. */
  function Spelled(s: string): Option<nat> {
    if s == [] || !IsDigit(s[|s| - 1]) then None
    else if |s| == 1 then Some(DigitValue(s[0]))
    else
      match Spelled(s[..|s| - 1])
      case None => None
      case Some(n) => Some(10 * n + DigitValue(s[|s| - 1]))
  }

  /** strconv.ParseUint in base 10; a number at or above the limit is out of range. */
  function ParseUint(s: string, limit: nat): Option<nat> {
    match Spelled(s)
    case Some(n) => if n < limit then Some(n) else None
    case None => None
  }

  lemma {:induction false} SpelledDecimal(n: nat)
    ensures Spelled(Decimal(n)) == Some(n)
  {
    if n >= 10 {
      SpelledDecimal(n / 10);
      var s := Decimal(n);
      assert s[..|s| - 1] == Decimal(n / 10);
      assert s[|s| - 1] == DigitChar(n % 10);
    }
  }

  // ---- Splitting ----

  /** strings.Split with a one-character separator. */
  function Split(s: string): (parts: seq<string>)
    ensures |parts| > 0
  {
    if s == [] then [[]]
    else
      var rest := Split(s[1..]);
      if s[0] == '-' then [[]] + rest else [[s[0]] + rest[0]] + rest[1..]
  }

  lemma {:induction false} SplitAtDash(a: string, rest: string)
    requires '-' !in a
    ensures Split(a + "-" + rest) == [a] + Split(rest)
  {
    var s := a + "-" + rest;
    if a == [] {
      assert s[1..] == rest;
    } else {
      assert s[1..] == a[1..] + "-" + rest;
      SplitAtDash(a[1..], rest);
      assert a == [a[0]] + a[1..];
    }
  }

  lemma {:induction false} SplitNoDash(a: string)
    requires '-' !in a
    ensures Split(a) == [a]
  {
    if a != [] {
      SplitNoDash(a[1..]);
      assert a == [a[0]] + a[1..];
    }
  }

  // ---- Addresses and their bytes ----

  /** Byte `i` of an address, the most significant first. */
  function ByteOf(addr: uint32, i: nat): nat
    requires i < 4
  {
    match i
    case 0 => addr / 0x100_0000
    case 1 => addr / 0x1_0000 % 256
    case 2 => addr / 0x100 % 256
    case 3 => addr % 256
  }

  function MakeName(a: Address): string {
    "v1" + "-" + (Decimal(a.vni) + "-" + (Decimal(ByteOf(a.addr, 0)) + "-" + (Decimal(ByteOf(a.addr, 1))
    + "-" + (Decimal(ByteOf(a.addr, 2)) + "-" + Decimal(ByteOf(a.addr, 3))))))
  }

  /** What a name stands for, if it is well formed. */
  function Parsed(name: string): Option<Address> {
    var parts := Split(name);
    if |parts| != 6 || parts[0] != "v1" then None
    else
      match ParseUint(parts[1], 0x20_0000)
      case None => None
      case Some(vni) =>
        match Base256(parts[2..])
        case None => None
        case Some(addr) => Some(Address(vni, Wrap(addr)))
  }

  /** Byte strings, the most significant first, as one number. */
  function Base256(parts: seq<string>): (r: Option<nat>) {
    if parts == [] then Some(0)
    else
      match (Base256(parts[..|parts| - 1]), ParseUint(parts[|parts| - 1], 256))
      case (Some(n), Some(b)) => Some(256 * n + b)
      case _ => None
  }

  lemma {:induction false} Base256Prefix(parts: seq<string>, i: nat)
    requires i <= |parts| && Base256(parts[..i]) == None
    ensures Base256(parts) == None
    decreases |parts|
  {
    if i < |parts| {
      assert parts[..|parts| - 1][..i] == parts[..i];
      Base256Prefix(parts[..|parts| - 1], i);
    } else {
      assert parts[..i] == parts;
    }
  }

  /** The source's parser, with its loop over the address bytes. */
  method ParseIPLockName(name: string) returns (r: Option<Address>)
    ensures r == Parsed(name)
  {
    var parts := Split(name);
    if |parts| != 6 || parts[0] != "v1" {
      return None;
    }
    var vni := ParseUint(parts[1], 0x20_0000);
    if vni.None? {
      return None;
    }
    ghost var bytes := parts[2..];
    ghost var bound := 1;
    var addr: uint32 := 0;
    var i := 0;
    while i < 4
      invariant 0 <= i <= 4
      invariant bound == [1, 0x100, 0x1_0000, 0x100_0000, 0x1_0000_0000][i]
      invariant 0 <= addr < bound && Base256(bytes[..i]) == Some(addr)
    {
      var b := ParseUint(parts[2 + i], 256);
      assert bytes[..i + 1][..i] == bytes[..i];
      if b.None? {
        Base256Prefix(bytes, i + 1);
        return None;
      }
      addr := Wrap(addr * 256 + b.value);
      bound := bound * 256;
      i := i + 1;
    }
    assert bytes[..4] == bytes;
    var vniValue: uint32 := vni.value;
    return Some(Address(vniValue, addr));
  }

  lemma DecimalHasNoDash(n: nat)
    ensures '-' !in Decimal(n)
  {
  }

  lemma NameParts(a: Address)
    ensures Split(MakeName(a)) == ["v1", Decimal(a.vni), Decimal(ByteOf(a.addr, 0)), Decimal(ByteOf(a.addr, 1)),
                                   Decimal(ByteOf(a.addr, 2)), Decimal(ByteOf(a.addr, 3))]
  {
    hide Split, Decimal, ByteOf;
    var d, b0, b1, b2, b3 := Decimal(a.vni), Decimal(ByteOf(a.addr, 0)), Decimal(ByteOf(a.addr, 1)),
                             Decimal(ByteOf(a.addr, 2)), Decimal(ByteOf(a.addr, 3));
    DecimalHasNoDash(a.vni);
    DecimalHasNoDash(ByteOf(a.addr, 0));
    DecimalHasNoDash(ByteOf(a.addr, 1));
    DecimalHasNoDash(ByteOf(a.addr, 2));
    DecimalHasNoDash(ByteOf(a.addr, 3));
    SplitNoDash(b3);
    SplitAtDash(b2, b3);
    SplitAtDash(b1, b2 + "-" + b3);
    SplitAtDash(b0, b1 + "-" + (b2 + "-" + b3));
    SplitAtDash(d, b0 + "-" + (b1 + "-" + (b2 + "-" + b3)));
    SplitAtDash("v1", d + "-" + (b0 + "-" + (b1 + "-" + (b2 + "-" + b3))));
  }

  lemma FourBytes(parts: seq<string>, b: seq<nat>)
    requires |parts| == 4 && |b| == 4
    requires forall i :: 0 <= i < 4 ==> ParseUint(parts[i], 256) == Some(b[i])
    ensures Base256(parts) == Some(((b[0] * 256 + b[1]) * 256 + b[2]) * 256 + b[3])
  {
    assert parts[..3][..2] == parts[..2] && parts[..2][..1] == parts[..1] && parts[..1][..0] == [];
    assert Base256(parts[..1]) == Some(b[0]);
    assert Base256(parts[..2]) == Some(b[0] * 256 + b[1]);
    assert Base256(parts[..3]) == Some((b[0] * 256 + b[1]) * 256 + b[2]);
  }

  lemma BytesMakeAddress(addr: uint32)
    ensures ((ByteOf(addr, 0) * 256 + ByteOf(addr, 1)) * 256 + ByteOf(addr, 2)) * 256 + ByteOf(addr, 3) == addr
    ensures forall i: nat :: i < 4 ==> ByteOf(addr, i) < 256
  {
    var a := addr / 0x100;
    var b := addr / 0x1_0000;
    assert b == a / 256 && b / 256 == addr / 0x100_0000;
  }

  /** A generated name parses back to its VNI and address, exactly when the VNI fits 21 bits. */
  lemma NameRoundTrip(a: Address)
    ensures Parsed(MakeName(a)) == if a.vni < 0x20_0000 then Some(a) else None
  {
    hide Split, Decimal, MakeName, ByteOf, Spelled, Base256;
    NameParts(a);
    SpelledDecimal(a.vni);
    BytesMakeAddress(a.addr);
    var b := seq(4, (i: nat) requires i < 4 => ByteOf(a.addr, i));
    forall i: nat | i < 4 ensures ParseUint(Decimal(b[i]), 256) == Some(b[i]) {
      SpelledDecimal(b[i]);
    }
    var parts := Split(MakeName(a))[2..];
    FourBytes(parts, b);
  }

  /** So distinct addresses on legitimate VNIs never share a lock name. */
  lemma NamesAreDistinct(a: Address, b: Address)
    requires a.vni < 0x20_0000 && b.vni < 0x20_0000 && MakeName(a) == MakeName(b)
    ensures a == b
  {
    hide MakeName, Parsed;
    NameRoundTrip(a);
    NameRoundTrip(b);
  }
}
