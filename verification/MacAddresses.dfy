/** MAC addresses of network interfaces, from generateMACAddr of the connection agent. */
module MacAddresses {
  import opened UInt32

  type byte = x: int | 0 <= x < 256 witness 0

  datatype MacAddr = MacAddr(b0: byte, b1: byte, b2: byte, b3: byte, b4: byte, b5: byte)

  /** Keeps the bits 0xF8 of a byte. */
  function MaskF8(b: byte): byte {
    b - b % 8
  }

  /** Keeps the bit 0x02 of a byte. */
  function Mask02(b: byte): byte {
    b / 2 % 2 * 2
  }

  /**
   Shifts are divisions, conversions to a byte are remainders, and the three parts of the first
   byte have no bit in common, so that joining them is adding them.
   */
  function GenerateMacAddr(vni: uint32, guestIP: uint32): MacAddr {
    MacAddr(
      MaskF8(vni / 0x2000 % 256) + 2 * Mask02(guestIP / 0x100_0000) + 2,
      guestIP / 0x1_0000 % 256,
      guestIP / 0x100 % 256,
      guestIP % 256,
      vni / 0x100 % 256,
      vni % 256)
  }

  /** A VNI that fits the 21 bits the subnet validation admits. */
  predicate IsVni(vni: uint32) {
    vni <= 0x1F_FFFF
  }

  /** The address blocks of section 3 of RFC 1918. */
  predicate IsPrivate(ip: uint32) {
    || 0x0A00_0000 <= ip <= 0x0AFF_FFFF
    || 0xAC10_0000 <= ip <= 0xAC1F_FFFF
    || 0xC0A8_0000 <= ip <= 0xC0A8_FFFF
  }

  /** The bit of the first byte of an address that the MAC address keeps. */
  function KeptBit(ip: uint32): int {
    ip / 0x200_0000 % 2
  }

  lemma ThreeBytes(x: uint32)
    ensures x % 0x100_0000 == x / 0x1_0000 % 256 * 0x1_0000 + x / 0x100 % 256 * 0x100 + x % 256
  {
    var a, b := x / 0x1_0000, x % 0x1_0000;
    assert a % 256 * 0x1_0000 + b == x % 0x100_0000;
    assert b == x / 0x100 % 256 * 0x100 + x % 256;
  }

  lemma MaskedByte(y: nat)
    ensures MaskF8(y % 256) == y / 8 % 32 * 8
  {
    var a, b, r := y / 8 / 32, y / 8 % 32, y % 8;
    assert y == 256 * a + (8 * b + r);
    assert y % 256 == 8 * b + r;
  }

  lemma VniParts(x: uint32)
    ensures MaskF8(x / 0x2000 % 256) == x / 0x1_0000 % 32 * 8
    ensures x % 0x20_0000 == x / 0x1_0000 % 32 * 0x1_0000 + x / 0x100 % 256 * 0x100 + x % 256
  {
    hide MaskF8;
    MaskedByte(x / 0x2000);
    assert x / 0x2000 / 8 == x / 0x1_0000;
    LowDigits(x);
  }

  lemma LowDigits(x: uint32)
    ensures x % 0x20_0000 == x / 0x1_0000 % 32 * 0x1_0000 + x / 0x100 % 256 * 0x100 + x % 256
  {
    var a, b := x / 0x1_0000, x % 0x1_0000;
    assert a % 32 * 0x1_0000 + b == x % 0x20_0000;
    assert b == x / 0x100 % 256 * 0x100 + x % 256;
  }

  lemma KeptBitParts(ip: uint32)
    ensures 2 * Mask02(ip / 0x100_0000) == 4 * KeptBit(ip)
  {
  }

  lemma FirstByteParts(v: int, b: int, v': int, b': int)
    requires 0 <= b < 2 && 0 <= b' < 2
    ensures v * 8 + 4 * b + 2 == v' * 8 + 4 * b' + 2 <==> v == v' && b == b'
  {
  }

  /**
   Two pairs collide exactly when the 21 low bits of the VNIs, the 24 low bits of the addresses
   and the second lowest bit of the addresses' first byte agree.  The low bits of the first byte
   always say individual address, locally administered.
   */
  lemma MacCollision(vni: uint32, ip: uint32, vni': uint32, ip': uint32)
    ensures GenerateMacAddr(vni, ip) == GenerateMacAddr(vni', ip')
            <==> vni % 0x20_0000 == vni' % 0x20_0000
                 && ip % 0x100_0000 == ip' % 0x100_0000 && KeptBit(ip) == KeptBit(ip')
    ensures GenerateMacAddr(vni, ip).b0 % 4 == 2
  {
    hide MaskF8, Mask02, KeptBit;
    FirstByte(vni, ip);
    FirstByte(vni', ip');
    VniParts(vni);
    VniParts(vni');
    ThreeBytes(ip);
    ThreeBytes(ip');
    Digits(vni / 0x1_0000 % 32, vni / 0x100 % 256, vni % 256, vni' / 0x1_0000 % 32, vni' / 0x100 % 256, vni' % 256);
    Digits(ip / 0x1_0000 % 256, ip / 0x100 % 256, ip % 256, ip' / 0x1_0000 % 256, ip' / 0x100 % 256, ip' % 256);
    KeptBitRange(ip);
    KeptBitRange(ip');
    FirstByteParts(vni / 0x1_0000 % 32, KeptBit(ip), vni' / 0x1_0000 % 32, KeptBit(ip'));
  }

  /** What the bytes say of the pair. */
  lemma MacBytes(vni: uint32, ip: uint32)
    ensures var m := GenerateMacAddr(vni, ip);
            && m.b0 / 8 == vni / 0x1_0000 % 32 && m.b0 / 4 % 2 == ip / 0x200_0000 % 2 && m.b0 % 4 == 2
            && m.b1 * 0x1_0000 + m.b2 * 0x100 + m.b3 == ip % 0x100_0000
            && m.b4 * 0x100 + m.b5 == vni % 0x1_0000
  {
    hide MaskF8, Mask02;
    FirstByte(vni, ip);
    KeptBitRange(ip);
    TopParts(vni / 0x1_0000 % 32, KeptBit(ip));
    ThreeBytes(ip);
    TwoBytes(vni);
  }

  lemma TopParts(v: nat, b: nat)
    requires b < 2
    ensures (v * 8 + 4 * b + 2) / 8 == v && (v * 8 + 4 * b + 2) / 4 % 2 == b
  {
    assert (v * 8 + 4 * b + 2) / 4 == v * 2 + b;
  }

  lemma TwoBytes(x: uint32)
    ensures x / 0x100 % 256 * 0x100 + x % 256 == x % 0x1_0000
  {
  }

  lemma FirstByte(vni: uint32, ip: uint32)
    ensures MaskF8(vni / 0x2000 % 256) + 2 * Mask02(ip / 0x100_0000) + 2
            == vni / 0x1_0000 % 32 * 8 + 4 * KeptBit(ip) + 2
    ensures (MaskF8(vni / 0x2000 % 256) + 2 * Mask02(ip / 0x100_0000) + 2) % 4 == 2
  {
    hide MaskF8, Mask02, KeptBit;
    VniParts(vni);
    KeptBitParts(ip);
  }

  lemma KeptBitRange(ip: uint32)
    ensures 0 <= KeptBit(ip) < 2
  {
  }

  lemma Digits(a: int, b: int, c: int, a': int, b': int, c': int)
    requires 0 <= b < 256 && 0 <= c < 256 && 0 <= b' < 256 && 0 <= c' < 256
    ensures a * 0x1_0000 + b * 0x100 + c == a' * 0x1_0000 + b' * 0x100 + c' <==> a == a' && b == b' && c == c'
  {
  }

  /** The MAC address of a legitimate VNI determines the VNI, whatever the guest address. */
  lemma MacDeterminesVni(vni: uint32, ip: uint32, vni': uint32, ip': uint32)
    requires vni < 0x20_0000 && vni' < 0x20_0000
    requires GenerateMacAddr(vni, ip) == GenerateMacAddr(vni', ip')
    ensures vni == vni'
  {
    hide GenerateMacAddr;
    MacCollision(vni, ip, vni', ip');
  }

  /** On private addresses nothing is lost: the pair can be told from the MAC address. */
  lemma MacIsInjectiveOnPrivate(vni: uint32, ip: uint32, vni': uint32, ip': uint32)
    requires IsVni(vni) && IsVni(vni') && IsPrivate(ip) && IsPrivate(ip')
    requires GenerateMacAddr(vni, ip) == GenerateMacAddr(vni', ip')
    ensures vni == vni' && ip == ip'
  {
    hide GenerateMacAddr;
    MacCollision(vni, ip, vni', ip');
  }

  /** Outside those blocks it is: 8.0.0.1 and 9.0.0.1 share a MAC address on every network. */
  lemma MacCollisionExample(vni: uint32)
    ensures GenerateMacAddr(vni, 0x0800_0001) == GenerateMacAddr(vni, 0x0900_0001)
  {
    MacCollision(vni, 0x0800_0001, vni, 0x0900_0001);
  }
}
