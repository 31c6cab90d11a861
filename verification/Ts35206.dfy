/**
  The MILENAGE algorithm set as TS 35.206 section 4.1 defines it: 128-bit strings,
  cyclic left rotations counted in bits, and constants given by the position of their one bit.
  The kernel E under the subscriber key is an arbitrary function on blocks.
 */
module Ts35206 {
  import opened Bytes

  type Cipher = Block -> Block

  function Mask(j: nat): byte
    requires j < 8
  {
    match j
    case 0 => 0x80
    case 1 => 0x40
    case 2 => 0x20
    case 3 => 0x10
    case 4 => 0x08
    case 5 => 0x04
    case 6 => 0x02
    case 7 => 0x01
  }

  /** Bit j of an octet, the most significant bit being bit 0. */
  predicate BitOf(b: byte, j: nat)
    requires j < 8
  {
    b & Mask(j) != 0
  }

  function Bits(x: Block): (r: seq<bool>)
    ensures |r| == 128
  {
    seq(128, i requires 0 <= i < 128 => BitOf(x[i / 8], i % 8))
  }

  function Bit(one: bool, j: nat): byte
    requires j < 8
  {
    if one then Mask(j) else 0
  }

  function ByteOf(s: seq<bool>): byte
    requires |s| == 8
  {
    Bit(s[0], 0) | Bit(s[1], 1) | Bit(s[2], 2) | Bit(s[3], 3) |
    Bit(s[4], 4) | Bit(s[5], 5) | Bit(s[6], 6) | Bit(s[7], 7)
  }

  function FromBits(s: seq<bool>): Block
    requires |s| == 128
  {
    seq(16, k requires 0 <= k < 16 => ByteOf(s[8 * k..8 * k + 8]))
  }

  /** rot(x, r): x cyclically rotated by r bit positions towards the most significant bit. */
  function Rot(x: Block, r: nat): Block
    requires r <= 128
  {
    FromBits(Bits(x)[r..] + Bits(x)[..r])
  }

  /** The 128-bit constant whose only one bit is at position k; position 127 is the last bit. */
  function OneBit(k: nat): Block {
    FromBits(seq(128, i => i == k))
  }

  const R1 := 64
  const R2 := 0
  const R3 := 32
  const R4 := 64
  const R5 := 96
  const C1: Block := Zeros(16)
  const C2: Block := OneBit(127)
  const C3: Block := OneBit(126)
  const C4: Block := OneBit(125)
  const C5: Block := OneBit(124)

  function Temp(e: Cipher, opc: Block, rand: Block): Block {
    e(Xor(rand, opc))
  }

  function In1(sqn: seq<byte>, amf: seq<byte>): Block
    requires |sqn| == 6 && |amf| == 2
  {
    sqn + amf + sqn + amf
  }

  function Out1(e: Cipher, opc: Block, temp: Block, in1: Block): Block {
    Xor(e(Xor(Xor(temp, Rot(Xor(in1, opc), R1)), C1)), opc)
  }

  /** OUT2 to OUT5 differ only in their rotation and constant. */
  function OutN(e: Cipher, opc: Block, temp: Block, r: nat, c: Block): Block
    requires r <= 128
  {
    Xor(e(Xor(Rot(Xor(temp, opc), r), c)), opc)
  }

  function F1(e: Cipher, opc: Block, rand: Block, sqn: seq<byte>, amf: seq<byte>): (mac: seq<byte>)
    requires |sqn| == 6 && |amf| == 2
    ensures |mac| == 8
  {
    Out1(e, opc, Temp(e, opc, rand), In1(sqn, amf))[..8]
  }

  function F1Star(e: Cipher, opc: Block, rand: Block, sqn: seq<byte>, amf: seq<byte>): (mac: seq<byte>)
    requires |sqn| == 6 && |amf| == 2
    ensures |mac| == 8
  {
    Out1(e, opc, Temp(e, opc, rand), In1(sqn, amf))[8..]
  }

  function F2(e: Cipher, opc: Block, rand: Block): (res: seq<byte>)
    ensures |res| == 8
  {
    OutN(e, opc, Temp(e, opc, rand), R2, C2)[8..]
  }

  function F3(e: Cipher, opc: Block, rand: Block): (ck: Block) {
    OutN(e, opc, Temp(e, opc, rand), R3, C3)
  }

  function F4(e: Cipher, opc: Block, rand: Block): (ik: Block) {
    OutN(e, opc, Temp(e, opc, rand), R4, C4)
  }

  function F5(e: Cipher, opc: Block, rand: Block): (ak: seq<byte>)
    ensures |ak| == 6
  {
    OutN(e, opc, Temp(e, opc, rand), R2, C2)[..6]
  }

  function F5Star(e: Cipher, opc: Block, rand: Block): (ak: seq<byte>)
    ensures |ak| == 6
  {
    OutN(e, opc, Temp(e, opc, rand), R5, C5)[..6]
  }

  lemma ByteOfItsBits(b: byte)
    ensures ByteOf(seq(8, j requires 0 <= j < 8 => BitOf(b, j))) == b
  {
  }

  /** A rotation by whole octets moves octets: the standard's bit rotation is an index shift. */
  lemma RotateOctets(x: Block, m: nat)
    requires m <= 16
    ensures Rot(x, 8 * m) == x[m..] + x[..m]
  {
    var s := Bits(x)[8 * m..] + Bits(x)[..8 * m];
    var y := x[m..] + x[..m];
    forall k | 0 <= k < 16 ensures ByteOf(s[8 * k..8 * k + 8]) == y[k] {
      var t := s[8 * k..8 * k + 8];
      forall j | 0 <= j < 8 ensures t[j] == BitOf(y[k], j) {
        RotatedBit(x, m, k, j);
      }
      assert t == seq(8, j requires 0 <= j < 8 => BitOf(y[k], j));
      ByteOfItsBits(y[k]);
    }
  }

  lemma RotatedBit(x: Block, m: nat, k: nat, j: nat)
    requires m <= 16 && k < 16 && j < 8
    ensures (Bits(x)[8 * m..] + Bits(x)[..8 * m])[8 * k + j] == BitOf((x[m..] + x[..m])[k], j)
  {
    var i := if k + m < 16 then 8 * (k + m) + j else 8 * (k + m - 16) + j;
    assert (Bits(x)[8 * m..] + Bits(x)[..8 * m])[8 * k + j] == Bits(x)[i];
    assert i % 8 == j;
  }

  /** The constants c2 to c5 are zero but for their last octet, which is 1, 2, 4 and 8. */
  lemma ConstantsInLastOctet()
    ensures C2 == Zeros(15) + [1] && C3 == Zeros(15) + [2]
    ensures C4 == Zeros(15) + [4] && C5 == Zeros(15) + [8]
  {
    OneBitOctets(127);
    OneBitOctets(126);
    OneBitOctets(125);
    OneBitOctets(124);
  }

  lemma OneBitOctets(k: nat)
    requires 120 <= k < 128
    ensures OneBit(k) == Zeros(15) + [Mask(k - 120)]
  {
    var s := seq(128, i => i == k);
    forall o | 0 <= o < 15 ensures ByteOf(s[8 * o..8 * o + 8]) == 0 {
      var zero := s[8 * o..8 * o + 8];
      assert forall j :: 0 <= j < 8 ==> !zero[j];
    }
    var t := s[120..128];
    assert forall j :: 0 <= j < 8 ==> t[j] == (j == k - 120);
    assert ByteOf(t) == Mask(k - 120);
  }

  // The functions in octets, without rotations counted in bits and without named constants.

  lemma XorZeros(a: Block)
    ensures Xor(a, Zeros(16)) == a
  {
    forall i | 0 <= i < 16 ensures Xor(a, Zeros(16))[i] == a[i] {
      XorZero(a[i]);
    }
  }

  lemma XorZero(x: byte)
    ensures x ^ 0 == x
  {
  }

  /** f1 and f1* are the two halves of one encryption, of TEMP XOR the masked input turned by eight octets. */
  lemma F1InOctets(e: Cipher, opc: Block, rand: Block, sqn: seq<byte>, amf: seq<byte>)
    requires |sqn| == 6 && |amf| == 2
    ensures var y := Xor(sqn + amf + sqn + amf, opc);
            F1(e, opc, rand, sqn, amf) + F1Star(e, opc, rand, sqn, amf) ==
              Xor(e(Xor(e(Xor(rand, opc)), y[8..] + y[..8])), opc)
  {
    var y := Xor(In1(sqn, amf), opc);
    RotateOctets(y, 8);
    XorZeros(Xor(Temp(e, opc, rand), y[8..] + y[..8]));
  }

  /** f5 is the first six octets, and f2 the last eight, of one encryption without rotation. */
  lemma F2F5InOctets(e: Cipher, opc: Block, rand: Block)
    ensures var out := Xor(e(Xor(Xor(e(Xor(rand, opc)), opc), Zeros(15) + [1])), opc);
            F5(e, opc, rand) + out[6..8] + F2(e, opc, rand) == out
  {
    var x := Xor(e(Xor(rand, opc)), opc);
    RotateOctets(x, 0);
    assert x[0..] + x[..0] == x;
    ConstantsInLastOctet();
  }

  /** f3 turns by four octets. */
  lemma F3InOctets(e: Cipher, opc: Block, rand: Block)
    ensures var x := Xor(e(Xor(rand, opc)), opc);
            F3(e, opc, rand) == Xor(e(Xor(x[4..] + x[..4], Zeros(15) + [2])), opc)
  {
    RotateOctets(Xor(e(Xor(rand, opc)), opc), 4);
    ConstantsInLastOctet();
  }

  /** f4 turns by eight octets. */
  lemma F4InOctets(e: Cipher, opc: Block, rand: Block)
    ensures var x := Xor(e(Xor(rand, opc)), opc);
            F4(e, opc, rand) == Xor(e(Xor(x[8..] + x[..8], Zeros(15) + [4])), opc)
  {
    RotateOctets(Xor(e(Xor(rand, opc)), opc), 8);
    ConstantsInLastOctet();
  }

  /** f5* turns by twelve octets and keeps the first six. */
  lemma F5StarInOctets(e: Cipher, opc: Block, rand: Block)
    ensures var x := Xor(e(Xor(rand, opc)), opc);
            F5Star(e, opc, rand) == Xor(e(Xor(x[12..] + x[..12], Zeros(15) + [8])), opc)[..6]
  {
    RotateOctets(Xor(e(Xor(rand, opc)), opc), 12);
    ConstantsInLastOctet();
  }
}
