/**
  The Milenage object: index loops over 16-octet buffers, proved to compute the functions
  of TS 35.206, and the home network's check of a resynchronisation token.
 */
module MilenageObject {
  import opened Bytes
  import Ts = Ts35206

  /** Overwrite dst from position `at` with as much of src as fits. */
  method Copy(dst: array<byte>, at: nat, src: seq<byte>)
    requires at <= dst.Length
    modifies dst
    ensures var n := if |src| < dst.Length - at then |src| else dst.Length - at;
            dst[..] == old(dst[..at]) + src[..n] + old(dst[at + n..])
  {
    var n := if |src| < dst.Length - at then |src| else dst.Length - at;
    forall i | 0 <= i < n {
      dst[at + i] := src[i];
    }
  }

  /** What a resynchronisation check reports: a token of the wrong size, a wrong MAC-S, or a SQN. */
  datatype AutsCheck = WrongSize | MacFailed(sqn: seq<byte>) | Valid(sqn: seq<byte>)

  /** The outcome of checking `auts` against `rand`, with f1* and f5* of the standard. */
  function CheckAuts(e: Ts.Cipher, opc: Block, auts: seq<byte>, rand: seq<byte>): AutsCheck {
    if |auts| != 14 || |rand| != 16 then WrongSize
    else
      var sqn := Xor(Ts.F5Star(e, opc, rand), auts[..6]);
      if Ts.F1Star(e, opc, rand, sqn, [0, 0]) == auts[6..] then Valid(sqn) else MacFailed(sqn)
  }

  /** The calls that may change the challenge, with their inputs. */
  datatype Call = Refresh(delivered: seq<byte>) | SetRand(r: seq<byte>) | ValidateAuts(auts: seq<byte>, rand: seq<byte>)

  /** The challenge after a call: wrong sizes leave it, a short delivery replaces its front. */
  function AfterCall(rand: Block, c: Call): Block {
    match c
    case Refresh(d) => if |d| >= 16 then d[..16] else d + rand[|d|..]
    case SetRand(r) => if |r| == 16 then r else rand
    case ValidateAuts(auts, r) => if |auts| == 14 && |r| == 16 then r else rand
  }

  function AfterCalls(rand: Block, calls: seq<Call>): Block {
    if calls == [] then rand else AfterCall(AfterCalls(rand, calls[..|calls| - 1]), calls[|calls| - 1])
  }

  /** A call that sets a whole challenge, and which one. */
  function Sets(c: Call): Option<Block> {
    match c
    case Refresh(d) => if |d| >= 16 then Some(d[..16]) else None
    case SetRand(r) => if |r| == 16 then Some(r) else None
    case ValidateAuts(auts, r) => if |auts| == 14 && |r| == 16 then Some(r) else None
  }

  /** Over any calls, the challenge is the last one set whole, if only calls of the wrong size follow. */
  lemma {:induction false} LastChallenge(rand: Block, calls: seq<Call>, i: nat)
    requires i < |calls| && Sets(calls[i]).Some?
    requires forall j :: i < j < |calls| ==> Sets(calls[j]).None? && !calls[j].Refresh?
    ensures AfterCalls(rand, calls) == Sets(calls[i]).value
  {
    var n := |calls| - 1;
    if i < n {
      LastChallenge(rand, calls[..n], i);
      assert Sets(calls[n]).None?;
    }
  }

  /** Where the scatter puts input octet i. */
  function Shifted(i: nat, rot: nat): (j: nat)
    requires i < 16 && rot < 16
    ensures j == if i + rot < 16 then i + rot else i + rot - 16
  {
    (i + rot) % 16
  }

  /** The first n octets of src have been scattered into dst, masked where they land. */
  ghost predicate Scattered(dst: Block, src: Block, mask: Block, rot: nat, n: nat)
    requires n <= 16 && rot < 16
  {
    forall i :: 0 <= i < n ==> dst[Shifted(i, rot)] == src[i] ^ mask[Shifted(i, rot)]
  }

  /** Each output octet is written once: the write for octet n leaves the earlier ones alone. */
  lemma ScatterStep(dst: Block, src: Block, mask: Block, rot: nat, n: nat)
    requires n < 16 && rot < 16 && Scattered(dst, src, mask, rot, n)
    ensures var j := Shifted(n, rot); Scattered(dst[j := src[n] ^ mask[j]], src, mask, rot, n + 1)
  {
    var j := Shifted(n, rot);
    var dst' := dst[j := src[n] ^ mask[j]];
    forall i | 0 <= i < n + 1 ensures dst'[Shifted(i, rot)] == src[i] ^ mask[Shifted(i, rot)] {
      assert i < n ==> Shifted(i, rot) != j;
    }
  }

  /** A scatter by rot octets to the right is a rotation by this many octets to the left. */
  function LeftOctets(rot: nat): nat
    requires rot < 16
  {
    if rot == 0 then 0 else 16 - rot
  }

  lemma ScatterLands(dst: Block, src: Block, mask: Block, rot: nat, m: nat, j: nat)
    requires rot < 16 && j < 16 && Scattered(dst, src, mask, rot, 16)
    requires m == LeftOctets(rot)
    ensures dst[j] == (src[m..] + src[..m])[j] ^ mask[j]
  {
    var i := if j >= rot then j - rot else j + 16 - rot;
    assert Shifted(i, rot) == j;
    assert (src[m..] + src[..m])[j] == src[i];
  }

  lemma ScatterShifts(dst: Block, src: Block, mask: Block, rot: nat, m: nat)
    requires rot < 16 && Scattered(dst, src, mask, rot, 16)
    requires m == LeftOctets(rot)
    ensures dst == Xor(src[m..] + src[..m], mask)
  {
    forall j | 0 <= j < 16 ensures dst[j] == Xor(src[m..] + src[..m], mask)[j] {
      ScatterLands(dst, src, mask, rot, m, j);
    }
  }

  /** A finished scatter by rot octets is the standard's rotation by that many bits to the left. */
  lemma ScatterRotates(dst: Block, src: Block, mask: Block, rot: nat)
    requires rot < 16 && Scattered(dst, src, mask, rot, 16)
    ensures dst == Xor(Ts.Rot(src, 8 * LeftOctets(rot)), mask)
  {
    var m := LeftOctets(rot);
    ScatterShifts(dst, src, mask, rot, m);
    Ts.RotateOctets(src, m);
  }

  lemma MaskOrder(r: byte, t: byte)
    ensures r ^ t == (t ^ r) ^ 0
  {
  }

  /** The input of the block cipher in f1, as the standard orders its masks. */
  lemma ScatterForF1(dst: Block, src: Block, temp: Block)
    requires Scattered(dst, src, temp, 8, 16)
    ensures dst == Xor(Xor(temp, Ts.Rot(src, Ts.R1)), Ts.C1)
  {
    ScatterRotates(dst, src, temp, 8);
    var rotated := Ts.Rot(src, Ts.R1);
    assert dst == Xor(rotated, temp);
    forall j | 0 <= j < 16 ensures dst[j] == Xor(Xor(temp, rotated), Ts.C1)[j] {
      MaskOrder(rotated[j], temp[j]);
    }
  }

  /** A delivery overwrites as many octets as it has, from the front; octet by octet. */
  lemma RefreshOctets(rand: Block, delivered: seq<byte>, i: nat)
    requires i < 16
    ensures AfterCall(rand, Refresh(delivered))[i] == if i < |delivered| then delivered[i] else rand[i]
  {
  }

  /**
    A token of the right size is accepted with a SQN exactly when it conceals that SQN under f5* and
    carries f1* of it over the dummy AMF; any other is refused.
   */
  lemma AutsExactly(e: Ts.Cipher, opc: Block, auts: seq<byte>, rand: Block, sqn: seq<byte>)
    requires |auts| == 14 && |sqn| == 6
    ensures CheckAuts(e, opc, auts, rand) == AutsCheck.Valid(sqn) <==>
              auts == Xor(sqn, Ts.F5Star(e, opc, rand)) + Ts.F1Star(e, opc, rand, sqn, [0, 0])
    ensures CheckAuts(e, opc, auts, rand).WrongSize? == false
  {
    var ak := Ts.F5Star(e, opc, rand);
    XorCancel(sqn, ak);
    XorCancel(auts[..6], ak);
    XorSwap(ak, auts[..6]);
    var token := Xor(sqn, ak) + Ts.F1Star(e, opc, rand, sqn, [0, 0]);
    assert token[..6] == Xor(sqn, ak) && token[6..] == Ts.F1Star(e, opc, rand, sqn, [0, 0]);
    assert auts == auts[..6] + auts[6..];
  }

  lemma XorSwap(a: seq<byte>, b: seq<byte>)
    requires |a| == |b|
    ensures Xor(a, b) == Xor(b, a)
  {
  }

  class Milenage {
    const block: Ts.Cipher
    const opc: array<byte>
    const randxor: array<byte>
    const rand: array<byte>

    ghost predicate Shape() {
      opc.Length == 16 && randxor.Length == 16 && rand.Length == 16 &&
      opc != randxor && opc != rand && randxor != rand
    }

    /** randxor caches E(rand XOR opc). */
    ghost predicate Valid()
      reads opc, randxor, rand
    {
      Shape() && randxor[..] == Ts.Temp(block, opc[..], rand[..])
    }

    constructor Allocate(block: Ts.Cipher)
      ensures Shape() && this.block == block
      ensures fresh(opc) && fresh(randxor) && fresh(rand)
    {
      this.block := block;
      opc := new byte[16];
      randxor := new byte[16];
      rand := new byte[16];
    }

    /** The operator value is encrypted into OPc unless OPc itself was configured. */
    static method NewMilenageEx(
        aes: Block -> Ts.Cipher, k: seq<byte>, delivered: seq<byte>, opopc: seq<byte>, isopc: bool)
      returns (m: Milenage?)
      ensures m == null <==> |k| != 16 || |opopc| != 16
      ensures m != null ==> fresh(m) && fresh(m.opc) && fresh(m.randxor) && fresh(m.rand)
      ensures m != null ==> m.Valid() && m.block == aes(k)
      ensures m != null ==> m.opc[..] == if isopc then opopc else Xor(aes(k)(opopc), opopc)
    {
      if |k| != 16 || |opopc| != 16 {
        return null;
      }
      m := new Milenage.Allocate(aes(k));
      if !isopc {
        Copy(m.opc, 0, m.block(opopc));
        for i := 0 to 16
          invariant m.Shape()
          invariant forall j :: 0 <= j < 16 ==>
                      m.opc[j] == if j < i then aes(k)(opopc)[j] ^ opopc[j] else aes(k)(opopc)[j]
        {
          m.opc[i] := m.opc[i] ^ opopc[i];
        }
      } else {
        Copy(m.opc, 0, opopc);
      }
      m.Refresh(delivered);
    }

    /** The random source may deliver fewer than 16 octets; the rest of the old challenge stays. */
    method Refresh(delivered: seq<byte>)
      requires Shape()
      modifies randxor, rand
      ensures Valid() && rand[..] == AfterCall(old(rand[..]), Call.Refresh(delivered))
    {
      Copy(rand, 0, delivered);
      MaskChallenge();
    }

    method SetRand(r: seq<byte>) returns (err: bool)
      requires Shape()
      modifies randxor, rand
      ensures err <==> |r| != 16
      ensures rand[..] == AfterCall(old(rand[..]), Call.SetRand(r))
      ensures err ==> randxor[..] == old(randxor[..])
      ensures !err || old(Valid()) ==> Valid()
    {
      if |r| != 16 {
        return true;
      }
      Copy(rand, 0, r);
      MaskChallenge();
      return false;
    }

    /** randxor := E(rand XOR opc), shared by Refresh and SetRand. */
    method MaskChallenge()
      requires Shape()
      modifies randxor
      ensures Valid()
    {
      var tmp := new byte[16];
      for i := 0 to 16
        invariant forall j :: 0 <= j < i ==> tmp[j] == rand[j] ^ opc[j]
      {
        tmp[i] := rand[i] ^ opc[i];
      }
      assert tmp[..] == Xor(rand[..], opc[..]);
      Copy(randxor, 0, block(tmp[..]));
    }

    /** IN1 of the standard: the sequence number and the AMF, twice over. */
    method FillIn1(b: array<byte>, sqn: seq<byte>, amf: seq<byte>)
      requires b.Length == 16 && |sqn| == 6 && |amf| == 2
      modifies b
      ensures b[..] == Ts.In1(sqn, amf)
    {
      Copy(b, 0, sqn);
      Copy(b, 6, amf);
      Copy(b, 8, b[..8]);
    }

    method F1(sqn: seq<byte>, amf: seq<byte>) returns (maca: seq<byte>, macs: seq<byte>, err: bool)
      requires Valid()
      ensures err <==> |sqn| != 6 || |amf| != 2
      ensures err ==> maca == [] && macs == []
      ensures !err ==> maca == Ts.F1(block, opc[..], rand[..], sqn, amf)
      ensures !err ==> macs == Ts.F1Star(block, opc[..], rand[..], sqn, amf)
    {
      if |sqn| != 6 || |amf| != 2 {
        return [], [], true;
      }
      var b := new byte[16](i => 0);
      FillIn1(b, sqn, amf);
      var c := ScatterIn1(b[..]);
      var a := EncryptAndMask(c);
      maca, macs, err := a[..8], a[8..], false;
    }

    /** The masking and scattering loop of f1. */
    method ScatterIn1(b: Block) returns (out: Block)
      requires Valid()
      ensures out == Xor(Xor(randxor[..], Ts.Rot(Xor(b, opc[..]), Ts.R1)), Ts.C1)
    {
      var c := new byte[16](i => 0);
      ghost var src := Xor(b, opc[..]);
      for i := 0 to 16
        invariant Scattered(c[..], src, randxor[..], 8, i)
      {
        ScatterStep(c[..], src, randxor[..], 8, i);
        var j := (i + 8) % 16;
        c[j] := b[i] ^ opc[i] ^ randxor[j];
      }
      ScatterForF1(c[..], src, randxor[..]);
      out := c[..];
    }

    /** The masking loop that ends f1 and the other functions. */
    method XorInto(a: array<byte>)
      requires Shape() && a.Length == 16 && a != opc
      modifies a
      ensures a[..] == Xor(old(a[..]), opc[..])
    {
      ghost var was := a[..];
      for i := 0 to 16
        invariant forall j :: 0 <= j < i ==> a[j] == was[j] ^ opc[j]
        invariant a[i..] == was[i..]
      {
        assert a[i] == was[i];
        a[i] := a[i] ^ opc[i];
      }
    }

    /** One encryption, masked with OPc. */
    method EncryptAndMask(c: Block) returns (out: Block)
      requires Shape()
      ensures out == Xor(block(c), opc[..])
    {
      var a := new byte[16](i => 0);
      var encrypted := block(c);
      Copy(a, 0, encrypted);
      assert a[..] == encrypted;
      XorInto(a);
      out := a[..];
    }

    /** f2 to f5*: rotate by scattering, encrypt, and mask with OPc. */
    method Operation(rot: nat, v: byte) returns (b: Block)
      requires Valid() && rot < 16
      ensures b == Ts.OutN(block, opc[..], Ts.Temp(block, opc[..], rand[..]), 8 * LeftOctets(rot), Zeros(15) + [v])
    {
      var a, c := new byte[16](i => 0), new byte[16](i => 0);
      c[15] := v;
      assert c[..] == Zeros(15) + [v];
      ghost var src := Xor(randxor[..], opc[..]);
      for i := 0 to 16
        invariant c[..] == Zeros(15) + [v]
        invariant Scattered(a[..], src, c[..], rot, i)
      {
        ScatterStep(a[..], src, c[..], rot, i);
        var j := (i + rot) % 16;
        a[j] := randxor[i] ^ opc[i] ^ c[j];
      }
      ScatterRotates(a[..], src, c[..], rot);
      b := EncryptAndMask(a[..]);
    }

    method F2F5() returns (res: seq<byte>, ak: seq<byte>)
      requires Valid()
      ensures res == Ts.F2(block, opc[..], rand[..]) && ak == Ts.F5(block, opc[..], rand[..])
    {
      var tmp := Operation(0, 1);
      Ts.ConstantsInLastOctet();
      res, ak := tmp[8..16], tmp[..6];
    }

    method F3() returns (ck: seq<byte>)
      requires Valid()
      ensures ck == Ts.F3(block, opc[..], rand[..])
    {
      ck := Operation(12, 2);
      Ts.ConstantsInLastOctet();
    }

    method F4() returns (ik: seq<byte>)
      requires Valid()
      ensures ik == Ts.F4(block, opc[..], rand[..])
    {
      ik := Operation(8, 4);
      Ts.ConstantsInLastOctet();
    }

    method F5star() returns (akstar: seq<byte>)
      requires Valid()
      ensures akstar == Ts.F5Star(block, opc[..], rand[..])
    {
      var tmp := Operation(4, 8);
      Ts.ConstantsInLastOctet();
      akstar := tmp[..6];
    }

    /** The challenge of a token of the right size stays set, whether or not its MAC-S is right. */
    method ValidateAuts(auts: seq<byte>, randv: seq<byte>) returns (sqn: seq<byte>, check: AutsCheck)
      requires Valid()
      modifies randxor, rand
      ensures Valid()
      ensures check == CheckAuts(block, opc[..], auts, randv)
      ensures sqn == if check.WrongSize? then Zeros(6) else check.sqn
      ensures rand[..] == AfterCall(old(rand[..]), Call.ValidateAuts(auts, randv))
    {
      sqn := Zeros(6);
      if |auts| != 14 || |randv| != 16 {
        return sqn, WrongSize;
      }
      var _ := SetRand(randv);
      var akR := F5star();
      for i := 0 to 6
        invariant Valid() && rand[..] == randv
        invariant |sqn| == 6 && forall j :: 0 <= j < i ==> sqn[j] == akR[j] ^ auts[j]
      {
        sqn := sqn[i := akR[i] ^ auts[i]];
      }
      assert sqn == Xor(akR, auts[..6]);
      var _, macs, _ := F1(sqn, [0, 0]);
      check := if macs != auts[6..] then MacFailed(sqn) else AutsCheck.Valid(sqn);
    }
  }
}
