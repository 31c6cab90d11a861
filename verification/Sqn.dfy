/** The 48-bit sequence number, kept in a 64-bit word. */
module SqnCounter {
  import opened Bytes

  const SQN_MAX: nat := 0xffff_ffff_ffff
  const SQN_IND: nat := 32
  const WORD: nat := 0x1_0000_0000_0000_0000

  /** What Set stores: six octets as a number; shorter input is padded on the right, longer input cut. */
  function SetValue(s: seq<byte>): nat {
    if |s| >= 6 then BeNat(s[..6]) else BeNat(s + Zeros(6 - |s|))
  }

  /** One increment: the value after SQN_MAX is 0. */
  function Next(v: nat): nat {
    if v >= SQN_MAX then 0 else v + 1
  }

  function NextN(v: nat, n: nat): nat {
    if n == 0 then v else Next(NextN(v, n - 1))
  }

  /** What reset stores: SQN_IND above the given number, or 0 when that does not fit. */
  function ResetValue(s: seq<byte>): nat {
    var v := SetValue(s);
    if v + SQN_IND > SQN_MAX then 0 else v + SQN_IND
  }

  lemma Pow256Six()
    ensures Pow256(6) == SQN_MAX + 1 && Pow256(8) == WORD
  {
    assert Pow256(1) == 256 && Pow256(2) == 0x1_0000 && Pow256(3) == 0x100_0000;
    assert Pow256(4) == 0x1_0000_0000 && Pow256(5) == 0x100_0000_0000;
    assert Pow256(7) == 0x100_0000_0000_0000;
  }

  lemma SetValueBound(s: seq<byte>)
    ensures SetValue(s) <= SQN_MAX
  {
    Pow256Six();
    BeNatBound(if |s| >= 6 then s[..6] else s + Zeros(6 - |s|));
  }

  /** Set after Bytes: every 48-bit value survives the round trip. */
  lemma SetOfBytes(v: nat)
    requires v <= SQN_MAX
    ensures SetValue(BigEndian(v, 6)) == BeNat(BigEndian(v, 6)) == v
  {
    Pow256Six();
    var s := BigEndian(v, 6);
    DecodeEncode(v, 6);
    SmallModulo(v, Pow256(6));
    assert s[..6] == s;
  }

  /** Bytes after Set: every 6-octet string survives the round trip. */
  lemma BytesOfSet(s: seq<byte>)
    requires |s| == 6
    ensures BigEndian(SetValue(s), 6) == s
  {
    assert s[..6] == s;
    EncodeDecode(s);
  }

  /** Counters compare as numbers exactly as their encodings compare as strings. */
  lemma OrderOfBytes(v: nat, w: nat)
    requires v <= SQN_MAX && w <= SQN_MAX
    ensures v < w <==> LexLess(BigEndian(v, 6), BigEndian(w, 6))
  {
    SetOfBytes(v);
    SetOfBytes(w);
    OrderIsLexicographic(BigEndian(v, 6), BigEndian(w, 6));
  }

  /** n increments count modulo 2^48. */
  lemma {:induction false} NextNIsModular(v: nat, n: nat)
    requires v <= SQN_MAX
    ensures NextN(v, n) == (v + n) % (SQN_MAX + 1)
  {
    if n > 0 {
      NextNIsModular(v, n - 1);
      NextModulo(v + n - 1, SQN_MAX + 1);
    } else {
      SmallModulo(v, SQN_MAX + 1);
    }
  }

  /** reset agrees with 32 further increments exactly when it does not overflow. */
  lemma ResetVersusIncrements(s: seq<byte>)
    ensures ResetValue(s) == NextN(SetValue(s), SQN_IND) <==> SetValue(s) + SQN_IND <= SQN_MAX + 1
  {
    SetValueBound(s);
    NextNIsModular(SetValue(s), SQN_IND);
  }

  /** Set reads the first six octets as a number; a shorter string is the high part of it. */
  lemma {:induction false} SetOfAny(s: seq<byte>)
    ensures SetValue(s) == if |s| < 6 then BeNat(s) * Pow256(6 - |s|) else BeNat(s[..6])
  {
    if |s| < 6 {
      TrailingZeros(s, 6 - |s|);
    }
  }

  lemma {:induction false} TrailingZeros(s: seq<byte>, k: nat)
    ensures BeNat(s + Zeros(k)) == BeNat(s) * Pow256(k)
  {
    if k == 0 {
      assert s + Zeros(0) == s;
    } else {
      TrailingZeros(s, k - 1);
      var t := s + Zeros(k);
      assert t[..|t| - 1] == s + Zeros(k - 1);
      assert BeNat(t) == BeNat(s + Zeros(k - 1)) * 256 + Value(0);
      Regroup(BeNat(s), Pow256(k - 1));
    }
  }

  lemma Regroup(a: nat, p: nat)
    ensures a * p * 256 == a * (256 * p)
  {
  }

  class Sqn {
    var value: nat

    ghost predicate Valid()
      reads this
    {
      value <= SQN_MAX
    }

    constructor ()
      ensures Valid() && value == 0
    {
      value := 0;
    }

    method Bytes() returns (b: seq<byte>)
      requires Valid()
      ensures b == BigEndian(value, 6) && |b| == 6
    {
      var buf := BigEndian(value, 8);
      EncodeDrop(value, 8, 2);
      b := buf[2..];
    }

    method Inc()
      requires value < WORD
      modifies this
      ensures Valid() && value == Next(old(value))
    {
      value := (value + 1) % WORD;
      if value > SQN_MAX {
        value := 0;
      }
    }

    method Set(sqn: seq<byte>)
      modifies this
      ensures Valid() && value == SetValue(sqn)
    {
      var n := if |sqn| < 6 then |sqn| else 6;
      var buf := Zeros(2) + sqn[..n] + Zeros(6 - n);
      SetValueBound(sqn);
      assert buf == Zeros(2) + (sqn[..n] + Zeros(6 - n));
      assert |sqn| >= 6 ==> sqn[..n] + Zeros(6 - n) == sqn[..6];
      assert |sqn| < 6 ==> sqn[..n] == sqn;
      LeadingZeros(2, sqn[..n] + Zeros(6 - n));
      value := BeNat(buf);
    }

    method Reset(sqn: seq<byte>)
      modifies this
      ensures Valid() && value == ResetValue(sqn)
    {
      Set(sqn);
      value := (value + (SQN_IND - 1)) % WORD;
      Inc();
    }
  }
}
