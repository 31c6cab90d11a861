/** The key derivation function of TS 33.220 Annex B.2.0 and the 5G key chain built on it. */
module Kdf {
  import opened Bytes

  type Digest = d: seq<byte> | |d| == 32 witness seq(32, i => 0)

  /** HMAC-SHA-256 as an arbitrary function of key and message. */
  type Hmac = (seq<byte>, seq<byte>) -> Digest

  const FC_FOR_KAUSF_DERIVATION := "6A"
  const FC_FOR_RES_STAR_XRES_STAR_DERIVATION := "6B"
  const FC_FOR_KSEAF_DERIVATION := "6C"
  const FC_FOR_KAMF_DERIVATION := "6D"

  function HexDigit(c: char): Option<byte> {
    if '0' <= c <= '9' then Some(ToByte((c as int) - ('0' as int)))
    else if 'A' <= c <= 'F' then Some(ToByte((c as int) - ('A' as int) + 10))
    else if 'a' <= c <= 'f' then Some(ToByte((c as int) - ('a' as int) + 10))
    else None
  }

  /** None stands for a decoding error: an odd length or a character that is no digit. */
  function HexDecode(s: string): (r: Option<seq<byte>>)
    ensures r.Some? ==> 2 * |r.value| == |s|
  {
    if s == "" then Some([])
    else if |s| == 1 then None
    else
      match (HexDigit(s[0]), HexDigit(s[1]), HexDecode(s[2..]))
      case (Some(hi), Some(lo), Some(rest)) => Some([hi * 16 + lo] + rest)
      case _ => None
  }

  /** The two octets kdfLen appends: the length in 16 bits. */
  function LenTag(p: seq<byte>): (tag: seq<byte>)
    ensures |tag| == 2
  {
    BigEndian(|p| % 0x1_0000, 2)
  }

  /** P0 || L0 || P1 || L1 || ... */
  function Tagged(params: seq<seq<byte>>): seq<byte> {
    if params == [] then []
    else
      var n := |params| - 1;
      Tagged(params[..n]) + params[n] + LenTag(params[n])
  }

  /** Read parameters back from the end, where each length follows its parameter. */
  function Untag(s: seq<byte>): Option<seq<seq<byte>>>
    decreases |s|
  {
    if s == [] then Some([])
    else if |s| < 2 then None
    else
      var rest := s[..|s| - 2];
      var len := BeNat(s[|s| - 2..]);
      if len > |rest| then None
      else
        match Untag(rest[..|rest| - len])
        case None => None
        case Some(params) => Some(params + [rest[|rest| - len..]])
  }

  ghost predicate LengthsFit(params: seq<seq<byte>>) {
    forall i :: 0 <= i < |params| ==> |params[i]| < 0x1_0000
  }

  lemma LenTagReads(p: seq<byte>)
    requires |p| < 0x1_0000
    ensures BeNat(LenTag(p)) == |p|
  {
    TwoOctets(|p|);
  }

  lemma TwoOctets(n: nat)
    requires n < 0x1_0000
    ensures BeNat(BigEndian(n, 2)) == n
  {
    assert Pow256(1) == 256 && Pow256(2) == 0x1_0000;
    DecodeEncode(n, 2);
    SmallModulo(n, Pow256(2));
  }

  /** Parameters that fit their 16-bit lengths can be read back from the tagged string. */
  lemma {:induction false} UntagTagged(params: seq<seq<byte>>)
    requires LengthsFit(params)
    ensures Untag(Tagged(params)) == Some(params)
  {
    if params != [] {
      var n := |params| - 1;
      var p, front := params[n], Tagged(params[..n]);
      UntagTagged(params[..n]);
      LenTagReads(p);
      var s := Tagged(params);
      assert s[..|s| - 2] == front + p && s[|s| - 2..] == LenTag(p);
      assert (front + p)[..|front|] == front && (front + p)[|front|..] == p;
      assert params == params[..n] + [p];
    }
  }

  lemma TagOfLength(tag: seq<byte>, p: seq<byte>)
    requires |tag| == 2 && |p| == BeNat(tag)
    ensures |p| < 0x1_0000 && LenTag(p) == tag
  {
    assert Pow256(1) == 256 && Pow256(2) == 0x1_0000;
    BeNatBound(tag);
    SmallModulo(|p|, 0x1_0000);
    EncodeDecode(tag);
  }

  /** Whatever can be read as parameters is the tagged string of those parameters, and they fit. */
  lemma {:induction false} TaggedUntag(s: seq<byte>)
    requires Untag(s).Some?
    ensures LengthsFit(Untag(s).value) && Tagged(Untag(s).value) == s
    decreases |s|
  {
    if s != [] {
      var front, p, tag := LastRead(s);
      TaggedUntag(front);
      TagOfLength(tag, p);
      TaggedAppend(Untag(front).value, p);
    }
  }

  lemma LastRead(s: seq<byte>) returns (front: seq<byte>, p: seq<byte>, tag: seq<byte>)
    requires s != [] && Untag(s).Some?
    ensures s == front + p + tag && |tag| == 2 && |p| == BeNat(tag)
    ensures Untag(front).Some? && Untag(s).value == Untag(front).value + [p]
  {
    var rest := s[..|s| - 2];
    tag := s[|s| - 2..];
    var len := BeNat(tag);
    front, p := rest[..|rest| - len], rest[|rest| - len..];
  }

  lemma TaggedAppend(params: seq<seq<byte>>, p: seq<byte>)
    ensures Tagged(params + [p]) == Tagged(params) + p + LenTag(p)
  {
    assert (params + [p])[..|params|] == params;
  }

  /** A parameter list survives tagging and reading back if and only if every length fits in 16 bits. */
  lemma RoundTripExactly(params: seq<seq<byte>>)
    ensures Untag(Tagged(params)) == Some(params) <==> LengthsFit(params)
  {
    if LengthsFit(params) {
      UntagTagged(params);
    }
    if Untag(Tagged(params)) == Some(params) {
      TaggedUntag(Tagged(params));
    }
  }

  /** The string S determines the one-octet FC and the whole parameter list, whatever their number. */
  lemma InputInjective(fc: byte, params: seq<seq<byte>>, fc': byte, params': seq<seq<byte>>)
    requires LengthsFit(params) && LengthsFit(params')
    requires [fc] + Tagged(params) == [fc'] + Tagged(params')
    ensures fc == fc' && params == params'
  {
    var s, s' := [fc] + Tagged(params), [fc'] + Tagged(params');
    assert s[0] == fc && s'[0] == fc' && s[1..] == Tagged(params) && s'[1..] == Tagged(params');
    UntagTagged(params);
    UntagTagged(params');
  }

  function Empties(n: nat): seq<seq<byte>> {
    seq(n, i => [])
  }

  lemma {:induction false} TaggedEmpties(n: nat)
    ensures Tagged(Empties(n)) == Zeros(2 * n)
  {
    if n > 0 {
      TaggedEmpties(n - 1);
      assert Empties(n)[..n - 1] == Empties(n - 1);
      LenTagOfMultiple([]);
    }
  }

  lemma LenTagOfMultiple(p: seq<byte>)
    requires |p| % 0x1_0000 == 0
    ensures LenTag(p) == Zeros(2)
  {
    assert BigEndian(0, 1) == [ToByte(0)];
  }

  /**
    The bound on lengths is needed: one parameter of 65536 zero octets is tagged with length 0 and
    gives the string of 32769 empty parameters.
   */
  lemma LongParameterCollides()
    ensures Tagged([Zeros(0x1_0000)]) == Tagged(Empties(0x8001))
  {
    var p := Zeros(0x1_0000);
    LenTagOfMultiple(p);
    TaggedEmpties(0x8001);
    assert [p][..0] == [];
    assert Tagged([p]) == p + LenTag(p);
  }

  lemma Regroup(a: seq<byte>, b: seq<byte>, c: seq<byte>, d: seq<byte>)
    ensures (a + b) + c + d == a + (b + c + d)
  {
  }

  lemma TaggedNext(params: seq<seq<byte>>, i: nat)
    requires i < |params|
    ensures Tagged(params[..i + 1]) == Tagged(params[..i]) + params[i] + LenTag(params[i])
  {
    assert params[..i + 1][..i] == params[..i];
  }

  method KdfLen(input: seq<byte>) returns (r: seq<byte>)
    ensures |r| == 2 && BeNat(r) == |input| % 0x1_0000
    ensures r == LenTag(input)
  {
    TwoOctets(|input| % 0x1_0000);
    r := BigEndian(|input| % 0x1_0000, 2);
  }

  /** sum is the digest of FC || P0 || L0 || ... under the key; an undecodable FC is an error. */
  method KDF(hmac: Hmac, key: seq<byte>, fc: string, params: seq<seq<byte>>) returns (sum: seq<byte>, err: bool)
    ensures err <==> HexDecode(fc).None?
    ensures sum == if err then [] else hmac(key, HexDecode(fc).value + Tagged(params))
  {
    var decoded := HexDecode(fc);
    if decoded.None? {
      return [], true;
    }
    var s := decoded.value;
    for i := 0 to |params|
      invariant s == decoded.value + Tagged(params[..i])
    {
      var tag := KdfLen(params[i]);
      TaggedNext(params, i);
      Regroup(decoded.value, Tagged(params[..i]), params[i], tag);
      s := s + params[i] + tag;
    }
    assert params[..|params|] == params;
    return hmac(key, s), false;
  }

  // The strings S of TS 33.501 Annex A, written out.

  function SKausf(snn: seq<byte>, sqnXorAk: seq<byte>): seq<byte> {
    [0x6A] + (snn + LenTag(snn) + sqnXorAk + LenTag(sqnXorAk))
  }

  function SResStar(snn: seq<byte>, rand: seq<byte>, res: seq<byte>): seq<byte> {
    [0x6B] + (snn + LenTag(snn) + rand + LenTag(rand) + res + LenTag(res))
  }

  function SKseaf(snn: seq<byte>): seq<byte> {
    [0x6C] + (snn + LenTag(snn))
  }

  function SKamf(supi: seq<byte>, abba: seq<byte>): seq<byte> {
    [0x6D] + (supi + LenTag(supi) + abba + LenTag(abba))
  }

  lemma FcCodes()
    ensures HexDecode(FC_FOR_KAUSF_DERIVATION) == Some([0x6A])
    ensures HexDecode(FC_FOR_RES_STAR_XRES_STAR_DERIVATION) == Some([0x6B])
    ensures HexDecode(FC_FOR_KSEAF_DERIVATION) == Some([0x6C])
    ensures HexDecode(FC_FOR_KAMF_DERIVATION) == Some([0x6D])
  {
    assert HexDigit('6') == Some(6);
    assert HexDigit('A') == Some(10) && HexDigit('B') == Some(11);
    assert HexDigit('C') == Some(12) && HexDigit('D') == Some(13);
    HexPair('6', 'A');
    HexPair('6', 'B');
    HexPair('6', 'C');
    HexPair('6', 'D');
  }

  lemma HexPair(c: char, d: char)
    requires HexDigit(c).Some? && HexDigit(d).Some?
    ensures HexDecode([c, d]) == Some([HexDigit(c).value * 16 + HexDigit(d).value])
  {
    assert [c, d][2..] == "";
    var octets: seq<byte> := [HexDigit(c).value * 16 + HexDigit(d).value];
    assert octets + [] == octets;
  }

  method SeafKey(hmac: Hmac, key: seq<byte>, p: seq<seq<byte>>) returns (sum: seq<byte>, err: bool)
    ensures !err && sum == hmac(key, [0x6C] + Tagged(p))
  {
    FcCodes();
    sum, err := KDF(hmac, key, FC_FOR_KSEAF_DERIVATION, p);
  }

  method KAMF(hmac: Hmac, kseaf: seq<byte>, supi: seq<byte>, abba: seq<byte>) returns (kamf: seq<byte>, err: bool)
    ensures !err && kamf == hmac(kseaf, SKamf(supi, abba))
  {
    FcCodes();
    TaggedTwo(supi, abba);
    kamf, err := KDF(hmac, kseaf, FC_FOR_KAMF_DERIVATION, [supi, abba]);
  }

  method KAUSF(hmac: Hmac, ckik: seq<byte>, servingNet: seq<byte>, sqnXorAk: seq<byte>)
    returns (kausf: seq<byte>, err: bool)
    ensures !err && kausf == hmac(ckik, SKausf(servingNet, sqnXorAk))
  {
    FcCodes();
    TaggedTwo(servingNet, sqnXorAk);
    kausf, err := KDF(hmac, ckik, FC_FOR_KAUSF_DERIVATION, [servingNet, sqnXorAk]);
  }

  /** The second half of the digest is the 128 least significant bits, RES*. */
  method ResstarXresstar(hmac: Hmac, key: seq<byte>, servingNet: seq<byte>, rand: seq<byte>, res: seq<byte>)
    returns (resstar: seq<byte>, xresstar: seq<byte>, err: bool)
    ensures !err && resstar == hmac(key, SResStar(servingNet, rand, res))[..16]
    ensures xresstar == hmac(key, SResStar(servingNet, rand, res))[16..]
  {
    FcCodes();
    TaggedThree(servingNet, rand, res);
    var buf: seq<byte>;
    buf, err := KDF(hmac, key, FC_FOR_RES_STAR_XRES_STAR_DERIVATION, [servingNet, rand, res]);
    var l := |buf| / 2;
    resstar, xresstar := buf[..l], buf[l..];
  }

  lemma TaggedOne(p: seq<byte>)
    ensures Tagged([p]) == p + LenTag(p)
  {
    assert [p][..0] == [];
  }

  lemma TaggedTwo(p: seq<byte>, q: seq<byte>)
    ensures Tagged([p, q]) == p + LenTag(p) + q + LenTag(q)
  {
    assert [p, q][..1] == [p];
    TaggedOne(p);
  }

  lemma TaggedThree(p: seq<byte>, q: seq<byte>, r: seq<byte>)
    ensures Tagged([p, q, r]) == p + LenTag(p) + q + LenTag(q) + r + LenTag(r)
  {
    assert [p, q, r][..2] == [p, q];
    TaggedTwo(p, q);
  }

  predicate IsHexDigit(c: char) {
    '0' <= c <= '9' || 'A' <= c <= 'F' || 'a' <= c <= 'f'
  }

  predicate AllHexDigits(s: string) {
    forall i :: 0 <= i < |s| ==> IsHexDigit(s[i])
  }

  lemma AllHexSplit(s: string)
    requires |s| >= 2
    ensures AllHexDigits(s) <==> IsHexDigit(s[0]) && IsHexDigit(s[1]) && AllHexDigits(s[2..])
  {
    assert forall i :: 2 <= i < |s| ==> s[i] == s[2..][i - 2];
  }

  lemma HexDigitExactly(c: char)
    ensures HexDigit(c).Some? <==> IsHexDigit(c)
  {
  }

  /** The value of a digit is its distance from 0, A or a, the letters counting from ten. */
  lemma HexDigitValue(c: char)
    requires IsHexDigit(c)
    ensures Value(HexDigit(c).value) ==
              if c <= '9' then (c as int) - ('0' as int)
              else if c <= 'F' then (c as int) - ('A' as int) + 10
              else (c as int) - ('a' as int) + 10
  {
    ValueOfByte(if c <= '9' then (c as int) - ('0' as int)
                else if c <= 'F' then (c as int) - ('A' as int) + 10
                else (c as int) - ('a' as int) + 10);
  }

  lemma HexStep(s: string, c: char, d: char, rest: string)
    requires s == [c, d] + rest
    ensures HexDecode(s).Some? <==> IsHexDigit(c) && IsHexDigit(d) && HexDecode(rest).Some?
  {
    HexDigitExactly(c);
    HexDigitExactly(d);
    assert s[2..] == rest;
  }

  /** A code decodes exactly when it is an even number of hexadecimal digits, to half as many octets. */
  lemma {:induction false} HexDecodesExactly(s: string)
    ensures HexDecode(s).Some? <==> |s| % 2 == 0 && AllHexDigits(s)
  {
    if |s| >= 2 {
      HexDecodesExactly(s[2..]);
      HexStep(s, s[0], s[1], s[2..]);
      AllHexSplit(s);
    }
  }
}
