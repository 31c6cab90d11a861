/** Octet strings: XOR and big-endian numbers, shared by the security modules. */
module Bytes {

  datatype Option<+T> = None | Some(value: T)

  type byte = bv8

  type Block = b: seq<byte> | |b| == 16 witness seq(16, i => 0)

  function Zeros(n: nat): (r: seq<byte>)
    ensures |r| == n && forall i :: 0 <= i < n ==> r[i] == 0
  {
    seq(n, i => 0)
  }

  function Xor(a: seq<byte>, b: seq<byte>): (r: seq<byte>)
    requires |a| == |b|
    ensures |r| == |a| && forall i :: 0 <= i < |a| ==> r[i] == a[i] ^ b[i]
  {
    seq(|a|, i requires 0 <= i < |a| => a[i] ^ b[i])
  }

  lemma XorByteCancel(x: byte, y: byte)
    ensures (x ^ y) ^ y == x
  {
  }

  lemma XorCancel(a: seq<byte>, b: seq<byte>)
    requires |a| == |b|
    ensures Xor(Xor(a, b), b) == a
  {
    forall i | 0 <= i < |a| ensures Xor(Xor(a, b), b)[i] == a[i] {
      XorByteCancel(a[i], b[i]);
    }
  }

  function Value(b: byte): (n: nat)
    ensures n < 256
  {
    b as nat
  }

  function ToByte(n: nat): byte
    requires n < 256
  {
    n as byte
  }

  lemma ByteOfValue(b: byte)
    ensures ToByte(Value(b)) == b
  {
  }

  lemma NextValue(b: byte)
    requires Value(b) < 255
    ensures Value(b + 1) == Value(b) + 1
  {
  }

  /** Counting up from 0 reaches every number below 256. */
  lemma {:induction false} ByteWithValue(n: nat) returns (b: byte)
    requires n < 256
    ensures Value(b) == n
  {
    if n == 0 {
      b := 0;
    } else {
      b := ByteWithValue(n - 1);
      NextValue(b);
      b := b + 1;
    }
  }

  lemma ValueOfByte(n: nat)
    requires n < 256
    ensures Value(ToByte(n)) == n
  {
    var b := ByteWithValue(n);
    ByteOfValue(b);
  }

  /** The number written by an octet string, most significant octet first. */
  function BeNat(s: seq<byte>): nat {
    if s == [] then 0 else BeNat(s[..|s| - 1]) * 256 + Value(s[|s| - 1])
  }

  /** The low `len` octets of n, most significant octet first. */
  function BigEndian(n: nat, len: nat): (s: seq<byte>)
    ensures |s| == len
  {
    if len == 0 then [] else BigEndian(n / 256, len - 1) + [ToByte(n % 256)]
  }

  function Pow256(n: nat): (p: nat)
    ensures p > 0
  {
    if n == 0 then 1 else 256 * Pow256(n - 1)
  }

  lemma {:induction false} BeNatBound(s: seq<byte>)
    ensures BeNat(s) < Pow256(|s|)
  {
    if s != [] {
      BeNatBound(s[..|s| - 1]);
    }
  }

  /** Decoding an encoding gives the number back, reduced to the width used. */
  lemma {:induction false} DecodeEncode(n: nat, len: nat)
    ensures BeNat(BigEndian(n, len)) == n % Pow256(len)
  {
    if len > 0 {
      DecodeEncode(n / 256, len - 1);
      var s := BigEndian(n, len);
      assert s[..len - 1] == BigEndian(n / 256, len - 1);
      ValueOfByte(n % 256);
      ModStep(n, Pow256(len - 1));
    }
  }

  lemma ModStep(n: nat, p: nat)
    requires p > 0
    ensures (n / 256 % p) * 256 + n % 256 == n % (256 * p)
  {
    var q, r := n / 256 / p, n / 256 % p;
    assert n / 256 == q * p + r;
    assert n == 256 * (q * p + r) + n % 256;
    assert 256 * (q * p + r) == q * (256 * p) + 256 * r;
    var rest := 256 * r + n % 256;
    assert 0 <= rest < 256 * p;
    DivModUnique(n, 256 * p, q, rest);
  }

  lemma DivModUnique(n: nat, d: nat, q: nat, r: nat)
    requires d > 0 && r < d && n == q * d + r
    ensures n % d == r
  {
    var k := n / d - q;
    assert n == n / d * d + n % d;
    assert k * d == n / d * d - q * d;
    MultiplesAreApart(k, d);
  }

  lemma SmallModulo(n: nat, m: nat)
    requires n < m
    ensures n % m == n
  {
  }

  lemma NextModulo(n: nat, m: nat)
    requires m > 0
    ensures (n + 1) % m == if n % m == m - 1 then 0 else n % m + 1
  {
    var q, r := n / m, n % m;
    assert n == q * m + r;
    if r == m - 1 {
      assert n + 1 == (q + 1) * m + 0;
      DivModUnique(n + 1, m, q + 1, 0);
    } else {
      DivModUnique(n + 1, m, q, r + 1);
    }
  }

  lemma {:induction false} MultiplesAreApart(k: int, d: nat)
    ensures k == 0 || k * d >= d || k * d + d <= 0
    decreases if k < 0 then -k else k
  {
    if k > 1 {
      MultiplesAreApart(k - 1, d);
      assert k * d == (k - 1) * d + d;
    } else if k < -1 {
      MultiplesAreApart(k + 1, d);
      assert k * d == (k + 1) * d - d;
    }
  }

  lemma ValueInjective(b: byte, c: byte)
    requires Value(b) == Value(c)
    ensures b == c
  {
    ByteOfValue(b);
    ByteOfValue(c);
  }

  lemma SplitLast(s: seq<byte>, front: seq<byte>, last: byte)
    requires s != [] && front == s[..|s| - 1] && last == s[|s| - 1]
    ensures s == front + [last] && BeNat(s) == BeNat(front) * 256 + Value(last)
  {
  }

  /** Strings of one length are equal when their numbers are. */
  lemma {:induction false} BeNatInjective(s: seq<byte>, t: seq<byte>)
    requires |s| == |t| && BeNat(s) == BeNat(t)
    ensures s == t
  {
    if s != [] {
      var n := |s| - 1;
      SplitLast(s, s[..n], s[n]);
      SplitLast(t, t[..n], t[n]);
      SameDigits(BeNat(s[..n]), Value(s[n]), BeNat(t[..n]), Value(t[n]));
      BeNatInjective(s[..n], t[..n]);
      ValueInjective(s[n], t[n]);
    }
  }

  lemma SameDigits(x: nat, d: nat, y: nat, e: nat)
    requires d < 256 && e < 256 && x * 256 + d == y * 256 + e
    ensures x == y && d == e
  {
  }

  lemma LastDigitDecides(x: nat, d: nat, y: nat, e: nat)
    requires d < 256 && e < 256
    ensures x * 256 + d < y * 256 + e <==> x < y || (x == y && d < e)
  {
  }

  /** Encoding a decoding gives the octets back. */
  lemma EncodeDecode(s: seq<byte>)
    ensures BigEndian(BeNat(s), |s|) == s
  {
    BeNatBound(s);
    DecodeEncode(BeNat(s), |s|);
    SmallModulo(BeNat(s), Pow256(|s|));
    BeNatInjective(BigEndian(BeNat(s), |s|), s);
  }

  /** The low octets of an encoding are the shorter encoding. */
  lemma {:induction false} EncodeDrop(n: nat, len: nat, k: nat)
    requires k <= len
    ensures BigEndian(n, len)[k..] == BigEndian(n, len - k)
  {
    if k < len {
      EncodeDrop(n / 256, len - 1, k);
      assert BigEndian(n, len)[k..] == BigEndian(n / 256, len - 1)[k..] + [ToByte(n % 256)];
    }
  }

  lemma {:induction false} LeadingZeros(k: nat, s: seq<byte>)
    ensures BeNat(Zeros(k) + s) == BeNat(s)
  {
    var t := Zeros(k) + s;
    if s != [] {
      LeadingZeros(k, s[..|s| - 1]);
      assert t[..|t| - 1] == Zeros(k) + s[..|s| - 1];
    } else if k > 0 {
      LeadingZeros(k - 1, s);
      assert t[..|t| - 1] == Zeros(k - 1) + s;
    }
  }

  /** Lexicographic order: at the first difference, a is the smaller. */
  ghost predicate LexLess(a: seq<byte>, b: seq<byte>)
    requires |a| == |b|
  {
    exists k :: 0 <= k < |a| && a[..k] == b[..k] && Value(a[k]) < Value(b[k])
  }

  lemma LexLessLast(a: seq<byte>, b: seq<byte>)
    requires |a| == |b| > 0
    ensures var n := |a| - 1;
            LexLess(a, b) <==> LexLess(a[..n], b[..n]) || (a[..n] == b[..n] && Value(a[n]) < Value(b[n]))
  {
    var n := |a| - 1;
    if LexLess(a, b) {
      var k :| 0 <= k < |a| && a[..k] == b[..k] && Value(a[k]) < Value(b[k]);
      if k < n {
        assert a[..n][..k] == a[..k] && b[..n][..k] == b[..k];
      }
    }
    if LexLess(a[..n], b[..n]) {
      var k :| 0 <= k < n && a[..n][..k] == b[..n][..k] && Value(a[..n][k]) < Value(b[..n][k]);
      assert a[..k] == a[..n][..k] && b[..k] == b[..n][..k];
    }
  }

  lemma SameNumber(x: seq<byte>, y: seq<byte>)
    requires |x| == |y|
    ensures x == y <==> BeNat(x) == BeNat(y)
  {
    if BeNat(x) == BeNat(y) {
      BeNatInjective(x, y);
    }
  }

  /** On strings of one length, numeric order is lexicographic order. */
  lemma {:induction false} OrderIsLexicographic(a: seq<byte>, b: seq<byte>)
    requires |a| == |b|
    ensures BeNat(a) < BeNat(b) <==> LexLess(a, b)
  {
    if a != [] {
      var n := |a| - 1;
      OrderIsLexicographic(a[..n], b[..n]);
      LexLessLast(a, b);
      SameNumber(a[..n], b[..n]);
      SplitLast(a, a[..n], a[n]);
      SplitLast(b, b[..n], b[n]);
      LastDigitDecides(BeNat(a[..n]), Value(a[n]), BeNat(b[..n]), Value(b[n]));
    }
  }
}
