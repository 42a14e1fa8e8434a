/** Bytes, the numbers they spell lowest byte first, and C strings. */
module Bytes {

  type Byte = n: int | 0 <= n < 256

  /** Text as the codecs produce it, as stored bytes. */
  function Stored(text: seq<bv8>): (b: seq<Byte>)
    ensures |b| == |text|
  {
    if text == [] then [] else [Octet(text[0])] + Stored(text[1..])
  }

  function Octet(c: bv8): (n: Byte) {
    c as int
  }

  lemma OctetInjective(c: bv8, d: bv8)
    requires Octet(c) == Octet(d)
    ensures c == d
  {
    assert (c as int) as bv8 == c && (d as int) as bv8 == d;
  }

  lemma {:induction false} StoredInjective(a: seq<bv8>, b: seq<bv8>)
    requires Stored(a) == Stored(b)
    ensures a == b
  {
    hide Octet;
    if a != [] {
      assert Stored(a)[1..] == Stored(a[1..]) && Stored(b)[1..] == Stored(b[1..]);
      OctetInjective(a[0], b[0]);
      StoredInjective(a[1..], b[1..]);
      assert a == [a[0]] + a[1..] && b == [b[0]] + b[1..];
    }
  }

  lemma {:induction false} StoredNoNul(text: seq<bv8>)
    requires 0 !in text
    ensures 0 !in Stored(text)
  {
    if text != [] {
      ZeroOctet();
      if Octet(text[0]) == 0 {
        OctetInjective(text[0], 0);
      }
      StoredNoNul(text[1..]);
    }
  }

  lemma ZeroOctet()
    ensures Octet(0) == 0
  {
  }

  function Pow256(w: nat): (p: nat)
    ensures p > 0
  {
    if w == 0 then 1 else 256 * Pow256(w - 1)
  }

  /** The number whose bytes, lowest first, are `b`. */
  function LittleEndian(b: seq<Byte>): nat {
    if b == [] then 0 else b[0] + 256 * LittleEndian(b[1..])
  }

  /** The `w` low bytes of a number, lowest first. */
  function LowBytes(n: nat, w: nat): (b: seq<Byte>)
    ensures |b| == w
  {
    if w == 0 then [] else [n % 256] + LowBytes(n / 256, w - 1)
  }

  lemma {:induction false} LittleEndianBound(b: seq<Byte>)
    ensures LittleEndian(b) < Pow256(|b|)
  {
    if b != [] {
      LittleEndianBound(b[1..]);
    }
  }

  lemma {:induction false} LittleEndianPush(b: seq<Byte>, x: Byte)
    ensures LittleEndian(b + [x]) == LittleEndian(b) + x * Pow256(|b|)
  {
    if b == [] {
      assert b + [x] == [x];
    } else {
      assert (b + [x])[1..] == b[1..] + [x];
      LittleEndianPush(b[1..], x);
      Scale(x, Pow256(|b| - 1));
    }
  }

  lemma Scale(x: nat, p: nat)
    ensures x * (256 * p) == 256 * (x * p)
  {
  }

  /** Reading the low bytes gives the number modulo their range. */
  lemma {:induction false} LittleEndianOfLowBytes(n: nat, w: nat)
    ensures LittleEndian(LowBytes(n, w)) == n % Pow256(w)
  {
    if w > 0 {
      LittleEndianOfLowBytes(n / 256, w - 1);
      ModSplit(n, Pow256(w - 1));
    }
  }

  lemma ModSplit(n: nat, p: nat)
    requires p > 0
    ensures n % (256 * p) == n % 256 + 256 * (n / 256 % p)
  {
    var q, r := n / 256, n % 256;
    var a, c := q / p, q % p;
    var d := r + 256 * c;
    assert q == p * a + c;
    assert n == (256 * p) * a + d by {
      assert n == 256 * (p * a + c) + r;
      assert 256 * (p * a) == (256 * p) * a;
    }
    assert d < 256 * p by {
      assert c <= p - 1;
    }
    ModUnique(n, 256 * p, a, d);
  }

  lemma ModUnique(n: nat, m: nat, a: nat, d: nat)
    requires m > 0 && n == m * a + d && d < m
    ensures n % m == d
  {
    var a', d' := n / m, n % m;
    assert n == m * a' + d' && d' < m;
    if a < a' {
      Distribute(m, a, a' - a);
    } else if a' < a {
      Distribute(m, a', a - a');
    }
  }

  /** `m` times more is at least `m` more. */
  lemma Distribute(m: nat, a: nat, k: nat)
    requires k >= 1
    ensures m * (a + k) >= m * a + m
  {
    assert m * (a + k) == m * a + m * k;
    assert m * k == m + m * (k - 1);
  }

  lemma NoBytes()
    ensures LittleEndian([]) == 0 && LowBytes(0, 0) == []
  {
  }

  lemma LowestByte(b: seq<Byte>, rest: nat)
    requires b != [] && rest == LittleEndian(b[1..])
    ensures LowBytes(LittleEndian(b), |b|) == [b[0]] + LowBytes(rest, |b| - 1)
  {
    var n := b[0] + 256 * rest;
    assert n % 256 == b[0] && n / 256 == rest;
  }

  /** Any bytes are the low bytes of the number they spell. */
  lemma {:induction false} LowBytesOfLittleEndian(b: seq<Byte>)
    ensures LowBytes(LittleEndian(b), |b|) == b
  {
    hide LowBytes, LittleEndian;
    if b == [] {
      NoBytes();
    } else {
      LowBytesOfLittleEndian(b[1..]);
      LowestByte(b, LittleEndian(b[1..]));
      assert b == [b[0]] + b[1..];
    }
  }

  /** Fewer low bytes are a prefix of more. */
  lemma {:induction false} LowBytesPrefix(n: nat, w: nat, k: nat)
    requires k <= w
    ensures LowBytes(n, w)[..k] == LowBytes(n, k)
  {
    if k > 0 {
      LowBytesPrefix(n / 256, w - 1, k - 1);
      assert LowBytes(n, w)[..k] == [LowBytes(n, w)[0]] + LowBytes(n / 256, w - 1)[..k - 1];
    }
  }

  lemma PowValues()
    ensures Pow256(1) == 0x100 && Pow256(2) == 0x1_0000 && Pow256(4) == 0x1_0000_0000
    ensures Pow256(6) == 0x1_0000_0000_0000 && Pow256(8) == 0x1_0000_0000_0000_0000
  {
    assert Pow256(2) == 256 * Pow256(1);
    assert Pow256(4) == 256 * (256 * Pow256(2));
    assert Pow256(6) == 256 * (256 * Pow256(4));
    assert Pow256(8) == 256 * (256 * Pow256(6));
  }

  /** The bytes before the first NUL, and all of them if there is none. */
  function CString(b: seq<Byte>): (s: seq<Byte>)
    ensures s <= b && 0 !in s && (|s| < |b| ==> b[|s|] == 0)
  {
    if b == [] || b[0] == 0 then [] else [b[0]] + CString(b[1..])
  }

  lemma {:induction false} CStringIs(b: seq<Byte>, n: nat)
    requires n <= |b| && 0 !in b[..n] && (n < |b| ==> b[n] == 0)
    ensures CString(b) == b[..n]
  {
    if n > 0 {
      assert b[..n][0] == b[0] && b[1..][..n - 1] == b[..n][1..];
      CStringIs(b[1..], n - 1);
    }
  }

  function Zeros(n: nat): (b: seq<Byte>)
    ensures |b| == n && forall k | 0 <= k < n :: b[k] == 0
  {
    seq(n, _ => 0)
  }

  function Shorter(a: nat, b: nat): nat { if a < b then a else b }

  /** `strncpy` of a string into the first `n` bytes of a buffer: cut to `n`, or filled up with zeros. */
  function Strncpy(buffer: seq<Byte>, text: seq<Byte>, n: nat): (b: seq<Byte>)
    requires n <= |buffer|
    ensures |b| == |buffer| && b[n..] == buffer[n..]
  {
    var k := Shorter(|text|, n);
    text[..k] + Zeros(n - k) + buffer[n..]
  }

  /** A string copied with room to spare, or into a buffer that ends in a zero, reads back cut to the room it had. */
  lemma StrncpyReads(buffer: seq<Byte>, text: seq<Byte>, n: nat)
    requires n < |buffer| && 0 !in text
    requires |text| < n || buffer[n] == 0
    ensures CString(Strncpy(buffer, text, n)) == text[..Shorter(|text|, n)]
  {
    var k := Shorter(|text|, n);
    var b := Strncpy(buffer, text, n);
    assert b[..k] == text[..k];
    CStringIs(b, k);
  }
}
