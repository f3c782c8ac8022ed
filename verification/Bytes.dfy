/** Byte strings as the databases see them: fixed-width big-endian numbers, the
    lexicographic order that a cursor walks in, and prefixes. */
module Bytes {

  type Byte = x: int | 0 <= x < 256
  type ByteString = seq<Byte>

  const U64_LIMIT: int := 0x1_0000_0000_0000_0000
  const MAX_U64: U64 := 0xFFFF_FFFF_FFFF_FFFF
  const U32_LIMIT: int := 0x1_0000_0000

  type U64 = x: int | 0 <= x < U64_LIMIT
  type U32 = x: int | 0 <= x < U32_LIMIT
  type I64 = x: int | -0x8000_0000_0000_0000 <= x < 0x8000_0000_0000_0000

  /** 64-bit addition, wrapping as Go's uint64 does. */
  function Add64(a: U64, b: U64): (r: U64)
    ensures a + b < U64_LIMIT ==> r == a + b
    ensures a + b >= U64_LIMIT ==> r < a && r < b
  {
    if a + b < U64_LIMIT then a + b else a + b - U64_LIMIT
  }

  /** 64-bit subtraction, wrapping as Go's uint64 does. */
  function Sub64(a: U64, b: U64): (r: U64)
    ensures Add64(r, b) == a
  {
    if b <= a then a - b else a - b + U64_LIMIT
  }

  function Max64(a: U64, b: U64): (m: U64)
    ensures m == a || m == b
    ensures a <= m && b <= m
  {
    if a < b then b else a
  }

  function Pow256(n: nat): (p: nat)
    ensures p > 0
  {
    if n == 0 then 1 else 256 * Pow256(n - 1)
  }

  /** The number a big-endian byte string stands for. */
  function FromBE(b: ByteString): (n: nat)
    ensures n < Pow256(|b|)
  {
    if b == [] then 0 else FromBE(b[..|b| - 1]) * 256 + b[|b| - 1]
  }

  /** The `width`-byte big-endian form of a number. */
  function ToBE(n: nat, width: nat): (b: ByteString)
    requires n < Pow256(width)
    ensures |b| == width
    ensures FromBE(b) == n
  {
    if width == 0 then [] else
      var b := ToBE(n / 256, width - 1) + [n % 256];
      assert b[..width - 1] == ToBE(n / 256, width - 1);
      b
  }

  lemma {:induction false} BigEndianRoundTrip(b: ByteString)
    ensures ToBE(FromBE(b), |b|) == b
  {
    if b != [] {
      var init, last := b[..|b| - 1], b[|b| - 1];
      BigEndianRoundTrip(init);
      assert b == init + [last];
      assert FromBE(b) / 256 == FromBE(init) && FromBE(b) % 256 == last;
    }
  }

  lemma BigEndianInjective(a: ByteString, b: ByteString)
    requires |a| == |b| && FromBE(a) == FromBE(b)
    ensures a == b
  {
    BigEndianRoundTrip(a);
    BigEndianRoundTrip(b);
  }

  lemma Pow256At8()
    ensures Pow256(8) == U64_LIMIT
  {
  }

  /** Uint64ToBigEndian */
  function U64ToBE(h: U64): (b: ByteString)
    ensures |b| == 8 && FromBE(b) == h
  {
    Pow256At8();
    ToBE(h, 8)
  }

  /** BigEndianToUint64 on an eight-byte slice */
  function U64FromBE(b: ByteString): (h: U64)
    requires |b| == 8
    ensures U64ToBE(h) == b
  {
    Pow256At8();
    BigEndianRoundTrip(b);
    FromBE(b)
  }

  // ----- lexicographic order (bytes.Compare) -----

  /** `a` comes strictly before `b` in a bucket. */
  predicate Before(a: ByteString, b: ByteString) {
    b != [] && (a == [] || a[0] < b[0] || (a[0] == b[0] && Before(a[1..], b[1..])))
  }

  lemma BeforeIrreflexive(a: ByteString)
    ensures !Before(a, a)
  {
  }

  lemma {:induction false} BeforeTransitive(a: ByteString, b: ByteString, c: ByteString)
    requires Before(a, b) && Before(b, c)
    ensures Before(a, c)
  {
    if a != [] && a[0] == b[0] && b[0] == c[0] {
      BeforeTransitive(a[1..], b[1..], c[1..]);
    }
  }

  lemma {:induction false} BeforeTotal(a: ByteString, b: ByteString)
    ensures Before(a, b) || a == b || Before(b, a)
  {
    if a != [] && b != [] && a[0] == b[0] {
      BeforeTotal(a[1..], b[1..]);
      assert a == [a[0]] + a[1..] && b == [b[0]] + b[1..];
    }
  }

  /** Comparing two equally long strings one byte longer. */
  lemma {:induction false} BeforeSnoc(a: ByteString, b: ByteString, x: Byte, y: Byte)
    requires |a| == |b|
    ensures Before(a + [x], b + [y]) <==> Before(a, b) || (a == b && x < y)
  {
    if a != [] {
      assert (a + [x])[1..] == a[1..] + [x] && (b + [y])[1..] == b[1..] + [y];
      BeforeSnoc(a[1..], b[1..], x, y);
      assert a == [a[0]] + a[1..] && b == [b[0]] + b[1..];
    }
  }

  /** On strings of one width, lexicographic order is numeric order. */
  lemma {:induction false} BigEndianOrder(a: ByteString, b: ByteString)
    requires |a| == |b|
    ensures Before(a, b) <==> FromBE(a) < FromBE(b)
  {
    if a != [] {
      var n := |a| - 1;
      assert a == a[..n] + [a[n]] && b == b[..n] + [b[n]];
      BeforeSnoc(a[..n], b[..n], a[n], b[n]);
      BigEndianOrder(a[..n], b[..n]);
      if FromBE(a[..n]) == FromBE(b[..n]) {
        BigEndianInjective(a[..n], b[..n]);
      }
    }
  }

  lemma {:induction false} BeforeCommonPrefix(p: ByteString, a: ByteString, b: ByteString)
    ensures Before(p + a, p + b) <==> Before(a, b)
  {
    if p == [] {
      assert p + a == a && p + b == b;
    } else {
      assert (p + a)[1..] == p[1..] + a && (p + b)[1..] == p[1..] + b;
      BeforeCommonPrefix(p[1..], a, b);
    }
  }

  /** The strings that start with `p` are contiguous: one that lies between `p` and
      such a string starts with `p` too. */
  lemma {:induction false} PrefixContiguous(p: ByteString, k: ByteString, q: ByteString)
    requires !Before(k, p) && !Before(q, k)
    requires p <= q
    ensures p <= k
  {
    if p != [] {
      PrefixContiguous(p[1..], k[1..], q[1..]);
      assert k == [k[0]] + k[1..] && p == [p[0]] + p[1..];
    }
  }

  lemma {:induction false} PrefixNotBefore(p: ByteString, q: ByteString)
    requires p <= q
    ensures !Before(q, p)
  {
    if p != [] {
      PrefixNotBefore(p[1..], q[1..]);
    }
  }
}
