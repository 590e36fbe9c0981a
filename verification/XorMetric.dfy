/**
 The XOR metric on peer IDs (pkg/types/ids.go). A peer ID's hash, 32 bytes from a function that
 this model does not open, stands for the ID.
 */
module XorMetric {
  import opened Common
  import opened Positional

  type Hash = h: seq<int> | |h| == 32 && Numeral(h, 256)
    ghost witness Zeros(32)

  // ---------------------------------------------------------------- exclusive or on numbers

  /** The bits in which x and y differ. */
  function Xor(x: nat, y: nat): nat {
    if x == 0 && y == 0 then 0 else 2 * Xor(x / 2, y / 2) + (if x % 2 != y % 2 then 1 else 0)
  }

  lemma {:induction false} ShlSum(p: nat, m: nat, n: nat)
    ensures Shl(Shl(p, m), n) == Shl(p, m + n)
  {
    if n > 0 { ShlSum(p, m, n - 1); }
  }

  lemma {:induction false} ShlGrows(p: nat, q: nat, n: nat)
    requires p <= q
    ensures Shl(p, n) <= Shl(q, n)
  {
    if n > 0 { ShlGrows(p, q, n - 1); }
  }

  lemma Shl8(p: nat)
    ensures Shl(p, 8) == 256 * p
  {
    assert Shl(p, 1) == 2 * p && Shl(p, 2) == 4 * p && Shl(p, 3) == 8 * p;
    assert Shl(p, 4) == 16 * p && Shl(p, 5) == 32 * p && Shl(p, 6) == 64 * p && Shl(p, 7) == 128 * p;
  }

  lemma {:induction false} XorSymmetric(x: nat, y: nat)
    ensures Xor(x, y) == Xor(y, x)
  {
    if x != 0 || y != 0 { XorSymmetric(x / 2, y / 2); }
  }

  lemma {:induction false} XorZero(x: nat, y: nat)
    ensures Xor(x, y) == 0 <==> x == y
  {
    if x != 0 || y != 0 { XorZero(x / 2, y / 2); }
  }

  lemma {:induction false} XorSum(x: nat, y: nat)
    ensures Xor(x, y) <= x + y
  {
    if x != 0 || y != 0 { XorSum(x / 2, y / 2); }
  }

  lemma {:induction false} XorCancels(x: nat, y: nat, z: nat)
    ensures Xor(Xor(x, y), Xor(y, z)) == Xor(x, z)
  {
    if x != 0 || y != 0 || z != 0 { XorCancels(x / 2, y / 2, z / 2); }
  }

  lemma {:induction false} XorBelow(x: nat, y: nat, n: nat)
    requires x < Pow2(n) && y < Pow2(n)
    ensures Xor(x, y) < Pow2(n)
  {
    if n > 0 { XorBelow(x / 2, y / 2, n - 1); }
  }

  lemma {:induction false} XorParts(p: nat, q: nat, x: nat, y: nat, n: nat)
    requires x < Pow2(n) && y < Pow2(n)
    ensures Xor(Shl(p, n) + x, Shl(q, n) + y) == Shl(Xor(p, q), n) + Xor(x, y)
  {
    if n > 0 {
      XorParts(p, q, x / 2, y / 2, n - 1);
      Halve(p, x, n);
      Halve(q, y, n);
    }
  }

  lemma Halve(p: nat, x: nat, n: nat)
    requires n > 0
    ensures (Shl(p, n) + x) / 2 == Shl(p, n - 1) + x / 2 && (Shl(p, n) + x) % 2 == x % 2
  {
  }

  // ---------------------------------------------------------------- distances

  // Bytewise exclusive or.
  function XorBytes(g: seq<int>, h: seq<int>): (d: seq<int>)
    requires |g| == |h| && Numeral(g, 256) && Numeral(h, 256)
    ensures |d| == |g| && Numeral(d, 256) && forall i :: 0 <= i < |d| ==> d[i] == Xor(g[i], h[i])
  {
    Pow2Byte();
    forall i | 0 <= i < |g| ensures Xor(g[i], h[i]) < 256 { XorBelow(g[i], h[i], 8); }
    seq(|g|, i requires 0 <= i < |g| => Xor(g[i], h[i]))
  }

  /** The distance as a number. */
  function Distance(g: Hash, h: Hash): (d: nat) {
    ValueNat(XorBytes(g, h), 256);
    Value(XorBytes(g, h), 256)
  }

  // The number behind a hash.
  function Number(h: Hash): nat {
    ValueNat(h, 256);
    Value(h, 256)
  }

  lemma {:induction false} XorValue(g: seq<int>, h: seq<int>)
    requires |g| == |h| && Numeral(g, 256) && Numeral(h, 256)
    ensures Value(g, 256) >= 0 && Value(h, 256) >= 0
    ensures Value(XorBytes(g, h), 256) == Xor(Value(g, 256), Value(h, 256))
    decreases |g|
  {
    ValueNat(g, 256);
    ValueNat(h, 256);
    if g != [] {
      var n := |g| - 1;
      ValueNat(g[..n], 256);
      ValueNat(h[..n], 256);
      XorValue(g[..n], h[..n]);
      assert XorBytes(g, h)[..n] == XorBytes(g[..n], h[..n]);
      XorParts(Value(g[..n], 256), Value(h[..n], 256), g[n], h[n], 8);
      Pow2Byte();
      Shl8(Value(g[..n], 256));
      Shl8(Value(h[..n], 256));
      Shl8(Xor(Value(g[..n], 256), Value(h[..n], 256)));
    }
  }

  lemma DistanceIsXor(g: Hash, h: Hash)
    ensures Distance(g, h) == Xor(Number(g), Number(h))
  {
    XorValue(g, h);
  }

  lemma {:induction false} SameNumber(g: seq<int>, h: seq<int>)
    requires |g| == |h| && Numeral(g, 256) && Numeral(h, 256) && Value(g, 256) == Value(h, 256)
    ensures g == h
    decreases |g|
  {
    if g != [] {
      var n := |g| - 1;
      ValueNat(g[..n], 256);
      ValueNat(h[..n], 256);
      assert g[n] == Value(g, 256) % 256 && h[n] == Value(h, 256) % 256;
      SameNumber(g[..n], h[..n]);
      assert g == g[..n] + [g[n]] && h == h[..n] + [h[n]];
    }
  }

  /** A metric: zero only between equal hashes, symmetric, and with the triangle inequality. */
  lemma IsMetric(a: Hash, b: Hash, c: Hash)
    ensures Distance(a, b) == 0 <==> a == b
    ensures Distance(a, b) == Distance(b, a)
    ensures Distance(a, c) <= Distance(a, b) + Distance(b, c)
  {
    DistanceIsXor(a, b);
    DistanceIsXor(b, a);
    DistanceIsXor(b, c);
    DistanceIsXor(a, c);
    XorSymmetric(Number(a), Number(b));
    XorZero(Number(a), Number(b));
    if Distance(a, b) == 0 { SameNumber(a, b); }
    XorCancels(Number(a), Number(b), Number(c));
    XorSum(Distance(a, b), Distance(b, c));
  }

  /** From a given peer, no two hashes are equally far. */
  lemma Unidirectional(h: Hash, a: Hash, b: Hash)
    ensures Distance(h, a) == Distance(h, b) <==> a == b
  {
    DistanceIsXor(h, a);
    DistanceIsXor(a, h);
    DistanceIsXor(h, b);
    IsMetric(a, h, b);
    IsMetric(a, b, h);
    XorCancels(Number(a), Number(h), Number(b));
    DistanceIsXor(a, b);
    XorZero(Distance(h, a), Distance(h, b));
  }

  // ---------------------------------------------------------------- the methods

  method XOR(g: Hash, h: Hash) returns (result: Hash)
    ensures result == XorBytes(g, h)
  {
    Pow2Byte();
    result := Zeros(32);
    for i := 0 to 32
      invariant |result| == 32 && result[..i] == XorBytes(g, h)[..i] && result[i..] == Zeros(32)[i..]
    {
      XorBelow(g[i], h[i], 8);
      result := result[i := Xor(g[i], h[i])];
    }
  }

  function Sign(x: int): int { if x < 0 then -1 else if x > 0 then 1 else 0 }

  // Numerals that agree before position i compare as their digits at i do.
  lemma {:induction false} Lexicographic(d: seq<int>, e: seq<int>, i: nat, base: int)
    requires |d| == |e| && Numeral(d, base) && Numeral(e, base) && base >= 2
    requires i < |d| && d[..i] == e[..i] && d[i] < e[i]
    ensures Value(d, base) < Value(e, base)
    decreases |d|
  {
    var n := |d| - 1;
    if i < n {
      assert d[..n][..i] == d[..i] && e[..n][..i] == e[..i];
      Lexicographic(d[..n], e[..n], i, base);
      Scaled(Value(d[..n], base), Value(e[..n], base), base);
    }
  }

  lemma Scaled(x: int, y: int, base: int)
    requires x < y && base > 0
    ensures x * base + base <= y * base
  {
    var gap := y - x - 1;
    assert gap * base >= 0;
    assert y * base == x * base + base + gap * base;
  }

  /** The scan of DistanceCmp compares the distances as 256-bit numbers. */
  method DistanceCmp(id: Hash, a: Hash, b: Hash) returns (r: int)
    ensures r == Sign(Distance(id, a) - Distance(id, b))
  {
    var da := XOR(id, a);
    var db := XOR(id, b);
    for i := 0 to 32
      invariant da[..i] == db[..i]
    {
      if da[i] < db[i] {
        Lexicographic(da, db, i, 256);
        return -1;
      }
      if da[i] > db[i] {
        Lexicographic(db, da, i, 256);
        return 1;
      }
    }
    assert da[..32] == da && db[..32] == db;
    return 0;
  }

  /** A total preorder on peers for every fixed id, ties being equal hashes only. */
  lemma CmpOrder(id: Hash, a: Hash, b: Hash, c: Hash)
    ensures Sign(Distance(id, a) - Distance(id, b)) == -Sign(Distance(id, b) - Distance(id, a))
    ensures Sign(Distance(id, a) - Distance(id, b)) == 0 <==> a == b
    ensures Sign(Distance(id, a) - Distance(id, b)) <= 0 && Sign(Distance(id, b) - Distance(id, c)) <= 0 ==>
              Sign(Distance(id, a) - Distance(id, c)) <= 0
  {
    Unidirectional(id, a, b);
  }

  // ---------------------------------------------------------------- common prefixes

  /** n leading bits of a 256-bit number are zero, and the next one, if any, is not. */
  predicate LeadingZeroBits(d: nat, n: nat) { n <= 256 && d < Pow2(256 - n) && (n < 256 ==> d >= Pow2(255 - n)) }

  lemma {:induction false} Pow2Grows(m: nat, n: nat)
    requires m <= n
    ensures Pow2(m) <= Pow2(n)
  {
    if m < n { Pow2Grows(m, n - 1); }
  }

  lemma Pow2Byte()
    ensures Pow2(0) == 1 && Pow2(1) == 2 && Pow2(2) == 4 && Pow2(3) == 8
    ensures Pow2(4) == 16 && Pow2(5) == 32 && Pow2(6) == 64 && Pow2(7) == 128 && Pow2(8) == 256
  {
  }

  // A numeral that starts with i zero bytes and then a nonzero one.
  lemma {:induction false} ValueFrom(d: seq<int>, i: nat)
    requires Numeral(d, 256) && i < |d| && d[..i] == Zeros(i)
    ensures Shl(d[i], 8 * (|d| - 1 - i)) <= Value(d, 256) < Shl(d[i] + 1, 8 * (|d| - 1 - i))
    decreases |d|
  {
    var n := |d| - 1;
    if i < n {
      assert d[..n][..i] == d[..i];
      ValueFrom(d[..n], i);
      var k := 8 * (n - 1 - i);
      ShlSum(d[i], k, 8);
      ShlSum(d[i] + 1, k, 8);
      Shl8(Shl(d[i], k));
      Shl8(Shl(d[i] + 1, k));
      assert k + 8 == 8 * (n - i);
    } else {
      assert d[..i] == Zeros(i) + [];
      ValueOfPadded(i, [], 256);
    }
  }

  // Bit j of a byte, as (b >> j) & 1.
  function Bit(b: int, j: nat): int
    requires 0 <= b
  {
    (b / Pow2(j)) % 2
  }

  lemma TopBit(b: int, j: nat)
    requires 0 <= b < Pow2(j + 1) && j < 8
    ensures Bit(b, j) == 0 <==> b < Pow2(j)
  {
    Pow2Byte();
  }

  method CommonPrefixLen(g: Hash, h: Hash) returns (n: nat)
    ensures LeadingZeroBits(Distance(g, h), n)
  {
    var d := XOR(g, h);
    for i := 0 to 32
      invariant d[..i] == Zeros(i)
    {
      var j := 7;
      Pow2Byte();
      while j >= 0
        invariant -1 <= j <= 7 && 0 <= d[i] < Pow2(j + 1)
      {
        TopBit(d[i], j);
        if Bit(d[i], j) != 0 {
          FirstBit(d, i, j);
          return i * 8 + (7 - j);
        }
        j := j - 1;
      }
      assert d[..i + 1] == d[..i] + [0];
    }
    assert d == Zeros(32) + [];
    ValueOfPadded(32, [], 256);
    return 256;
  }

  lemma FirstBit(d: Hash, i: nat, j: nat)
    requires i < 32 && j < 8 && d[..i] == Zeros(i) && Pow2(j) <= d[i] < Pow2(j + 1)
    ensures Value(d, 256) >= 0 && LeadingZeroBits(Value(d, 256), i * 8 + (7 - j))
  {
    ValueNat(d, 256);
    var k := 8 * (31 - i);
    ValueFrom(d, i);
    ShlGrows(Pow2(j), d[i], k);
    ShlGrows(d[i] + 1, Pow2(j + 1), k);
    ShlSum(1, j, k);
    ShlSum(1, j + 1, k);
    assert 255 - (i * 8 + (7 - j)) == j + k;
  }

  // A number below 2^(256 - m) has at least m leading zero bits.
  lemma AtLeast(d: nat, n: nat, m: nat)
    requires LeadingZeroBits(d, n) && m <= 256 && d < Pow2(256 - m)
    ensures n >= m
  {
    if n < m { Pow2Grows(256 - m, 255 - n); }
  }

  /** The number of leading zero bits is unique. */
  lemma OnePrefixLength(d: nat, m: nat, n: nat)
    requires LeadingZeroBits(d, m) && LeadingZeroBits(d, n)
    ensures m == n
  {
    AtLeast(d, m, n);
    AtLeast(d, n, m);
  }

  /** Common prefixes are an ultrametric: two prefixes shared with b are shared with each other. */
  lemma PrefixUltrametric(a: Hash, b: Hash, c: Hash, ab: nat, bc: nat, ac: nat)
    requires LeadingZeroBits(Distance(a, b), ab) && LeadingZeroBits(Distance(b, c), bc)
             && LeadingZeroBits(Distance(a, c), ac)
    ensures ac >= if ab < bc then ab else bc
  {
    var n := if ab < bc then ab else bc;
    Pow2Grows(256 - ab, 256 - n);
    Pow2Grows(256 - bc, 256 - n);
    DistanceIsXor(a, b);
    DistanceIsXor(b, c);
    DistanceIsXor(a, c);
    XorCancels(Number(a), Number(b), Number(c));
    XorBelow(Distance(a, b), Distance(b, c), 256 - n);
    AtLeast(Distance(a, c), ac, n);
  }

  /** A longer common prefix means strictly closer. */
  lemma LongerPrefixIsCloser(id: Hash, a: Hash, b: Hash, m: nat, n: nat)
    requires LeadingZeroBits(Distance(id, a), m) && LeadingZeroBits(Distance(id, b), n) && m > n
    ensures Distance(id, a) < Distance(id, b)
  {
    Pow2Grows(256 - m, 255 - n);
  }

  /** The full length is reached exactly by equal hashes. */
  lemma FullPrefix(g: Hash, h: Hash, n: nat)
    requires LeadingZeroBits(Distance(g, h), n)
    ensures n == 256 <==> g == h
  {
    IsMetric(g, h, h);
    Pow2Byte();
    if n < 256 { Pow2Grows(0, 255 - n); }
  }
}
