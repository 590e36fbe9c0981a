/** Notions that several models share. */
module Common {

  predicate Distinct<T(==)>(q: seq<T>) { forall i, j :: 0 <= i < j < |q| ==> q[i] != q[j] }

  function Min(a: int, b: int): int { if a < b then a else b }

  function Max(a: int, b: int): int { if a < b then b else a }

  /** p shifted left by n bits. */
  function Shl(p: nat, n: nat): (s: nat)
    ensures s >= p
  {
    if n == 0 then p else 2 * Shl(p, n - 1)
  }

  function Pow2(n: nat): (p: nat)
    ensures p >= 1
  {
    Shl(1, n)
  }
}
