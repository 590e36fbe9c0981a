/** Numerals in a positional system: their value, the shortest one for a number, and conversion. */
module Positional {
  ghost predicate Numeral(ds: seq<int>, base: int) { forall i :: 0 <= i < |ds| ==> 0 <= ds[i] < base }

  /** The number that ds spells, most significant digit first. */
  function Value(ds: seq<int>, base: int): int {
    if ds == [] then 0 else Value(ds[..|ds| - 1], base) * base + ds[|ds| - 1]
  }

  /** The shortest numeral for n; none for zero. */
  function Digits(n: nat, base: int): seq<int>
    requires base >= 2
  {
    if n == 0 then [] else Digits(n / base, base) + [n % base]
  }

  function Zeros(n: nat): (z: seq<int>)
    ensures |z| == n && forall i :: 0 <= i < n ==> z[i] == 0
  {
    seq(n, i => 0)
  }

  // How many digits zero the numeral starts with.
  function Leading(ds: seq<int>): (n: nat)
    ensures n <= |ds| && ds[..n] == Zeros(n) && (n < |ds| ==> ds[n] != 0)
  {
    if ds == [] || ds[0] != 0 then 0
    else
      var n := Leading(ds[1..]);
      assert ds[..n + 1] == [0] + ds[1..][..n];
      n + 1
  }

  lemma {:induction false} ValueNat(ds: seq<int>, base: int)
    requires Numeral(ds, base) && base >= 2
    ensures Value(ds, base) >= 0 && (ds != [] && ds[0] != 0 ==> Value(ds, base) > 0)
    decreases |ds|
  {
    if ds != [] {
      var init := ds[..|ds| - 1];
      ValueNat(init, base);
      assert Value(init, base) * base >= 0;
      if |ds| > 1 && ds[0] != 0 { assert init[0] == ds[0] && Value(init, base) * base > 0; }
    }
  }

  lemma Multiple(base: int, k: int)
    requires base > 0
    ensures k >= 1 ==> base * k >= base
    ensures k <= -1 ==> base * k <= -base
  {
  }

  lemma Divide(q: int, r: int, base: int)
    requires 0 <= r < base
    ensures (q * base + r) / base == q && (q * base + r) % base == r
  {
    var n := q * base + r;
    assert n == base * (n / base) + n % base;
    assert base * (q - n / base) == n % base - r;
    Multiple(base, q - n / base);
  }

  lemma {:induction false} DigitsNumeral(n: nat, base: int)
    requires base >= 2
    ensures Numeral(Digits(n, base), base)
    ensures n > 0 ==> Digits(n, base) != [] && Digits(n, base)[0] != 0
  {
    if n > 0 { DigitsNumeral(n / base, base); }
  }

  lemma {:induction false} ValueOfDigits(n: nat, base: int, ds: seq<int>)
    requires base >= 2 && ds == Digits(n, base)
    ensures Value(ds, base) == n
    decreases n
  {
    if n > 0 {
      var q := n / base;
      Smaller(n, base, q);
      ValueOfDigits(q, base, Digits(q, base));
      Rejoin(Digits(q, base), n, base);
    }
  }

  lemma Smaller(n: nat, base: int, q: int)
    requires base >= 2 && n > 0 && q == n / base
    ensures 0 <= q < n
  {
  }

  lemma Rejoin(high: seq<int>, n: nat, base: int)
    requires base >= 2 && Value(high, base) == n / base
    ensures Value(high + [n % base], base) == n
  {
    ValueOfMore(high, n % base, base);
    QuotientRemainder(n, base, Value(high, base));
  }

  lemma ValueOfMore(ds: seq<int>, d: int, base: int)
    ensures Value(ds + [d], base) == Value(ds, base) * base + d
  {
    assert (ds + [d])[..|ds|] == ds;
  }

  lemma QuotientRemainder(n: nat, base: int, q: int)
    requires base >= 2 && q == n / base
    ensures q * base + n % base == n
  {
  }

  lemma {:induction false} DigitsOfValue(ds: seq<int>, base: int)
    requires Numeral(ds, base) && base >= 2 && (ds != [] ==> ds[0] != 0)
    ensures Value(ds, base) >= 0 && Digits(Value(ds, base), base) == ds
    decreases |ds|
  {
    ValueNat(ds, base);
    if ds != [] {
      var init := ds[..|ds| - 1];
      DigitsOfValue(init, base);
      Divide(Value(init, base), ds[|ds| - 1], base);
      assert ds == init + [ds[|ds| - 1]];
    }
  }

  lemma {:induction false} ValueOfPadded(n: nat, ds: seq<int>, base: int)
    ensures Value(Zeros(n) + ds, base) == Value(ds, base)
    decreases |ds|, n
  {
    var padded := Zeros(n) + ds;
    if ds != [] {
      assert padded[..|padded| - 1] == Zeros(n) + ds[..|ds| - 1];
      ValueOfPadded(n, ds[..|ds| - 1], base);
    } else if n > 0 {
      assert padded[..n - 1] == Zeros(n - 1) + ds;
      ValueOfPadded(n - 1, ds, base);
    }
  }

  lemma LeadingOfPadded(n: nat, ds: seq<int>)
    requires ds == [] || ds[0] != 0
    ensures Leading(Zeros(n) + ds) == n
  {
    var padded, m := Zeros(n) + ds, Leading(Zeros(n) + ds);
    assert forall k :: 0 <= k < m ==> padded[k] == padded[..m][k];
    assert n < |padded| ==> padded[n] == ds[0];
  }

  /** Rewrites a numeral in another base, keeping the number of leading zeros. */
  function Convert(ds: seq<int>, base: int, to: int): seq<int>
    requires Numeral(ds, base) && base >= 2 && to >= 2
  {
    ValueNat(ds, base);
    Zeros(Leading(ds)) + Digits(Value(ds, base), to)
  }

  // Without its leading zeros a numeral spells the same number, and is the shortest that does.
  lemma Core(ds: seq<int>, base: int)
    requires Numeral(ds, base) && base >= 2
    ensures var core := ds[Leading(ds)..];
            && ds == Zeros(Leading(ds)) + core && Value(ds, base) >= 0 && Digits(Value(ds, base), base) == core
  {
    var n := Leading(ds);
    var core := ds[n..];
    ValueNat(ds, base);
    assert ds == ds[..n] + core;
    ValueOfPadded(n, core, base);
    DigitsOfValue(core, base);
  }

  lemma Padded(n: nat, v: nat, base: int)
    requires base >= 2
    ensures var ds := Zeros(n) + Digits(v, base);
            Numeral(ds, base) && Leading(ds) == n && Value(ds, base) == v
  {
    DigitsNumeral(v, base);
    ValueOfDigits(v, base, Digits(v, base));
    ValueOfPadded(n, Digits(v, base), base);
    LeadingOfPadded(n, Digits(v, base));
  }

  /** Converting back gives the same digits, leading zeros included. */
  lemma ConvertBack(ds: seq<int>, base: int, to: int)
    requires Numeral(ds, base) && base >= 2 && to >= 2
    ensures Numeral(Convert(ds, base, to), to) && Convert(Convert(ds, base, to), to, base) == ds
  {
    Core(ds, base);
    Padded(Leading(ds), Value(ds, base), to);
  }
}
