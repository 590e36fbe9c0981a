/**
 Base58 (pkg/types/base58.go): bytes to text and back, a leading zero byte being a leading '1'.
 Encoding and decoding are one conversion between positional systems, in the two directions.
 */
module Base58 {
  import opened Positional
  import opened Wrappers

  datatype DecodeError = InvalidChar

  type Byte = b: int | 0 <= b < 256

  // ---------------------------------------------------------------- the alphabet

  // Without the look-alikes 0, I, O and l; in runs of consecutive characters.
  const ALPHABET: string := "123456789" + "ABCDEFGH" + "JKLMN" + "PQRSTUVWXYZ" + "abcdefghijk" + "mnopqrstuvwxyz"

  ghost predicate IsAlphabet(a: string) {
    |a| == 58 && a[0] == '1' && forall i, j :: 0 <= i < j < |a| ==> a[i] != a[j]
  }

  ghost predicate Consecutive(s: string, first: char) { forall i :: 0 <= i < |s| ==> s[i] as int == first as int + i }

  function Code(i: int): int {
    if i < 9 then 49 + i else if i < 17 then 65 + (i - 9) else if i < 22 then 74 + (i - 17)
    else if i < 33 then 80 + (i - 22) else if i < 44 then 97 + (i - 33) else 109 + (i - 44)
  }

  lemma AlphabetIsOne()
    ensures IsAlphabet(ALPHABET)
  {
    Codes();
    assert Code(0) == '1' as int;
    assert forall i, j :: 0 <= i < j < 58 ==> Code(i) < Code(j);
  }

  lemma Codes()
    ensures |ALPHABET| == 58 && forall i :: 0 <= i < 58 ==> ALPHABET[i] as int == Code(i)
  {
    assert Consecutive("123456789", '1');
    assert Consecutive("ABCDEFGH", 'A');
    assert Consecutive("JKLMN", 'J');
    assert Consecutive("PQRSTUVWXYZ", 'P');
    assert Consecutive("abcdefghijk", 'a');
    assert Consecutive("mnopqrstuvwxyz", 'm');
  }

  // The place of a character among the first n of the alphabet.
  function Find(c: char, a: string, n: nat): (v: int)
    requires n <= |a| && c in a[..n]
    ensures 0 <= v < n && a[v] == c
  {
    if a[n - 1] == c then n - 1 else Find(c, a, n - 1)
  }

  /** The entry of base58AlphabetMap. */
  function ValueOf(c: char, a: string): (v: int)
    requires c in a
    ensures 0 <= v < |a| && a[v] == c
  {
    assert a[..|a|] == a;
    Find(c, a, |a|)
  }

  ghost predicate Spelled(s: string, a: string) { forall i :: 0 <= i < |s| ==> s[i] in a }

  function Text(ds: seq<int>, a: string): (s: string)
    requires Numeral(ds, |a|)
    ensures |s| == |ds| && forall i :: 0 <= i < |s| ==> s[i] == a[ds[i]]
  {
    seq(|ds|, i requires 0 <= i < |ds| => a[ds[i]])
  }

  function Numbers(s: string, a: string): (ds: seq<int>)
    requires Spelled(s, a)
    ensures |ds| == |s| && Numeral(ds, |a|) && forall i :: 0 <= i < |s| ==> a[ds[i]] == s[i]
  {
    seq(|s|, i requires 0 <= i < |s| => ValueOf(s[i], a))
  }

  lemma NumbersOfText(ds: seq<int>, a: string)
    requires IsAlphabet(a) && Numeral(ds, 58)
    ensures Spelled(Text(ds, a), a) && Numbers(Text(ds, a), a) == ds
  {
  }

  // ---------------------------------------------------------------- encoding and decoding

  function Encoded(b: seq<Byte>, a: string): string
    requires |a| == 58
  {
    ConvertBack(b, 256, 58);
    Text(Convert(b, 256, 58), a)
  }

  ghost function Decoded(s: string, a: string): Result<seq<int>, DecodeError>
    requires |a| == 58
  {
    if Spelled(s, a) then Ok(Convert(Numbers(s, a), 58, 256)) else Err(InvalidChar)
  }

  /** Decoding undoes encoding, for every byte string. */
  lemma DecodeEncode(b: seq<Byte>)
    ensures |ALPHABET| == 58 && Decoded(Encoded(b, ALPHABET), ALPHABET) == Ok(b)
  {
    AlphabetIsOne();
    DecodeEncodeIn(b, ALPHABET);
  }

  lemma DecodeEncodeIn(b: seq<Byte>, a: string)
    requires IsAlphabet(a)
    ensures Decoded(Encoded(b, a), a) == Ok(b)
  {
    ConvertBack(b, 256, 58);
    NumbersOfText(Convert(b, 256, 58), a);
  }

  /** Decoding fails exactly on text with a foreign character; otherwise it yields bytes, and
      encoding undoes it. */
  lemma EncodeDecode(s: string)
    ensures |ALPHABET| == 58
    ensures Decoded(s, ALPHABET).Err? <==> exists i :: 0 <= i < |s| && s[i] !in ALPHABET
    ensures Decoded(s, ALPHABET).Ok? ==>
              Numeral(Decoded(s, ALPHABET).value, 256) && Encoded(Decoded(s, ALPHABET).value, ALPHABET) == s
  {
    AlphabetIsOne();
    EncodeDecodeIn(s, ALPHABET);
  }

  lemma EncodeDecodeIn(s: string, a: string)
    requires IsAlphabet(a)
    ensures Decoded(s, a).Err? <==> exists i :: 0 <= i < |s| && s[i] !in a
    ensures Decoded(s, a).Ok? ==> Numeral(Decoded(s, a).value, 256) && Encoded(Decoded(s, a).value, a) == s
  {
    if Spelled(s, a) {
      ConvertBack(Numbers(s, a), 58, 256);
      assert Text(Numbers(s, a), a) == s;
    }
  }

  // ---------------------------------------------------------------- the algorithms

  method EncodeBase58(input: seq<Byte>) returns (s: string)
    ensures |ALPHABET| == 58 && s == Encoded(input, ALPHABET)
  {
    AlphabetIsOne();
    s := EncodeIn(input, ALPHABET);
  }

  method EncodeIn(input: seq<Byte>, a: string) returns (s: string)
    requires IsAlphabet(a)
    ensures s == Encoded(input, a)
  {
    if |input| == 0 { return ""; }
    var leadingZeros := CountLeading(input);
    ValueNat(input, 256);
    var x := Value(input, 256);                        // big.Int.SetBytes
    DigitsNumeral(x, 58);
    s := Spell(leadingZeros, x, Digits(x, 58), a);
  }

  // The digits `ds` of x after the leading ones.
  method Spell(leadingZeros: nat, x: nat, ghost ds: seq<int>, a: string) returns (s: string)
    requires IsAlphabet(a) && ds == Digits(x, 58) && Numeral(ds, 58)
    ensures s == Text(Zeros(leadingZeros) + ds, a)
  {
    var result := Backwards(x, a, ds);
    result := AppendOnes(result, leadingZeros);
    s := Reverse(result);
    Spells(s, Zeros(leadingZeros) + ds, a);
  }

  lemma Spells(s: string, ds: seq<int>, a: string)
    requires Numeral(ds, |a|) && |s| == |ds| && forall k :: 0 <= k < |s| ==> s[k] == a[ds[k]]
    ensures s == Text(ds, a)
  {
  }

  method AppendOnes(text: string, n: nat) returns (result: string)
    ensures |result| == |text| + n && result[..|text|] == text
    ensures forall k :: |text| <= k < |result| ==> result[k] == '1'
  {
    result := text;
    var i := 0;
    while i < n
      invariant 0 <= i <= n && |result| == |text| + i && result[..|text|] == text
      invariant forall k :: |text| <= k < |result| ==> result[k] == '1'
    {
      result := result + ['1'];
      i := i + 1;
    }
  }

  // The characters for x, lowest digit first; `ds` are its digits.
  method Backwards(number: nat, a: string, ghost ds: seq<int>) returns (result: string)
    requires |a| == 58 && ds == Digits(number, 58) && Numeral(ds, 58)
    ensures |result| == |ds| && forall i :: 0 <= i < |result| ==> result[i] == a[ds[|ds| - 1 - i]]
  {
    result := [];
    var x := number;
    while x > 0
      invariant x >= 0 && |result| <= |ds| && ds[..|ds| - |result|] == Digits(x, 58)
      invariant forall i :: 0 <= i < |result| ==> result[i] == a[ds[|ds| - 1 - i]]
    {
      NextDigit(x, ds[..|ds| - |result|]);
      var mod := x % 58;
      x := x / 58;
      result := result + [a[mod]];
    }
  }

  lemma NextDigit(x: nat, ds: seq<int>)
    requires x > 0 && ds == Digits(x, 58)
    ensures ds != [] && ds[|ds| - 1] == x % 58 && ds[..|ds| - 1] == Digits(x / 58, 58)
  {
  }

  method CountLeading(ds: seq<int>) returns (n: nat)
    ensures n == Leading(ds)
  {
    n := 0;
    while n < |ds| && ds[n] == 0
      invariant n <= |ds| && Leading(ds) == n + Leading(ds[n..])
    {
      assert ds[n..][1..] == ds[n + 1..];
      n := n + 1;
    }
  }

  // Exchanges the ends inwards.
  method Reverse(text: string) returns (s: string)
    ensures |s| == |text| && forall k :: 0 <= k < |s| ==> s[k] == text[|s| - 1 - k]
  {
    s := text;
    var i, j := 0, |s| - 1;
    while i < j
      invariant 0 <= i && j == |s| - 1 - i && |s| == |text|
      invariant forall k :: 0 <= k < |s| && (k < i || j < k) ==> s[k] == text[|s| - 1 - k]
      invariant forall k :: i <= k <= j ==> s[k] == text[k]
    {
      s := s[i := s[j]][j := s[i]];
      i, j := i + 1, j - 1;
    }
  }

  method DecodeBase58(input: string) returns (r: Result<seq<int>, DecodeError>)
    ensures |ALPHABET| == 58 && r == Decoded(input, ALPHABET)
  {
    AlphabetIsOne();
    r := DecodeIn(input, ALPHABET);
  }

  method DecodeIn(input: string, a: string) returns (r: Result<seq<int>, DecodeError>)
    requires IsAlphabet(a)
    ensures r == Decoded(input, a)
  {
    if |input| == 0 {
      assert Numbers(input, a) == [] && Convert([], 58, 256) == [];
      return Ok([]);
    }
    var leadingOnes := 0;
    while leadingOnes < |input| && input[leadingOnes] == '1'
      invariant leadingOnes <= |input| && forall k :: 0 <= k < leadingOnes ==> input[k] == '1'
    {
      leadingOnes := leadingOnes + 1;
    }
    var x, i := 0, 0;
    while i < |input|
      invariant 0 <= i <= |input| && Spelled(input[..i], a) && x == Value(Numbers(input[..i], a), 58)
    {
      if input[i] !in a { return Err(InvalidChar); }
      NextNumber(input, a, i);
      x := x * 58 + ValueOf(input[i], a);
      i := i + 1;
    }
    assert input[..i] == input;
    ValueNat(Numbers(input, a), 58);
    LeadingOnes(input, a, leadingOnes);
    var decoded := Digits(x, 256);                     // big.Int.Bytes
    r := Ok(Zeros(leadingOnes) + decoded);
  }

  lemma NextNumber(s: string, a: string, i: nat)
    requires |a| == 58 && i < |s| && Spelled(s[..i], a) && s[i] in a
    ensures Spelled(s[..i + 1], a)
    ensures Value(Numbers(s[..i + 1], a), 58) == Value(Numbers(s[..i], a), 58) * 58 + ValueOf(s[i], a)
  {
    assert s[..i + 1] == s[..i] + [s[i]];
    var ds := Numbers(s[..i + 1], a);
    assert ds[..|ds| - 1] == Numbers(s[..i], a);
  }

  lemma LeadingOnes(s: string, a: string, n: nat)
    requires IsAlphabet(a) && Spelled(s, a)
    requires n <= |s| && (forall k :: 0 <= k < n ==> s[k] == '1') && (n < |s| ==> s[n] != '1')
    ensures Leading(Numbers(s, a)) == n
  {
    var ds := Numbers(s, a);
    assert ds == Zeros(n) + ds[n..];
    LeadingOfPadded(n, ds[n..]);
  }
}
