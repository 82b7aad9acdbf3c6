// Strings, options and decimal digit strings shared by the other modules.
// A `char` is a Unicode scalar value: surrogate pairs of the original are one character here.

module Text {

  datatype Option<+T> = None | Some(value: T)

  datatype Result<+T, +E> = Ok(value: T) | Err(error: E)

  function Sign(n: int): int {
    if n < 0 then -1 else if n > 0 then 1 else 0
  }

  // ------------------------------------------------------------------ comparison

  // Lexicographic comparison of strings by code unit.
  function CompareStr(a: string, b: string): int {
    if a == [] && b == [] then 0
    else if a == [] then -1
    else if b == [] then 1
    else if a[0] != b[0] then (if a[0] < b[0] then -1 else 1)
    else CompareStr(a[1..], b[1..])
  }

  lemma {:induction false} CompareStrLaws(a: string, b: string)
    ensures CompareStr(a, b) == 0 <==> a == b
    ensures CompareStr(a, b) == -CompareStr(b, a)
    ensures -1 <= CompareStr(a, b) <= 1
  {
    if a != [] && b != [] && a[0] == b[0] {
      CompareStrLaws(a[1..], b[1..]);
      assert a == [a[0]] + a[1..] && b == [b[0]] + b[1..];
    }
  }

  lemma {:induction false} CompareStrTransitive(a: string, b: string, c: string)
    requires CompareStr(a, b) <= 0 && CompareStr(b, c) <= 0
    ensures CompareStr(a, c) <= 0
    ensures CompareStr(a, b) < 0 || CompareStr(b, c) < 0 ==> CompareStr(a, c) < 0
  {
    if a != [] && b != [] && c != [] && a[0] == b[0] == c[0] {
      CompareStrTransitive(a[1..], b[1..], c[1..]);
    }
  }

  // Lower-casing, on the letters that hexadecimal addresses and hashes use.
  function LowerChar(c: char): char {
    if 'A' <= c <= 'Z' then (c as int + 32) as char else c
  }

  function Lower(s: string): (r: string)
    ensures |r| == |s|
    ensures forall i :: 0 <= i < |s| ==> r[i] == LowerChar(s[i])
  {
    seq(|s|, i requires 0 <= i < |s| => LowerChar(s[i]))
  }

  // No capital letter is left, anything else stays, and a capital becomes the letter 32 places on.
  lemma LowerMeans(s: string, i: nat)
    requires i < |s|
    ensures |Lower(s)| == |s| && !('A' <= Lower(s)[i] <= 'Z')
    ensures if 'A' <= s[i] <= 'Z' then Lower(s)[i] as int == s[i] as int + 32 else Lower(s)[i] == s[i]
  {
  }

  // ------------------------------------------------------------------ digit strings

  predicate IsDigit(c: char) { '0' <= c <= '9' }

  predicate AllDigits(s: string) { forall i :: 0 <= i < |s| ==> IsDigit(s[i]) }

  // The regular expression /^[0-9]+$/.
  predicate IsDecimal(s: string) { s != [] && AllDigits(s) }

  function DigitOf(c: char): nat
    requires IsDigit(c)
  {
    c as int - '0' as int
  }

  function CharOf(d: nat): (c: char)
    requires d < 10
    ensures IsDigit(c) && DigitOf(c) == d
  {
    ('0' as int + d) as char
  }

  function Pow10(n: nat): (p: nat)
    ensures p >= 1
  {
    if n == 0 then 1 else 10 * Pow10(n - 1)
  }

  lemma {:induction false} Pow10Add(m: nat, n: nat)
    ensures Pow10(m + n) == Pow10(m) * Pow10(n)
  {
    if m > 0 {
      Pow10Add(m - 1, n);
      assert Pow10(m + n) == 10 * (Pow10(m - 1) * Pow10(n)) == (10 * Pow10(m - 1)) * Pow10(n);
    }
  }

  lemma {:induction false} Pow10Monotone(m: nat, n: nat)
    requires m <= n
    ensures Pow10(m) <= Pow10(n)
  {
    if m < n { Pow10Monotone(m, n - 1); }
  }

  // The number a digit string denotes.
  function Value(s: string): nat
    requires AllDigits(s)
  {
    if s == [] then 0 else DigitOf(s[0]) * Pow10(|s| - 1) + Value(s[1..])
  }

  lemma {:induction false} ValueBound(s: string)
    requires AllDigits(s)
    ensures Value(s) < Pow10(|s|)
  {
    if s != [] {
      ValueBound(s[1..]);
      MulMonotone(DigitOf(s[0]), 9, Pow10(|s| - 1));
    }
  }

  lemma MulMonotone(a: nat, b: nat, p: nat)
    requires a <= b
    ensures a * p <= b * p
  {
  }

  lemma MulDistribute(d: nat, p: nat, v: nat, q: nat)
    ensures (d * p + v) * q == d * (p * q) + v * q
  {
    assert (d * p) * q == d * (p * q);
  }

  lemma {:induction false} ValueConcat(s: string, t: string)
    requires AllDigits(s) && AllDigits(t)
    ensures AllDigits(s + t)
    ensures Value(s + t) == Value(s) * Pow10(|t|) + Value(t)
  {
    if s == [] {
      assert s + t == t;
    } else {
      ValueConcat(s[1..], t);
      assert (s + t)[1..] == s[1..] + t;
      Pow10Add(|s| - 1, |t|);
      MulDistribute(DigitOf(s[0]), Pow10(|s| - 1), Value(s[1..]), Pow10(|t|));
    }
  }

  function Zeros(n: nat): (s: string)
    ensures |s| == n && AllDigits(s)
    ensures forall i :: 0 <= i < n ==> s[i] == '0'
  {
    seq(n, _ => '0')
  }

  lemma {:induction false} ValueZeros(n: nat)
    ensures Value(Zeros(n)) == 0
  {
    if n > 0 {
      assert Zeros(n)[1..] == Zeros(n - 1);
      ValueZeros(n - 1);
    }
  }

  // The canonical decimal digits of a number: no leading zero, except "0" itself.
  function Digits(n: nat): (s: string)
    ensures IsDecimal(s)
  {
    if n < 10 then [CharOf(n)] else Digits(n / 10) + [CharOf(n % 10)]
  }

  lemma {:induction false} ValueDigits(n: nat)
    ensures Value(Digits(n)) == n
    ensures |Digits(n)| > 1 ==> Digits(n)[0] != '0'
    ensures n > 0 ==> Digits(n)[0] != '0'
  {
    assert Pow10(0) == 1;
    if n < 10 {
      assert Value([CharOf(n)]) == DigitOf(CharOf(n)) * Pow10(0) + Value([]);
    } else {
      ValueDigits(n / 10);
      var last := [CharOf(n % 10)];
      ValueConcat(Digits(n / 10), last);
      assert Value(last) == DigitOf(last[0]) * Pow10(0) + Value([]);
      assert Pow10(1) == 10 * Pow10(0);
    }
  }

  // A digit string without a leading zero is the canonical one of its value.
  lemma {:induction false} DigitsUnique(s: string)
    requires IsDecimal(s)
    requires |s| > 1 ==> s[0] != '0'
    ensures Digits(Value(s)) == s
    decreases |s|
  {
    assert Pow10(0) == 1;
    if |s| == 1 {
      assert s == [s[0]];
      assert Value(s) == DigitOf(s[0]) * Pow10(0) + Value([]);
      assert Digits(Value(s)) == [CharOf(Value(s))];
    } else {
      var init, last := s[..|s| - 1], s[|s| - 1..];
      assert s == init + last;
      ValueConcat(init, last);
      assert Value(last) == DigitOf(last[0]) * Pow10(0) + Value([]);
      assert Pow10(1) == 10 * Pow10(0);
      var v := Value(s);
      assert v == Value(init) * 10 + DigitOf(last[0]);
      assert v / 10 == Value(init) && v % 10 == DigitOf(last[0]);
      ValuePositive(init);
      DigitsUnique(init);
    }
  }

  lemma {:induction false} ValuePositive(s: string)
    requires IsDecimal(s) && s[0] != '0'
    ensures Value(s) >= Pow10(|s| - 1)
  {
    var d, p := DigitOf(s[0]), Pow10(|s| - 1);
    assert d * p >= p;
  }

}
