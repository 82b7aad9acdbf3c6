// Decimal strings for base-unit amounts (packages/core/src/money.ts), and exact subtraction of them
// (packages/mcp-tools/src/recon/match-repo.ts:100-109).

module Money {
  import opened Text

  // ------------------------------------------------------------------ the accepted strings

  // The groups of /^(-?)(\d+)(?:\.(\d+))?$/; `frac` is empty when there is no point.
  datatype Parts = Parts(neg: bool, whole: string, frac: string)

  predicate WellFormed(p: Parts) { IsDecimal(p.whole) && AllDigits(p.frac) }

  function Show(p: Parts): string {
    if p.neg then "-" + ShowUnsigned(p.whole, p.frac) else ShowUnsigned(p.whole, p.frac)
  }

  // String.prototype.indexOf, with the length standing for "absent".
  function IndexOfChar(s: string, c: char): (i: nat)
    ensures i <= |s|
    ensures forall k :: 0 <= k < i ==> s[k] != c
    ensures i < |s| ==> s[i] == c
  {
    if s == "" || s[0] == c then 0
    else
      var i := IndexOfChar(s[1..], c);
      assert forall k :: 0 < k < i + 1 ==> s[k] == s[1..][k - 1];
      i + 1
  }

  function MatchUnsigned(neg: bool, rest: string): Option<Parts> {
    var dot := IndexOfChar(rest, '.');
    if dot == |rest| then
      if IsDecimal(rest) then Some(Parts(neg, rest, "")) else None
    else if IsDecimal(rest[..dot]) && IsDecimal(rest[dot + 1..]) then
      Some(Parts(neg, rest[..dot], rest[dot + 1..]))
    else None
  }

  function Match(s: string): Option<Parts> {
    if s != "" && s[0] == '-' then MatchUnsigned(true, s[1..]) else MatchUnsigned(false, s)
  }

  function ShowUnsigned(whole: string, frac: string): string {
    if frac == "" then whole else whole + "." + frac
  }

  lemma IndexOfFirst(s: string, c: char, i: nat)
    requires i <= |s| && (i < |s| ==> s[i] == c) && forall k :: 0 <= k < i ==> s[k] != c
    ensures IndexOfChar(s, c) == i
  {
  }

  lemma MatchShowUnsigned(neg: bool, whole: string, frac: string)
    requires IsDecimal(whole) && AllDigits(frac)
    ensures MatchUnsigned(neg, ShowUnsigned(whole, frac)) == Some(Parts(neg, whole, frac))
  {
    var rest := ShowUnsigned(whole, frac);
    if frac == "" {
      IndexOfFirst(rest, '.', |rest|);
    } else {
      IndexOfFirst(rest, '.', |whole|);
      assert rest[..|whole|] == whole && rest[|whole| + 1..] == frac;
    }
  }

  lemma ShowMatchUnsigned(neg: bool, rest: string)
    requires MatchUnsigned(neg, rest).Some?
    ensures var p := MatchUnsigned(neg, rest).value;
      p.neg == neg && IsDecimal(p.whole) && AllDigits(p.frac) && ShowUnsigned(p.whole, p.frac) == rest
  {
    var dot := IndexOfChar(rest, '.');
    if dot < |rest| { assert rest == rest[..dot] + "." + rest[dot + 1..]; }
  }

  // Matching undoes showing, and the matched strings are exactly the shown ones.
  lemma MatchShow(p: Parts)
    requires WellFormed(p)
    ensures Match(Show(p)) == Some(p)
  {
    var rest := ShowUnsigned(p.whole, p.frac);
    assert rest[0] == p.whole[0] && IsDigit(rest[0]);
    MatchShowUnsigned(p.neg, p.whole, p.frac);
    assert p.neg ==> Show(p)[1..] == rest;
  }

  lemma ShowMatch(s: string)
    requires Match(s).Some?
    ensures WellFormed(Match(s).value) && Show(Match(s).value) == s
  {
    if s[0] == '-' {
      ShowMatchUnsigned(true, s[1..]);
      assert s == "-" + s[1..];
    } else {
      ShowMatchUnsigned(false, s);
    }
  }

  // ------------------------------------------------------------------ parsing

  datatype ParseError = NotADecimal | TooPrecise

  function Magnitude(p: Parts, decimals: nat): nat
    requires WellFormed(p) && |p.frac| <= decimals
  {
    Value(p.whole + p.frac + Zeros(decimals - |p.frac|))
  }

  function UnitsOf(p: Parts, decimals: nat): int
    requires WellFormed(p) && |p.frac| <= decimals
  {
    var magnitude: int := Magnitude(p, decimals);
    if p.neg then -magnitude else magnitude
  }

  // money.ts:45-54.
  function ParseUnits(value: string, decimals: nat): Result<int, ParseError> {
    var m := Match(value);
    if m.None? then Err(NotADecimal)
    else if |m.value.frac| > decimals then Err(TooPrecise)
    else
      ShowMatch(value);
      Ok(UnitsOf(m.value, decimals))
  }

  // ------------------------------------------------------------------ printing

  function PadStart(s: string, n: nat): string {
    if |s| < n then Zeros(n - |s|) + s else s
  }

  function TrimEnd(s: string): string {
    if s != "" && s[|s| - 1] == '0' then TrimEnd(s[..|s| - 1]) else s
  }

  function StringOf(raw: int): string {
    if raw < 0 then "-" + Digits(-raw) else Digits(raw)
  }

  function Abs(raw: int): nat { if raw < 0 then -raw else raw }

  // Digits cut `decimals` places from their end.
  function Cut(neg: bool, digits: string, decimals: nat): Parts
    requires decimals <= |digits|
  {
    Parts(neg, digits[..|digits| - decimals], TrimEnd(digits[|digits| - decimals..]))
  }

  function Padded(n: nat, width: nat): (s: string)
    ensures |s| >= width
  {
    PadStart(Digits(n), width)
  }

  // The parts of raw / 10^decimals.
  function PartsOf(raw: int, decimals: nat): Parts {
    Cut(raw < 0, Padded(Abs(raw), decimals + 1), decimals)
  }

  // money.ts:21-39.
  method FormatUnits(raw: int, decimals: nat) returns (s: string)
    ensures s == Show(PartsOf(raw, decimals))
  {
    if decimals == 0 {
      WholeParts(raw);
      return StringOf(raw);
    }
    var neg := raw < 0;
    var digits := PadStart(Digits(if neg then -raw else raw), decimals + 1);
    s := FormatDigits(neg, digits, decimals);
  }

  // money.ts:25-38.
  method FormatDigits(neg: bool, digits: string, decimals: nat) returns (s: string)
    requires decimals <= |digits|
    ensures s == Show(Cut(neg, digits, decimals))
  {
    var cut := |digits| - decimals;
    var intPart := digits[..cut];
    var frac := TrimZeros(digits[cut..]);
    var body := if frac == "" then intPart else intPart + "." + frac;
    return if neg then "-" + body else body;
  }

  method TrimZeros(fracRaw: string) returns (frac: string)
    ensures frac == TrimEnd(fracRaw)
  {
    var end := |fracRaw|;
    assert fracRaw[..end] == fracRaw;
    while end > 0 && fracRaw[end - 1] == '0'
      invariant 0 <= end <= |fracRaw|
      invariant TrimEnd(fracRaw) == TrimEnd(fracRaw[..end])
    {
      assert fracRaw[..end][..end - 1] == fracRaw[..end - 1];
      end := end - 1;
    }
    return fracRaw[..end];
  }

  lemma WholeParts(raw: int)
    ensures StringOf(raw) == Show(PartsOf(raw, 0))
  {
    var digits := Padded(Abs(raw), 1);
    assert digits[..|digits|] == digits && digits[|digits|..] == "";
  }

  // ------------------------------------------------------------------ canonical strings

  // No spare leading zero, no trailing fractional zero, no negative zero.
  predicate CanonicalParts(p: Parts) {
    && WellFormed(p)
    && (|p.whole| > 1 ==> p.whole[0] != '0')
    && (p.frac != "" ==> p.frac[|p.frac| - 1] != '0')
    && !(p.neg && p.whole == "0" && p.frac == "")
  }

  predicate Canonical(s: string) { Match(s).Some? && CanonicalParts(Match(s).value) }

  lemma {:induction false} TrimEndSplits(s: string)
    requires AllDigits(s)
    ensures AllDigits(TrimEnd(s)) && |TrimEnd(s)| <= |s|
    ensures s == TrimEnd(s) + Zeros(|s| - |TrimEnd(s)|)
    ensures TrimEnd(s) != "" ==> TrimEnd(s)[|TrimEnd(s)| - 1] != '0'
  {
    if s != "" && s[|s| - 1] == '0' {
      TrimEndSplits(s[..|s| - 1]);
      var t := TrimEnd(s);
      assert s == s[..|s| - 1] + "0";
      assert Zeros(|s| - |t|) == Zeros(|s| - 1 - |t|) + "0";
    } else {
      assert Zeros(0) == "";
    }
  }

  lemma {:induction false} TrimEndKeeps(s: string, n: nat)
    requires AllDigits(s) && (s != "" ==> s[|s| - 1] != '0')
    ensures TrimEnd(s + Zeros(n)) == s
  {
    if n == 0 {
      assert s + Zeros(0) == s;
    } else {
      var t := s + Zeros(n);
      assert t[..|t| - 1] == s + Zeros(n - 1) && t[|t| - 1] == '0';
      TrimEndKeeps(s, n - 1);
    }
  }

  lemma PadStartValue(n: nat, width: nat)
    ensures AllDigits(Padded(n, width)) && Value(Padded(n, width)) == n
    ensures |Padded(n, width)| > width ==> Padded(n, width) == Digits(n)
  {
    ValueDigits(n);
    if |Digits(n)| < width {
      var k := width - |Digits(n)|;
      ValueConcat(Zeros(k), Digits(n));
      ValueZeros(k);
    }
  }

  // What a cut takes apart, glued together again.
  lemma Glue(neg: bool, digits: string, decimals: nat)
    requires AllDigits(digits) && decimals < |digits|
    ensures var p := Cut(neg, digits, decimals);
      && WellFormed(p) && |p.frac| <= decimals
      && p.whole + p.frac + Zeros(decimals - |p.frac|) == digits
      && (p.frac != "" ==> p.frac[|p.frac| - 1] != '0')
  {
    var cut := |digits| - decimals;
    TrimEndSplits(digits[cut..]);
    var frac := TrimEnd(digits[cut..]);
    assert digits == digits[..cut] + (frac + Zeros(decimals - |frac|));
  }

  lemma PartsGlue(raw: int, decimals: nat)
    ensures var p := PartsOf(raw, decimals);
      && WellFormed(p) && |p.frac| <= decimals
      && p.whole + p.frac + Zeros(decimals - |p.frac|) == Padded(Abs(raw), decimals + 1)
      && (p.frac != "" ==> p.frac[|p.frac| - 1] != '0')
  {
    PadStartValue(Abs(raw), decimals + 1);
    Glue(raw < 0, Padded(Abs(raw), decimals + 1), decimals);
  }

  // Parsing undoes printing, at any scale and any sign.
  lemma ParseOfFormat(raw: int, decimals: nat)
    ensures ParseUnits(Show(PartsOf(raw, decimals)), decimals) == Ok(raw)
  {
    PartsGlue(raw, decimals);
    MatchShow(PartsOf(raw, decimals));
    PadStartValue(Abs(raw), decimals + 1);
  }

  lemma CutCanonical(neg: bool, digits: string, decimals: nat)
    requires AllDigits(digits) && decimals < |digits|
    requires |digits| > decimals + 1 ==> digits[0] != '0'
    requires neg ==> Value(digits) > 0
    ensures CanonicalParts(Cut(neg, digits, decimals))
  {
    Glue(neg, digits, decimals);
    var p := Cut(neg, digits, decimals);
    if p.whole == "0" && p.frac == "" {
      assert digits == Zeros(decimals + 1);
      ValueZeros(decimals + 1);
    }
  }

  lemma FormatCanonical(raw: int, decimals: nat)
    ensures Canonical(Show(PartsOf(raw, decimals)))
  {
    PadStartValue(Abs(raw), decimals + 1);
    ValueDigits(Abs(raw));
    CutCanonical(raw < 0, Padded(Abs(raw), decimals + 1), decimals);
    MatchShow(PartsOf(raw, decimals));
  }

  // Leading zeros that could be dropped.
  function Spare(s: string): (k: nat)
    ensures k <= |s| && (s != "" ==> k < |s|)
    ensures forall i :: 0 <= i < k ==> s[i] == '0'
    ensures |s| > 0 ==> s[k] != '0' || k == |s| - 1
  {
    if |s| <= 1 || s[0] != '0' then 0
    else
      var k := Spare(s[1..]);
      assert forall i :: 0 < i < k + 1 ==> s[i] == s[1..][i - 1];
      k + 1
  }

  // A digit string with a spare leading zero only inside its width is the padded form of its value.
  lemma PaddedUnique(s: string, width: nat)
    requires AllDigits(s) && |s| >= width >= 1 && (|s| > width ==> s[0] != '0')
    ensures Padded(Value(s), width) == s
  {
    var k := Spare(s);
    var t := s[k..];
    assert s == Zeros(k) + t;
    ValueConcat(Zeros(k), t);
    ValueZeros(k);
    DigitsUnique(t);
  }

  // A canonical string is what printing its own value gives: printing is onto the canonical strings,
  // and two canonical strings of one value are equal.
  lemma FormatOfParse(s: string, decimals: nat)
    requires Canonical(s) && |Match(s).value.frac| <= decimals
    ensures ParseUnits(s, decimals).Ok? && Show(PartsOf(ParseUnits(s, decimals).value, decimals)) == s
  {
    ShowMatch(s);
    PartsOfUnits(Match(s).value, decimals);
  }

  lemma PartsOfUnits(p: Parts, decimals: nat)
    requires CanonicalParts(p) && |p.frac| <= decimals
    ensures PartsOf(UnitsOf(p, decimals), decimals) == p
  {
    var glued := p.whole + p.frac + Zeros(decimals - |p.frac|);
    UnitsSign(p, decimals);
    PaddedUnique(glued, decimals + 1);
    CutGlued(p, glued, decimals);
  }

  lemma UnitsSign(p: Parts, decimals: nat)
    requires CanonicalParts(p) && |p.frac| <= decimals
    ensures UnitsOf(p, decimals) < 0 <==> p.neg
    ensures Abs(UnitsOf(p, decimals)) == Magnitude(p, decimals)
  {
    if Magnitude(p, decimals) == 0 { ZeroParts(p, decimals - |p.frac|); }
  }

  lemma CutGlued(p: Parts, glued: string, decimals: nat)
    requires CanonicalParts(p) && |p.frac| <= decimals && glued == p.whole + p.frac + Zeros(decimals - |p.frac|)
    ensures Cut(p.neg, glued, decimals) == p
  {
    assert glued[..|p.whole|] == p.whole && glued[|p.whole|..] == p.frac + Zeros(decimals - |p.frac|);
    TrimEndKeeps(p.frac, decimals - |p.frac|);
  }

  lemma ZeroParts(p: Parts, m: nat)
    requires CanonicalParts(p) && Value(p.whole + p.frac + Zeros(m)) == 0
    ensures p.whole == "0" && p.frac == ""
  {
    ValueConcat(p.whole + p.frac, Zeros(m));
    MulPositive(Value(p.whole + p.frac), Pow10(m));
    ValueConcat(p.whole, p.frac);
    MulPositive(Value(p.whole), Pow10(|p.frac|));
    if p.whole[0] != '0' { ValuePositive(p.whole); }
    if p.frac != "" { LastDigit(p.frac); }
  }

  lemma MulPositive(a: nat, b: nat)
    requires b >= 1
    ensures a > 0 ==> a * b > 0
    ensures a * b >= 0
  {
  }

  lemma LastDigit(s: string)
    requires IsDecimal(s)
    ensures s[|s| - 1] != '0' ==> Value(s) > 0
  {
    var init, last := s[..|s| - 1], s[|s| - 1..];
    assert s == init + last;
    ValueConcat(init, last);
    if last[0] != '0' { ValuePositive(last); }
  }

  // Printing what was parsed canonicalizes any accepted string: the same number, in the one
  // canonical form it has.
  lemma Canonicalizes(s: string, decimals: nat)
    requires ParseUnits(s, decimals).Ok?
    ensures var c := Show(PartsOf(ParseUnits(s, decimals).value, decimals));
      && Canonical(c) && ParseUnits(c, decimals) == ParseUnits(s, decimals)
      && (Canonical(s) <==> c == s)
  {
    FormatCanonical(ParseUnits(s, decimals).value, decimals);
    ParseOfFormat(ParseUnits(s, decimals).value, decimals);
    if Canonical(s) { FormatOfParse(s, decimals); }
  }

  // A finer scale multiplies.
  lemma ParseAtScale(s: string, decimals: nat, finer: nat)
    requires ParseUnits(s, decimals).Ok? && decimals <= finer
    ensures ParseUnits(s, finer) == Ok(ParseUnits(s, decimals).value * Pow10(finer - decimals))
  {
    ShowMatch(s);
    MagnitudeAtScale(Match(s).value, decimals, finer);
    NegMul(Magnitude(Match(s).value, decimals), Pow10(finer - decimals));
  }

  lemma MagnitudeAtScale(p: Parts, decimals: nat, finer: nat)
    requires WellFormed(p) && |p.frac| <= decimals <= finer
    ensures Magnitude(p, finer) == Magnitude(p, decimals) * Pow10(finer - decimals)
  {
    var m, k := decimals - |p.frac|, finer - decimals;
    assert Zeros(m + k) == Zeros(m) + Zeros(k);
    assert p.whole + p.frac + Zeros(m + k) == (p.whole + p.frac + Zeros(m)) + Zeros(k);
    ValueConcat(p.whole + p.frac + Zeros(m), Zeros(k));
    ValueZeros(k);
  }

  lemma NegMul(a: int, b: int)
    ensures (-a) * b == -(a * b)
  {
  }

  // ------------------------------------------------------------------ subtraction

  // match-repo.ts:100-103.
  function FracDigits(s: string): nat {
    var i := IndexOfChar(s, '.');
    if i == |s| then 0 else |s| - i - 1
  }

  // match-repo.ts:106-109.
  method SubtractDecimal(a: string, b: string) returns (r: Result<string, ParseError>)
    ensures r.Ok? <==> Match(a).Some? && Match(b).Some?
    ensures r.Ok? ==> Canonical(r.value) && IsDifference(a, b, r.value)
  {
    var scale := if FracDigits(a) > FracDigits(b) then FracDigits(a) else FracDigits(b);
    var x, y := ParseUnits(a, scale), ParseUnits(b, scale);
    if Match(a).Some? { FracDigitsMatch(a); }
    if Match(b).Some? { FracDigitsMatch(b); }
    if x.Err? { return Err(x.error); }
    if y.Err? { return Err(y.error); }
    var s := FormatUnits(x.value - y.value, scale);
    FormatCanonical(x.value - y.value, scale);
    ParseOfFormat(x.value - y.value, scale);
    ExactAtScales(a, b, s, scale);
    return Ok(s);
  }

  // At every scale that holds a and b, `s` is their exact difference.
  ghost predicate IsDifference(a: string, b: string, s: string) {
    forall d: nat :: ParseUnits(a, d).Ok? && ParseUnits(b, d).Ok? ==>
      ParseUnits(s, d) == Ok(ParseUnits(a, d).value - ParseUnits(b, d).value)
  }

  lemma ExactAtScales(a: string, b: string, s: string, scale: nat)
    requires ParseUnits(a, scale).Ok? && ParseUnits(b, scale).Ok?
    requires ParseUnits(s, scale) == Ok(ParseUnits(a, scale).value - ParseUnits(b, scale).value)
    requires scale == |Match(a).value.frac| || scale == |Match(b).value.frac|
    ensures IsDifference(a, b, s)
  {
    forall d: nat | ParseUnits(a, d).Ok? && ParseUnits(b, d).Ok?
      ensures ParseUnits(s, d) == Ok(ParseUnits(a, d).value - ParseUnits(b, d).value)
    {
      ExactAtScale(a, b, s, scale, d);
    }
  }

  lemma FracDigitsMatch(s: string)
    requires Match(s).Some?
    ensures FracDigits(s) == |Match(s).value.frac|
  {
    ShowMatch(s);
    var p := Match(s).value;
    if p.neg { ShownFracDigits("-" + p.whole, p.frac); } else { ShownFracDigits(p.whole, p.frac); }
    assert "-" + ShowUnsigned(p.whole, p.frac) == ShowUnsigned("-" + p.whole, p.frac);
  }

  lemma ShownFracDigits(head: string, frac: string)
    requires forall i :: 0 <= i < |head| ==> head[i] != '.'
    ensures FracDigits(ShowUnsigned(head, frac)) == |frac|
  {
    IndexOfFirst(ShowUnsigned(head, frac), '.', |head|);
  }

  lemma ExactAtScale(a: string, b: string, s: string, scale: nat, d: nat)
    requires ParseUnits(a, scale).Ok? && ParseUnits(b, scale).Ok? && ParseUnits(a, d).Ok? && ParseUnits(b, d).Ok?
    requires ParseUnits(s, scale) == Ok(ParseUnits(a, scale).value - ParseUnits(b, scale).value)
    requires scale == |Match(a).value.frac| || scale == |Match(b).value.frac|
    ensures ParseUnits(s, d) == Ok(ParseUnits(a, d).value - ParseUnits(b, d).value)
  {
    ParseAtScale(a, scale, d);
    ParseAtScale(b, scale, d);
    ParseAtScale(s, scale, d);
    MulMinus(ParseUnits(a, scale).value, ParseUnits(b, scale).value, Pow10(d - scale));
  }

  lemma MulMinus(a: int, b: int, k: int)
    ensures (a - b) * k == a * k - b * k
  {
  }
}
