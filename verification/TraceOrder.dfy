// The order on trace labels (packages/ingestion/src/normalize.ts:19-116): the comparator
// whose ranks become the sentinel half of the idempotency key.

module TraceOrder {
  import opened Text

  // ------------------------------------------------------------------ split and join

  // JavaScript's label.split('_'): always at least one segment, possibly empty ones.
  function Split(s: string): (parts: seq<string>)
    ensures |parts| >= 1
  {
    if s == [] then [[]]
    else if s[0] == '_' then [[]] + Split(s[1..])
    else var rest := Split(s[1..]); [[s[0]] + rest[0]] + rest[1..]
  }

  function Join(parts: seq<string>): string
    requires |parts| >= 1
  {
    if |parts| == 1 then parts[0] else parts[0] + ['_'] + Join(parts[1..])
  }

  lemma {:induction false} SplitPlain(s: string)
    requires '_' !in s
    ensures Split(s) == [s]
  {
    if s != [] {
      SplitPlain(s[1..]);
      assert s == [s[0]] + s[1..];
    }
  }

  lemma {:induction false} SplitHead(s: string, t: string)
    requires '_' !in s
    ensures Split(s + ['_'] + t) == [s] + Split(t)
  {
    if s == [] {
      assert s + ['_'] + t == ['_'] + t;
      assert (['_'] + t)[1..] == t;
    } else {
      SplitHead(s[1..], t);
      assert (s + ['_'] + t)[1..] == s[1..] + ['_'] + t;
      assert s == [s[0]] + s[1..];
    }
  }

  lemma {:induction false} SplitJoin(parts: seq<string>)
    requires |parts| >= 1
    requires forall i :: 0 <= i < |parts| ==> '_' !in parts[i]
    ensures Split(Join(parts)) == parts
  {
    if |parts| == 1 {
      SplitPlain(parts[0]);
    } else {
      SplitJoin(parts[1..]);
      SplitHead(parts[0], Join(parts[1..]));
      assert parts == [parts[0]] + parts[1..];
    }
  }

  // ------------------------------------------------------------------ the order

  // Segments: numbers before anything else, numbers by value, the rest by code unit.
  function CompareSegments(x: string, y: string): int {
    if IsDecimal(x) && IsDecimal(y) then Sign(Value(x) - Value(y))
    else if IsDecimal(x) then -1
    else if IsDecimal(y) then 1
    else CompareStr(x, y)
  }

  // Lists of segments: first difference decides, a prefix sorts first.
  function ComparePaths(p: seq<string>, q: seq<string>): int {
    if p == [] && q == [] then 0
    else if p == [] then -1
    else if q == [] then 1
    else if CompareSegments(p[0], q[0]) != 0 then CompareSegments(p[0], q[0])
    else ComparePaths(p[1..], q[1..])
  }

  // Labels: by segments, and labels that tie there ("7", "007") by their text.
  function CompareLabels(a: string, b: string): int {
    var c := ComparePaths(Split(a), Split(b));
    if c != 0 then c else CompareStr(a, b)
  }

  lemma CompareSegmentsLaws(x: string, y: string)
    ensures CompareSegments(x, y) == -CompareSegments(y, x)
    ensures CompareSegments(x, x) == 0
    ensures -1 <= CompareSegments(x, y) <= 1
  {
    CompareStrLaws(x, y);
    CompareStrLaws(x, x);
  }

  lemma CompareSegmentsTransitive(x: string, y: string, z: string)
    requires CompareSegments(x, y) <= 0 && CompareSegments(y, z) <= 0
    ensures CompareSegments(x, z) <= 0
    ensures CompareSegments(x, y) < 0 || CompareSegments(y, z) < 0 ==> CompareSegments(x, z) < 0
  {
    if !IsDecimal(x) && !IsDecimal(y) && !IsDecimal(z) {
      CompareStrTransitive(x, y, z);
    }
  }

  lemma {:induction false} ComparePathsLaws(p: seq<string>, q: seq<string>)
    ensures ComparePaths(p, q) == -ComparePaths(q, p)
    ensures ComparePaths(p, p) == 0
    ensures -1 <= ComparePaths(p, q) <= 1
    decreases |p| + |q|
  {
    if p != [] && q != [] {
      CompareSegmentsLaws(p[0], q[0]);
      CompareSegmentsLaws(p[0], p[0]);
      ComparePathsLaws(p[1..], q[1..]);
    } else if p != [] {
      CompareSegmentsLaws(p[0], p[0]);
      ComparePathsLaws(p[1..], []);
    }
  }

  lemma {:induction false} ComparePathsTransitive(p: seq<string>, q: seq<string>, r: seq<string>)
    requires ComparePaths(p, q) <= 0 && ComparePaths(q, r) <= 0
    ensures ComparePaths(p, r) <= 0
    ensures ComparePaths(p, q) < 0 || ComparePaths(q, r) < 0 ==> ComparePaths(p, r) < 0
  {
    if p != [] && q != [] && r != [] {
      CompareSegmentsTransitive(p[0], q[0], r[0]);
      if CompareSegments(p[0], q[0]) == 0 && CompareSegments(q[0], r[0]) == 0 {
        CompareSegmentsLaws(p[0], q[0]);
        CompareSegmentsLaws(q[0], r[0]);
        CompareSegmentsLaws(p[0], r[0]);
        CompareSegmentsTransitive(r[0], q[0], p[0]);
        ComparePathsTransitive(p[1..], q[1..], r[1..]);
      }
    }
  }

  // A strict total order on ALL labels: zero only on equal labels, antisymmetric, transitive.
  lemma CompareLabelsTotalOrder(a: string, b: string, c: string)
    ensures CompareLabels(a, b) == 0 <==> a == b
    ensures CompareLabels(a, b) == -CompareLabels(b, a)
    ensures CompareLabels(a, b) < 0 && CompareLabels(b, c) < 0 ==> CompareLabels(a, c) < 0
  {
    ComparePathsLaws(Split(a), Split(b));
    ComparePathsLaws(Split(b), Split(a));
    CompareStrLaws(a, b);
    if CompareLabels(a, b) < 0 && CompareLabels(b, c) < 0 {
      ComparePathsTransitive(Split(a), Split(b), Split(c));
      if ComparePaths(Split(a), Split(b)) == 0 && ComparePaths(Split(b), Split(c)) == 0 {
        ComparePathsLaws(Split(a), Split(b));
        ComparePathsLaws(Split(b), Split(c));
        ComparePathsTransitive(Split(c), Split(b), Split(a));
        ComparePathsLaws(Split(a), Split(c));
        CompareStrTransitive(a, b, c);
      }
    }
  }

  // ------------------------------------------------------------------ the code's loops

  lemma {:induction false} StripZero(s: string)
    requires AllDigits(s) && s != [] && s[0] == '0'
    ensures Value(s) == Value(s[1..])
  {
  }

  // Digit strings of the same length: the first difference decides.
  lemma {:induction false} FirstDifferenceDecides(a: string, b: string)
    requires AllDigits(a) && AllDigits(b) && |a| == |b| > 0
    requires DigitOf(a[0]) < DigitOf(b[0])
    ensures Value(a) < Value(b)
  {
    ValueBound(a[1..]);
    MulMonotone(DigitOf(a[0]) + 1, DigitOf(b[0]), Pow10(|a| - 1));
  }

  // Without leading zeros the longer digit string is the larger number.
  lemma {:induction false} LongerIsLarger(a: string, b: string)
    requires IsDecimal(a) && IsDecimal(b) && |a| < |b| && b[0] != '0'
    ensures Value(a) < Value(b)
  {
    ValueBound(a);
    ValuePositive(b);
    Pow10Monotone(|a|, |b| - 1);
  }

  // normalize.ts:52-53: the position of the first digit that counts.
  method SkipZeros(s: string) returns (i: nat)
    requires IsDecimal(s)
    ensures i < |s| && Value(s[i..]) == Value(s)
    ensures i < |s| - 1 ==> s[i] != '0'
  {
    i := 0;
    while i < |s| - 1 && s[i] == '0'
      invariant 0 <= i < |s|
      invariant Value(s[i..]) == Value(s)
    {
      StripZero(s[i..]);
      assert s[i..][1..] == s[i + 1..];
      i := i + 1;
    }
  }

  // normalize.ts:49-63: no parsing; the result is the numeric order.
  method CompareDecimalDigits(a: string, b: string) returns (r: int)
    requires IsDecimal(a) && IsDecimal(b)
    ensures r == Sign(Value(a) - Value(b))
  {
    var ia := SkipZeros(a);
    var ib := SkipZeros(b);
    ghost var ta, tb := a[ia..], b[ib..];
    var la, lb := |a| - ia, |b| - ib;
    if la < lb {
      LongerIsLarger(ta, tb);
      return -1;
    } else if lb < la {
      LongerIsLarger(tb, ta);
      return 1;
    }
    var i := 0;
    while i < la
      invariant 0 <= i <= la
      invariant Sign(Value(ta[i..]) - Value(tb[i..])) == Sign(Value(a) - Value(b))
    {
      var ca, cb := a[ia + i], b[ib + i];
      assert ca == ta[i] && cb == tb[i];
      assert ta[i..][1..] == ta[i + 1..] && tb[i..][1..] == tb[i + 1..];
      if ca != cb {
        if ca < cb {
          FirstDifferenceDecides(ta[i..], tb[i..]);
          return -1;
        } else {
          FirstDifferenceDecides(tb[i..], ta[i..]);
          return 1;
        }
      }
      i := i + 1;
    }
    return 0;
  }

  // normalize.ts:84-116.
  method CompareTraceIds(a: string, b: string) returns (r: int)
    ensures r == CompareLabels(a, b)
  {
    var pa, pb := Split(a), Split(b);
    var i := 0;
    while i < |pa| || i < |pb|
      invariant 0 <= i <= |pa| && i <= |pb|
      invariant ComparePaths(pa, pb) == ComparePaths(pa[i..], pb[i..])
      decreases |pa| + |pb| - i
    {
      if i >= |pa| { return -1; }
      if i >= |pb| { return 1; }
      var xa, xb := pa[i], pb[i];
      assert pa[i..][1..] == pa[i + 1..] && pb[i..][1..] == pb[i + 1..];
      CompareSegmentsLaws(xa, xa);
      CompareStrLaws(xa, xb);
      if xa == xb { i := i + 1; continue; }
      if IsDecimal(xa) && IsDecimal(xb) {
        var cmp := CompareDecimalDigits(xa, xb);
        if cmp != 0 { return cmp; }
        i := i + 1;
        continue;
      }
      if IsDecimal(xa) != IsDecimal(xb) { return if IsDecimal(xa) then -1 else 1; }
      return if CompareStr(xa, xb) < 0 then -1 else 1;
    }
    CompareStrLaws(a, b);
    return CompareStr(a, b);
  }

  // The regular expression /^[0-9]+(?:_[0-9]+)*$/ (normalize.ts:34-38).
  predicate IsDecimalTracePath(traceId: string) {
    forall i :: 0 <= i < |Split(traceId)| ==> IsDecimal(Split(traceId)[i])
  }

  // The shape /^[0-9]+(_[0-9]+)*$/, place by place: digits, with single underscores between them.
  predicate PathShaped(s: string) {
    && s != "" && s[0] != '_' && s[|s| - 1] != '_'
    && (forall i :: 0 <= i < |s| ==> '0' <= s[i] <= '9' || s[i] == '_')
    && (forall i :: 0 < i < |s| ==> !(s[i - 1] == '_' && s[i] == '_'))
  }

  lemma PathShapedTail(s: string, k: nat)
    requires 0 < k < |s| && s[k - 1] == '_' && '0' <= s[0] <= '9' && k == 2
    ensures PathShaped(s) <==> PathShaped(s[2..])
  {
    var t := s[2..];
    assert forall i :: 0 <= i < |t| ==> t[i] == s[i + 2];
    if PathShaped(t) {
      assert s[|s| - 1] == t[|t| - 1];
      forall i | 0 <= i < |s| ensures '0' <= s[i] <= '9' || s[i] == '_' {
        if i >= 2 { assert s[i] == t[i - 2]; }
      }
      forall i | 0 < i < |s| ensures !(s[i - 1] == '_' && s[i] == '_') {
        if i >= 3 { assert s[i] == t[i - 2] && s[i - 1] == t[i - 3]; }
      }
    }
    if PathShaped(s) {
      assert t[|t| - 1] == s[|s| - 1];
    }
  }

  lemma PathShapedDigit(s: string)
    requires |s| > 1 && '0' <= s[0] <= '9' && s[1] != '_'
    ensures PathShaped(s) <==> PathShaped(s[1..])
  {
    var t := s[1..];
    assert forall i :: 0 <= i < |t| ==> t[i] == s[i + 1];
    if PathShaped(t) {
      assert s[|s| - 1] == t[|t| - 1];
      forall i | 0 <= i < |s| ensures '0' <= s[i] <= '9' || s[i] == '_' {
        if i >= 1 { assert s[i] == t[i - 1]; }
      }
      forall i | 0 < i < |s| ensures !(s[i - 1] == '_' && s[i] == '_') {
        if i >= 2 { assert s[i] == t[i - 1] && s[i - 1] == t[i - 2]; }
      }
    }
  }

  // A label is taken for a path exactly when it has that shape.
  lemma {:induction false} PathMeans(s: string)
    ensures IsDecimalTracePath(s) <==> PathShaped(s)
    decreases |s|
  {
    if s == "" {
      assert Split(s)[0] == "";
    } else if s[0] == '_' {
      assert Split(s)[0] == "";
    } else if |s| == 1 {
      SplitFirst(s);
      assert s[1..] == "" && Split(s[1..]) == [[]];
      assert Split(s)[0] == [s[0]] && |Split(s)| == 1 && s == [s[0]];
    } else if s[1] == '_' {
      PathMeansSplit(s);
    } else {
      PathMeans(s[1..]);
      SegmentsGrow(s);
      if IsDigit(s[0]) { PathShapedDigit(s); }
    }
  }

  // A digit before a digit grows the first segment.
  lemma SegmentsGrow(s: string)
    requires |s| > 1 && s[0] != '_' && s[1] != '_'
    ensures IsDecimalTracePath(s) <==> IsDigit(s[0]) && IsDecimalTracePath(s[1..])
  {
    var rest := Split(s[1..]);
    SplitFirst(s);
    SplitFirst(s[1..]);
    GrownSegment(s[0], rest[0]);
    if IsDecimalTracePath(s) {
      assert IsDecimal(Split(s)[0]);
      forall i | 0 <= i < |rest| ensures IsDecimal(rest[i]) { if i > 0 { assert IsDecimal(Split(s)[i]); } }
    }
    if IsDigit(s[0]) && IsDecimalTracePath(s[1..]) {
      assert IsDecimal(rest[0]);
      forall i | 0 <= i < |Split(s)| ensures IsDecimal(Split(s)[i]) { if i > 0 { assert IsDecimal(rest[i]); } }
    }
  }

  // The first character is in the first segment.
  lemma SplitFirst(s: string)
    requires s != "" && s[0] != '_'
    ensures var rest := Split(s[1..]);
      && |Split(s)| == |rest| && Split(s)[0] == [s[0]] + rest[0] && Split(s)[0] != ""
      && forall i :: 1 <= i < |rest| ==> Split(s)[i] == rest[i]
  {
  }

  lemma GrownSegment(c: char, s: string)
    requires s != ""
    ensures IsDecimal([c] + s) <==> IsDigit(c) && IsDecimal(s)
  {
    assert ([c] + s)[0] == c && forall i :: 0 <= i < |s| ==> ([c] + s)[i + 1] == s[i];
    if IsDecimal([c] + s) {
      forall i | 0 <= i < |s| ensures IsDigit(s[i]) { assert ([c] + s)[i + 1] == s[i]; }
    }
    if IsDigit(c) && IsDecimal(s) {
      forall i | 0 <= i < |[c] + s| ensures IsDigit(([c] + s)[i]) {
        if i > 0 { assert ([c] + s)[i] == s[i - 1]; }
      }
    }
  }

  // An underscore after the first place ends its segment.
  lemma PathMeansSplit(s: string)
    requires |s| > 1 && s[0] != '_' && s[1] == '_'
    ensures IsDecimalTracePath(s) <==> PathShaped(s)
    decreases |s|, 0
  {
    PathMeans(s[2..]);
    var rest := Split(s[2..]);
    assert s[1..][0] == '_' && s[1..][1..] == s[2..];
    assert Split(s[1..]) == [[]] + rest;
    SplitFirst(s);
    assert Split(s)[0] == [s[0]] + [] == [s[0]];
    assert forall i :: 0 <= i < |rest| ==> Split(s)[i + 1] == Split(s[1..])[i + 1] == rest[i];
    if IsDecimalTracePath(s) {
      assert IsDecimal(Split(s)[0]) && IsDigit([s[0]][0]);
      forall i | 0 <= i < |rest| ensures IsDecimal(rest[i]) { assert IsDecimal(Split(s)[i + 1]); }
    }
    if IsDigit(s[0]) && IsDecimalTracePath(s[2..]) {
      forall i | 0 <= i < |Split(s)| ensures IsDecimal(Split(s)[i]) { if i > 0 { assert IsDecimal(rest[i - 1]); } }
    }
    if |s| > 2 && IsDigit(s[0]) { PathShapedTail(s, 2); }
    if |s| == 2 { assert s[2..] == "" && s[|s| - 1] == '_'; }
  }

  // ------------------------------------------------------------------ call trees

  // The call tree of a transaction; children run in order.
  datatype Call = Call(children: seq<Call>)

  // Depth-first preorder of a tree: the path of every call, in execution order.
  function Preorder(t: Call, path: seq<nat>): seq<seq<nat>>
    decreases t, 0
  {
    [path] + PreorderFrom(t.children, path, 0)
  }

  function PreorderFrom(calls: seq<Call>, path: seq<nat>, k: nat): seq<seq<nat>>
    decreases calls, 1
  {
    if calls == [] then []
    else Preorder(calls[0], path + [k]) + PreorderFrom(calls[1..], path, k + 1)
  }

  // The two labelling schemes: an underscore path per call (Etherscan), or the ordinal of the
  // call in execution order (Blockscout).
  function Segments(path: seq<nat>): (parts: seq<string>)
    ensures |parts| == |path|
    ensures forall i :: 0 <= i < |path| ==> parts[i] == Digits(path[i])
  {
    seq(|path|, i requires 0 <= i < |path| => Digits(path[i]))
  }

  function PathLabel(path: seq<nat>): string
    requires path != []
  {
    Join(Segments(path))
  }

  function OrdinalLabel(n: nat): string { Digits(n) }

  // Paths as numbers: first difference decides, a prefix comes first.
  function CompareNumbers(p: seq<nat>, q: seq<nat>): int {
    if p == [] && q == [] then 0
    else if p == [] then -1
    else if q == [] then 1
    else if p[0] != q[0] then (if p[0] < q[0] then -1 else 1)
    else CompareNumbers(p[1..], q[1..])
  }

  lemma {:induction false} SegmentsCompareAsNumbers(p: seq<nat>, q: seq<nat>)
    ensures ComparePaths(Segments(p), Segments(q)) == CompareNumbers(p, q)
    decreases |p|
  {
    if p != [] && q != [] {
      ValueDigits(p[0]);
      ValueDigits(q[0]);
      assert Segments(p)[1..] == Segments(p[1..]) && Segments(q)[1..] == Segments(q[1..]);
      SegmentsCompareAsNumbers(p[1..], q[1..]);
    } else {
      assert p == [] ==> Segments(p) == [];
      assert q == [] ==> Segments(q) == [];
    }
  }

  lemma {:induction false} PathLabelsCompareAsNumbers(p: seq<nat>, q: seq<nat>)
    requires p != [] && q != []
    ensures IsDecimalTracePath(PathLabel(p))
    ensures CompareNumbers(p, q) != 0 ==> CompareLabels(PathLabel(p), PathLabel(q)) == CompareNumbers(p, q)
  {
    SplitJoin(Segments(p));
    SplitJoin(Segments(q));
    SegmentsCompareAsNumbers(p, q);
  }

  lemma {:induction false} ExtensionIsLater(p: seq<nat>, q: seq<nat>)
    requires p <= q && |p| < |q|
    ensures CompareNumbers(p, q) == -1
  {
    if p != [] { ExtensionIsLater(p[1..], q[1..]); }
  }

  lemma {:induction false} SiblingIsLater(path: seq<nat>, p: seq<nat>, q: seq<nat>)
    requires path <= p && path <= q && |path| < |p| && |path| < |q|
    requires p[|path|] < q[|path|]
    ensures CompareNumbers(p, q) == -1
  {
    if path != [] { SiblingIsLater(path[1..], p[1..], q[1..]); }
  }

  lemma {:induction false} PreorderPaths(t: Call, path: seq<nat>)
    ensures |Preorder(t, path)| > 0 && Preorder(t, path)[0] == path
    ensures forall i :: 0 <= i < |Preorder(t, path)| ==> path <= Preorder(t, path)[i]
    decreases t, 0
  {
    PreorderFromPaths(t.children, path, 0);
  }

  lemma {:induction false} PreorderFromPaths(calls: seq<Call>, path: seq<nat>, k: nat)
    ensures forall i :: 0 <= i < |PreorderFrom(calls, path, k)| ==>
      var p := PreorderFrom(calls, path, k)[i]; path <= p && |path| < |p| && p[|path|] >= k
    decreases calls, 1
  {
    if calls != [] {
      PreorderPaths(calls[0], path + [k]);
      PreorderFromPaths(calls[1..], path, k + 1);
      var first := Preorder(calls[0], path + [k]);
      forall i | 0 <= i < |PreorderFrom(calls, path, k)|
        ensures var p := PreorderFrom(calls, path, k)[i]; path <= p && |path| < |p| && p[|path|] >= k
      {
        if i < |first| {
          assert path + [k] <= first[i];
          assert first[i][..|path|] == (path + [k])[..|path|] == path;
          assert first[i][|path|] == (path + [k])[|path|];
        }
      }
    }
  }

  // Execution order is the order of paths.
  lemma {:induction false} PreorderIncreasing(t: Call, path: seq<nat>, i: nat, j: nat)
    requires i < j < |Preorder(t, path)|
    ensures CompareNumbers(Preorder(t, path)[i], Preorder(t, path)[j]) == -1
    decreases t, 0
  {
    PreorderFromPaths(t.children, path, 0);
    if i == 0 {
      ExtensionIsLater(path, Preorder(t, path)[j]);
    } else {
      PreorderFromIncreasing(t.children, path, 0, i - 1, j - 1);
    }
  }

  lemma {:induction false} PreorderFromIncreasing(calls: seq<Call>, path: seq<nat>, k: nat, i: nat, j: nat)
    requires i < j < |PreorderFrom(calls, path, k)|
    ensures CompareNumbers(PreorderFrom(calls, path, k)[i], PreorderFrom(calls, path, k)[j]) == -1
    decreases calls, 1
  {
    var first, rest := Preorder(calls[0], path + [k]), PreorderFrom(calls[1..], path, k + 1);
    if j < |first| {
      PreorderIncreasing(calls[0], path + [k], i, j);
    } else if i >= |first| {
      PreorderFromIncreasing(calls[1..], path, k + 1, i - |first|, j - |first|);
    } else {
      PreorderPaths(calls[0], path + [k]);
      PreorderFromPaths(calls[1..], path, k + 1);
      var p, q := first[i], rest[j - |first|];
      assert path + [k] <= p;
      assert p[..|path|] == (path + [k])[..|path|] == path;
      assert p[|path|] == (path + [k])[|path|];
      SiblingIsLater(path, p, q);
    }
  }

  lemma OrdinalLabelsCompareAsNumbers(i: nat, j: nat)
    ensures IsDecimalTracePath(OrdinalLabel(i))
    ensures CompareLabels(OrdinalLabel(i), OrdinalLabel(j)) == Sign(i - j)
  {
    ValueDigits(i);
    ValueDigits(j);
    SplitPlain(Digits(i));
    SplitPlain(Digits(j));
    CompareStrLaws(Digits(i), Digits(j));
    var p, q := Split(Digits(i)), Split(Digits(j));
    assert ComparePaths(p[1..], q[1..]) == 0;
    assert ComparePaths(p, q) == Sign(i - j);
  }

  // On any call tree both labelling schemes order any two calls the same way, and that way is
  // execution order. Only a root that is given the empty path has no path label.
  lemma LabellingSchemesAgree(t: Call, root: seq<nat>, i: nat, j: nat)
    requires i < |Preorder(t, root)| && j < |Preorder(t, root)|
    requires Preorder(t, root)[i] != [] && Preorder(t, root)[j] != []
    ensures CompareLabels(PathLabel(Preorder(t, root)[i]), PathLabel(Preorder(t, root)[j])) == Sign(i - j)
    ensures CompareLabels(OrdinalLabel(i), OrdinalLabel(j)) == Sign(i - j)
    ensures IsDecimalTracePath(PathLabel(Preorder(t, root)[i])) && IsDecimalTracePath(OrdinalLabel(i))
  {
    OrdinalLabelsCompareAsNumbers(i, j);
    var p, q := Preorder(t, root)[i], Preorder(t, root)[j];
    PathLabelsCompareAsNumbers(p, q);
    CompareLabelsTotalOrder(PathLabel(p), PathLabel(q), PathLabel(q));
    if i < j {
      PreorderIncreasing(t, root, i, j);
    } else if j < i {
      PreorderIncreasing(t, root, j, i);
      PathLabelsCompareAsNumbers(q, p);
    }
  }
}
