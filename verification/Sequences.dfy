// Facts about filtered, mapped and permuted sequences.

module Sequences {

  function Filter<T>(p: T -> bool, s: seq<T>): (r: seq<T>)
    ensures |r| <= |s|
  {
    if s == [] then []
    else if p(s[0]) then [s[0]] + Filter(p, s[1..])
    else Filter(p, s[1..])
  }

  function Map<T, U>(f: T -> U, s: seq<T>): (r: seq<U>)
    ensures |r| == |s|
    ensures forall i :: 0 <= i < |s| ==> r[i] == f(s[i])
  {
    seq(|s|, i requires 0 <= i < |s| => f(s[i]))
  }

  lemma {:induction false} FilterMembers<T(!new)>(p: T -> bool, s: seq<T>)
    ensures forall x :: x in Filter(p, s) <==> x in s && p(x)
  {
    if s != [] {
      FilterMembers(p, s[1..]);
      assert s == [s[0]] + s[1..];
    }
  }

  lemma ConcatAssociates<T>(a: seq<T>, b: seq<T>, c: seq<T>)
    ensures a + (b + c) == (a + b) + c
  {
  }

  lemma FilterHead<T>(p: T -> bool, s: seq<T>)
    requires s != []
    ensures Filter(p, s) == (if p(s[0]) then [s[0]] else []) + Filter(p, s[1..])
  {
  }

  lemma {:induction false} FilterConcat<T>(p: T -> bool, s: seq<T>, t: seq<T>)
    ensures Filter(p, s + t) == Filter(p, s) + Filter(p, t)
    decreases |s|
  {
    if s == [] {
      assert s + t == t;
    } else {
      var u, head := s + t, if p(s[0]) then [s[0]] else [];
      FilterHead(p, s);
      FilterHead(p, u);
      assert u[0] == s[0] && u[1..] == s[1..] + t;
      FilterConcat(p, s[1..], t);
      assert head + (Filter(p, s[1..]) + Filter(p, t)) == (head + Filter(p, s[1..])) + Filter(p, t);
    }
  }

  lemma {:induction false} FilterPush<T(!new)>(p: T -> bool, s: seq<T>, x: T)
    ensures Filter(p, s + [x]) == if p(x) then Filter(p, s) + [x] else Filter(p, s)
  {
    FilterConcat(p, s, [x]);
    assert Filter(p, [x]) == if p(x) then [x] else [];
  }

  lemma {:induction false} FilterMultiset<T(!new)>(p: T -> bool, s: seq<T>, x: T)
    ensures multiset(Filter(p, s))[x] == if p(x) then multiset(s)[x] else 0
  {
    if s != [] {
      FilterMultiset(p, s[1..], x);
      assert s == [s[0]] + s[1..];
    }
  }

  lemma FilterPermutation<T(!new)>(p: T -> bool, s: seq<T>, t: seq<T>)
    requires multiset(s) == multiset(t)
    ensures multiset(Filter(p, s)) == multiset(Filter(p, t))
  {
    forall x ensures multiset(Filter(p, s))[x] == multiset(Filter(p, t))[x] {
      FilterMultiset(p, s, x);
      FilterMultiset(p, t, x);
    }
  }

  lemma {:induction false} FilterFilter<T(!new)>(p: T -> bool, q: T -> bool, s: seq<T>)
    requires forall x :: x in s && p(x) ==> q(x)
    ensures Filter(p, Filter(q, s)) == Filter(p, s)
  {
    if s != [] {
      FilterFilter(p, q, s[1..]);
      if q(s[0]) {
        assert Filter(q, s)[1..] == Filter(q, s[1..]);
      }
    }
  }

  // Filtering what was mapped, as mapping what was filtered.
  lemma {:induction false} MapFilter<T(!new), U>(f: T -> U, p: U -> bool, q: T -> bool, s: seq<T>)
    requires forall x :: q(x) == p(f(x))
    ensures Filter(p, Map(f, s)) == Map(f, Filter(q, s))
    decreases |s|
  {
    if s != [] {
      MapFilter(f, p, q, s[1..]);
      assert Map(f, s)[1..] == Map(f, s[1..]);
    }
  }

  // Filtering twice, as filtering once.
  lemma {:induction false} FilterTwice<T(!new)>(p: T -> bool, q: T -> bool, pq: T -> bool, s: seq<T>)
    requires forall x :: pq(x) == (p(x) && q(x))
    ensures Filter(q, Filter(p, s)) == Filter(pq, s)
    decreases |s|
  {
    if s != [] {
      FilterTwice(p, q, pq, s[1..]);
      if p(s[0]) { assert Filter(p, s)[1..] == Filter(p, s[1..]); }
    }
  }

  // Equal multisets: every element of one is in the other, and the lengths agree.
  lemma PermutationFacts<T>(s: seq<T>, t: seq<T>)
    requires multiset(s) == multiset(t)
    ensures |s| == |t|
    ensures forall x :: x in s <==> x in t
  {
    assert |s| == |multiset(s)| == |multiset(t)| == |t|;
    forall x ensures x in s <==> x in t {
      assert x in s <==> x in multiset(s);
      assert x in t <==> x in multiset(t);
    }
  }

  // A filter that all elements pass, or none.
  lemma {:induction false} FilterAllOrNone<T>(p: T -> bool, s: seq<T>, keep: bool)
    requires forall x :: x in s ==> p(x) == keep
    ensures Filter(p, s) == if keep then s else []
  {
    if s != [] { FilterAllOrNone(p, s[1..], keep); }
  }

  function Take<T>(s: seq<T>, n: nat): seq<T> { if |s| <= n then s else s[..n] }

  function RemoveAt<T>(s: seq<T>, i: nat): seq<T>
    requires i < |s|
  {
    s[..i] + s[i + 1..]
  }

  lemma RemoveAtMultiset<T>(s: seq<T>, i: nat)
    requires i < |s|
    ensures multiset(RemoveAt(s, i)) == multiset(s) - multiset{s[i]}
  {
    assert s == s[..i] + [s[i]] + s[i + 1..];
  }

  lemma MapRemoveAt<T, U>(f: T -> U, s: seq<T>, i: nat)
    requires i < |s|
    ensures multiset(Map(f, s)) == multiset(Map(f, RemoveAt(s, i))) + multiset{f(s[i])}
  {
    var a, b := Map(f, s[..i]), Map(f, s[i + 1..]);
    assert Map(f, s) == a + [f(s[i])] + b;
    assert Map(f, RemoveAt(s, i)) == a + b;
  }

  lemma {:induction false} MapPermutation<T, U>(f: T -> U, s: seq<T>, t: seq<T>)
    requires multiset(s) == multiset(t)
    ensures multiset(Map(f, s)) == multiset(Map(f, t))
    decreases |s|
  {
    PermutationFacts(s, t);
    if s == [] {
      assert Map(f, s) == Map(f, t);
    } else {
      assert s[0] in s && s[0] in t;
      var i :| 0 <= i < |t| && t[i] == s[0];
      RemoveAtMultiset(t, i);
      RemoveAtMultiset(s, 0);
      MapPermutation(f, RemoveAt(s, 0), RemoveAt(t, i));
      MapRemoveAt(f, s, 0);
      MapRemoveAt(f, t, i);
    }
  }

  ghost predicate Distinct<T>(s: seq<T>) {
    forall i, j :: 0 <= i < j < |s| ==> s[i] != s[j]
  }

  function IndexOf<T(==)>(s: seq<T>, x: T): (i: nat)
    requires x in s
    ensures i < |s| && s[i] == x
  {
    if s[0] == x then 0 else 1 + IndexOf(s[1..], x)
  }

  function ToSet<T(!new)>(s: seq<T>): (r: set<T>)
    ensures forall x :: x in r <==> x in s
  {
    set x | x in s
  }

  // "new Set(s).size === s.length" says that no element repeats.
  lemma {:induction false} SetSize<T(!new)>(s: seq<T>)
    ensures |ToSet(s)| <= |s|
    ensures |ToSet(s)| == |s| <==> Distinct(s)
  {
    if s == [] {
      assert ToSet(s) == {};
    } else {
      var init, last := s[..|s| - 1], s[|s| - 1];
      SetSize(init);
      assert s == init + [last];
      assert ToSet(s) == ToSet(init) + {last};
      if last in init {
        var i :| 0 <= i < |init| && init[i] == last;
        assert s[i] == s[|s| - 1];
      }
    }
  }

  lemma {:induction false} DistinctCounts<T>(s: seq<T>)
    ensures Distinct(s) <==> forall x :: multiset(s)[x] <= 1
  {
    if s != [] {
      var rest := s[1..];
      DistinctCounts(rest);
      assert s == [s[0]] + rest;
      if Distinct(s) {
        assert s[0] !in rest;
      } else {
        var i, j :| 0 <= i < j < |s| && s[i] == s[j];
        if i == 0 {
          assert rest[j - 1] == s[0];
          assert multiset(s)[s[0]] >= 2;
        } else {
          assert rest[i - 1] == rest[j - 1];
          var x :| multiset(rest)[x] > 1;
          assert multiset(s)[x] > 1;
        }
      }
    }
  }

  lemma DistinctPermutation<T>(s: seq<T>, t: seq<T>)
    requires multiset(s) == multiset(t) && Distinct(s)
    ensures Distinct(t)
  {
    DistinctCounts(s);
    DistinctCounts(t);
  }

  lemma {:induction false} DistinctFilter<T(!new)>(p: T -> bool, s: seq<T>)
    requires Distinct(s)
    ensures Distinct(Filter(p, s))
  {
    DistinctCounts(s);
    DistinctCounts(Filter(p, s));
    forall x ensures multiset(Filter(p, s))[x] <= 1 {
      FilterMultiset(p, s, x);
    }
  }

  lemma {:induction false} SubsetSize<T>(a: set<T>, b: set<T>)
    requires a <= b
    ensures |a| <= |b|
  {
    if a != {} {
      var x :| x in a;
      SubsetSize(a - {x}, b - {x});
    }
  }

  // A list without repeats is no longer than one that has all its elements.
  lemma DistinctFits<T(!new)>(a: seq<T>, b: seq<T>)
    requires Distinct(a) && forall x :: x in a ==> x in b
    ensures |a| <= |b|
  {
    SetSize(a);
    SetSize(b);
    SubsetSize(ToSet(a), ToSet(b));
  }

  lemma IndexOfDistinct<T>(s: seq<T>, i: nat)
    requires Distinct(s) && i < |s|
    ensures IndexOf(s, s[i]) == i
  {
    var k := IndexOf(s, s[i]);
    assert s[k] == s[i];
  }

  // ------------------------------------------------------------------ sorting

  // Array.prototype.sort under a comparator: stable.
  function InsertBy<T>(less: (T, T) -> bool, x: T, s: seq<T>): (r: seq<T>)
    ensures multiset(r) == multiset(s) + multiset{x}
    ensures |r| == |s| + 1
    ensures r[0] == x || (s != [] && r[0] == s[0])
  {
    if s == [] then [x]
    else if less(x, s[0]) then [x] + s
    else
      var r := [s[0]] + InsertBy(less, x, s[1..]);
      assert s == [s[0]] + s[1..];
      r
  }

  function SortBy<T>(less: (T, T) -> bool, s: seq<T>): (r: seq<T>)
    ensures multiset(r) == multiset(s)
    ensures |r| == |s|
  {
    if s == [] then []
    else
      assert s == s[..|s| - 1] + [s[|s| - 1]];
      InsertBy(less, s[|s| - 1], SortBy(less, s[..|s| - 1]))
  }

  // A comparator that sort is defined for: asymmetric, and "not after" is transitive.
  ghost predicate Comparator<T(!new)>(less: (T, T) -> bool) {
    && (forall x, y :: less(x, y) ==> !less(y, x))
    && (forall x, y, z :: !less(y, x) && !less(z, y) ==> !less(z, x))
  }

  ghost predicate Ordered<T>(less: (T, T) -> bool, s: seq<T>) {
    forall i, j :: 0 <= i < j < |s| ==> !less(s[j], s[i])
  }

  lemma PrependOrdered<T(!new)>(less: (T, T) -> bool, x: T, s: seq<T>)
    requires Comparator(less) && Ordered(less, s) && (s != [] ==> !less(s[0], x))
    ensures Ordered(less, [x] + s)
  {
  }

  lemma {:induction false} InsertOrdered<T(!new)>(less: (T, T) -> bool, x: T, s: seq<T>)
    requires Comparator(less) && Ordered(less, s)
    ensures Ordered(less, InsertBy(less, x, s))
  {
    if s == [] {
    } else if less(x, s[0]) {
      PrependOrdered(less, x, s);
    } else {
      InsertOrdered(less, x, s[1..]);
      PrependOrdered(less, s[0], InsertBy(less, x, s[1..]));
    }
  }

  lemma {:induction false} SortOrdered<T(!new)>(less: (T, T) -> bool, s: seq<T>)
    requires Comparator(less)
    ensures Ordered(less, SortBy(less, s))
  {
    if s != [] {
      SortOrdered(less, s[..|s| - 1]);
      InsertOrdered(less, s[|s| - 1], SortBy(less, s[..|s| - 1]));
    }
  }

  lemma SortMembers<T>(less: (T, T) -> bool, s: seq<T>)
    ensures forall x :: x in SortBy(less, s) <==> x in s
  {
    PermutationFacts(SortBy(less, s), s);
  }

  lemma LeastIsFirst<T(!new)>(less: (T, T) -> bool, a: seq<T>, b: seq<T>, i: nat, j: nat)
    requires Separates(less) && Ordered(less, a) && Ordered(less, b)
    requires i < |a| && j < |b| && a[i] == b[0] && b[j] == a[0]
    ensures a[0] == b[0]
  {
    assert i > 0 ==> !less(a[i], a[0]);
    assert j > 0 ==> !less(b[j], b[0]);
  }

  lemma TailMultiset<T>(s: seq<T>)
    requires s != []
    ensures multiset(s[1..]) == multiset(s) - multiset{s[0]}
  {
    assert s == [s[0]] + s[1..];
  }

  lemma PositionIn<T>(s: seq<T>, t: seq<T>, x: T) returns (i: nat)
    requires multiset(s) == multiset(t) && x in s
    ensures i < |t| && t[i] == x
  {
    PermutationFacts(s, t);
    i :| i < |t| && t[i] == x;
  }

  ghost predicate Separates<T(!new)>(less: (T, T) -> bool) {
    forall x, y :: !less(x, y) && !less(y, x) ==> x == y
  }

  // A comparator that separates distinct elements leaves one way to sort a multiset.
  lemma {:induction false} SortingIsUnique<T(!new)>(less: (T, T) -> bool, a: seq<T>, b: seq<T>)
    requires Separates(less) && Ordered(less, a) && Ordered(less, b) && multiset(a) == multiset(b)
    ensures a == b
    decreases |a|
  {
    if a == [] {
      PermutationFacts(a, b);
    } else {
      PermutationFacts(a, b);
      var i := PositionIn(b, a, b[0]);
      var j := PositionIn(a, b, a[0]);
      LeastIsFirst(less, a, b, i, j);
      TailMultiset(a);
      TailMultiset(b);
      SortingIsUnique(less, a[1..], b[1..]);
      assert a == [a[0]] + a[1..] && b == [b[0]] + b[1..];
    }
  }

  lemma MapCons<T, U>(f: T -> U, x: T, s: seq<T>)
    ensures Map(f, [x] + s) == [f(x)] + Map(f, s)
  {
  }

  // Sorting commutes with a renaming that the comparator does not notice.
  lemma {:induction false} InsertMap<T, U>(f: T -> U, less: (T, T) -> bool, less': (U, U) -> bool, x: T, s: seq<T>)
    requires forall i :: 0 <= i < |s| ==> less(x, s[i]) == less'(f(x), f(s[i]))
    ensures InsertBy(less', f(x), Map(f, s)) == Map(f, InsertBy(less, x, s))
  {
    if s == [] {
      assert Map(f, s) == [] && Map(f, [x]) == [f(x)];
    } else {
      var t := Map(f, s);
      assert t[0] == f(s[0]) && t[1..] == Map(f, s[1..]);
      if less(x, s[0]) {
        MapCons(f, x, s);
      } else {
        InsertMap(f, less, less', x, s[1..]);
        MapCons(f, s[0], InsertBy(less, x, s[1..]));
      }
    }
  }

  lemma {:induction false} SortMap<T(!new), U>(f: T -> U, less: (T, T) -> bool, less': (U, U) -> bool, s: seq<T>)
    requires forall x, y :: x in s && y in s ==> less(x, y) == less'(f(x), f(y))
    ensures SortBy(less', Map(f, s)) == Map(f, SortBy(less, s))
  {
    if s != [] {
      var n := |s| - 1;
      var init := s[..n];
      assert Map(f, s)[..n] == Map(f, init);
      assert forall x :: x in init ==> x in s;
      SortMap(f, less, less', init);
      SortMembers(less, init);
      var sorted := SortBy(less, init);
      assert forall i :: 0 <= i < |sorted| ==> sorted[i] in sorted;
      InsertMap(f, less, less', s[n], sorted);
    }
  }
}
