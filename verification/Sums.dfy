// Sums over finite sets, as SQL's `coalesce(sum(...), 0)` computes them.

module Sums {

  ghost function Pick<T(!new)>(s: set<T>): T
    requires s != {}
    ensures Pick(s) in s
  {
    var x :| x in s; x
  }

  ghost function SumOver<T(!new)>(s: set<T>, f: T -> int): int {
    if s == {} then 0 else f(Pick(s)) + SumOver(s - {Pick(s)}, f)
  }

  lemma {:induction false} SumOverAdd<T(!new)>(s: set<T>, f: T -> int, g: T -> int, h: T -> int)
    requires forall x :: x in s ==> h(x) == f(x) + g(x)
    ensures SumOver(s, h) == SumOver(s, f) + SumOver(s, g)
  {
    if s != {} { SumOverAdd(s - {Pick(s)}, f, g, h); }
  }

  lemma {:induction false} SumOverZero<T(!new)>(s: set<T>, f: T -> int)
    requires forall x :: x in s ==> f(x) == 0
    ensures SumOver(s, f) == 0
  {
    if s != {} { SumOverZero(s - {Pick(s)}, f); }
  }

  // A function that is non-zero at one element at most.
  lemma {:induction false} SumOverPoint<T(!new)>(s: set<T>, f: T -> int, x: T)
    requires forall y :: y in s && y != x ==> f(y) == 0
    ensures SumOver(s, f) == if x in s then f(x) else 0
  {
    if s != {} {
      if Pick(s) == x {
        SumOverZero(s - {x}, f);
      } else {
        SumOverPoint(s - {Pick(s)}, f, x);
      }
    }
  }

  lemma {:induction false} SumOverSame<T(!new)>(s: set<T>, f: T -> int, g: T -> int)
    requires forall x :: x in s ==> f(x) == g(x)
    ensures SumOver(s, f) == SumOver(s, g)
  {
    if s != {} { SumOverSame(s - {Pick(s)}, f, g); }
  }

  // The element taken out first does not matter.
  lemma {:induction false} SumOverRemove<T(!new)>(s: set<T>, f: T -> int, x: T)
    requires x in s
    ensures SumOver(s, f) == f(x) + SumOver(s - {x}, f)
  {
    var y := Pick(s);
    if y != x {
      SumOverRemove(s - {y}, f, x);
      SumOverRemove(s - {x}, f, y);
      assert s - {y} - {x} == s - {x} - {y};
    }
  }

  lemma {:induction false} SumOverNonNegative<T(!new)>(s: set<T>, f: T -> int)
    requires forall x :: x in s ==> f(x) >= 0
    ensures SumOver(s, f) >= 0
    ensures SumOver(s, f) == 0 <==> forall x :: x in s ==> f(x) == 0
  {
    if s != {} {
      SumOverNonNegative(s - {Pick(s)}, f);
      assert s == (s - {Pick(s)}) + {Pick(s)};
    }
  }
}
