// How many rows a window holds, and that a provider page is full exactly when they reach the limit.

module Windows {
  import opened Sequences
  import opened ChainModel

  // Σ f(b) over the n blocks from `from` on.
  function SumBlocks(f: nat -> nat, from: nat, n: nat): nat {
    if n == 0 then 0 else SumBlocks(f, from, n - 1) + f(from + n - 1)
  }

  lemma {:induction false} SumBlocksAtMost(f: nat -> nat, g: nat -> nat, from: nat, n: nat)
    requires forall b: nat :: from <= b < from + n ==> f(b) <= g(b)
    ensures SumBlocks(f, from, n) <= SumBlocks(g, from, n)
  {
    if n > 0 { SumBlocksAtMost(f, g, from, n - 1); }
  }

  lemma {:induction false} SumBlocksLonger(f: nat -> nat, from: nat, n: nat, m: nat)
    requires n <= m
    ensures SumBlocks(f, from, n) <= SumBlocks(f, from, m)
  {
    if n < m { SumBlocksLonger(f, from, n, m - 1); }
  }

  // One more in one block.
  lemma {:induction false} SumBlocksBump(f: nat -> nat, g: nat -> nat, from: nat, n: nat, at: nat)
    requires forall b: nat :: g(b) == f(b) + if b == at then 1 else 0
    ensures SumBlocks(g, from, n) == SumBlocks(f, from, n) + if from <= at < from + n then 1 else 0
  {
    if n > 0 { SumBlocksBump(f, g, from, n - 1, at); }
  }

  function CountAt<R>(blockOf: R -> nat, items: seq<R>): nat -> nat { (b: nat) => |AtBlock(blockOf, items, b)| }

  function RowsIn<R>(rowsAt: nat -> seq<R>): nat -> nat { (b: nat) => |rowsAt(b)| }

  // Rows counted block by block are all rows of the blocks counted.
  lemma {:induction false} CountsSum<R(!new)>(blockOf: R -> nat, items: seq<R>, from: nat, n: nat)
    requires forall r :: r in items ==> from <= blockOf(r) < from + n
    ensures SumBlocks(CountAt(blockOf, items), from, n) == |items|
    decreases |items|
  {
    if items == [] {
      NoneToSum(CountAt(blockOf, items), from, n);
    } else {
      var init, last := items[..|items| - 1], items[|items| - 1];
      assert items == init + [last];
      CountsSum(blockOf, init, from, n);
      forall b: nat
        ensures CountAt(blockOf, items)(b) == CountAt(blockOf, init)(b) + if b == blockOf(last) then 1 else 0 {
        FilterPush(OnBlock(blockOf, b), init, last);
      }
      SumBlocksBump(CountAt(blockOf, init), CountAt(blockOf, items), from, n, blockOf(last));
    }
  }

  lemma {:induction false} NoneToSum(f: nat -> nat, from: nat, n: nat)
    requires forall b: nat :: f(b) == 0
    ensures SumBlocks(f, from, n) == 0
  {
    if n > 0 { NoneToSum(f, from, n - 1); }
  }

  // The rows of the window [from, to].
  function WindowRows<R>(rowsAt: nat -> seq<R>, from: nat, to: int): nat {
    if to < from then 0 else SumBlocks(RowsIn(rowsAt), from, to - from + 1)
  }

  lemma MultisetSizes<R>(a: seq<R>, b: seq<R>)
    requires multiset(a) <= multiset(b)
    ensures |a| <= |b|
  {
    assert |multiset(b) - multiset(a)| == |multiset(b)| - |multiset(a)|;
  }

  lemma ItemsWithin<R(!new)>(rowsAt: nat -> seq<R>, blockOf: R -> nat, from: nat, to: int, items: seq<R>)
    requires IsPage(rowsAt, blockOf, from, to, items)
    ensures forall r :: r in items ==> from <= blockOf(r) <= to
    ensures items != [] ==> forall r :: r in items ==> blockOf(r) <= blockOf(items[|items| - 1])
  {
    forall r | r in items ensures from <= blockOf(r) <= to && blockOf(r) <= blockOf(items[|items| - 1]) {
      var i :| 0 <= i < |items| && items[i] == r;
    }
  }

  lemma ShortPageIsWindow<R(!new)>(rowsAt: nat -> seq<R>, blockOf: R -> nat, from: nat, to: int, items: seq<R>)
    requires IsPage(rowsAt, blockOf, from, to, items) && from <= to && |items| < PAGE_LIMIT
    ensures WindowRows(rowsAt, from, to) == |items|
  {
    var n := to - from + 1;
    ItemsWithin(rowsAt, blockOf, from, to, items);
    CountsSum(blockOf, items, from, n);
    forall b: nat | from <= b < from + n ensures CountAt(blockOf, items)(b) == RowsIn(rowsAt)(b) {
      PermutationFacts(AtBlock(blockOf, items, b), rowsAt(b));
    }
    SumBlocksAtMost(CountAt(blockOf, items), RowsIn(rowsAt), from, n);
    SumBlocksAtMost(RowsIn(rowsAt), CountAt(blockOf, items), from, n);
  }

  lemma FullPageFitsWindow<R(!new)>(rowsAt: nat -> seq<R>, blockOf: R -> nat, from: nat, to: int, items: seq<R>)
    requires IsPage(rowsAt, blockOf, from, to, items) && |items| == PAGE_LIMIT
    ensures from <= to && WindowRows(rowsAt, from, to) >= PAGE_LIMIT
  {
    ItemsWithin(rowsAt, blockOf, from, to, items);
    var last := blockOf(items[|items| - 1]);
    assert items[|items| - 1] in items;
    var n := last - from + 1;
    CountsSum(blockOf, items, from, n);
    forall b: nat | from <= b < from + n ensures CountAt(blockOf, items)(b) <= RowsIn(rowsAt)(b) {
      MultisetSizes(AtBlock(blockOf, items, b), rowsAt(b));
    }
    SumBlocksAtMost(CountAt(blockOf, items), RowsIn(rowsAt), from, n);
    SumBlocksLonger(RowsIn(rowsAt), from, n, to - from + 1);
  }

  // A page is full exactly when its window holds at least a page of rows.
  lemma PageFullIffWindow<R(!new)>(rowsAt: nat -> seq<R>, blockOf: R -> nat, from: nat, to: int, items: seq<R>)
    requires IsPage(rowsAt, blockOf, from, to, items) && from <= to
    ensures |items| == PAGE_LIMIT <==> WindowRows(rowsAt, from, to) >= PAGE_LIMIT
  {
    if |items| == PAGE_LIMIT {
      FullPageFitsWindow(rowsAt, blockOf, from, to, items);
    } else {
      ShortPageIsWindow(rowsAt, blockOf, from, to, items);
    }
  }

  // Counting does not look at the rows.
  lemma SameWindow<R, S>(rowsAt: nat -> seq<R>, other: nat -> seq<S>, from: nat, to: int)
    requires forall b: nat :: |rowsAt(b)| == |other(b)|
    ensures WindowRows(rowsAt, from, to) == WindowRows(other, from, to)
  {
    if from <= to {
      SumBlocksAtMost(RowsIn(rowsAt), RowsIn(other), from, to - from + 1);
      SumBlocksAtMost(RowsIn(other), RowsIn(rowsAt), from, to - from + 1);
    }
  }
}
