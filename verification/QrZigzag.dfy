/** The order in which the data modules are filled (internal/qr/qr.go;
    section 7.7.3 of ISO/IEC 18004:2015). */
module QrZigzag {
  import opened QrSkeleton

  datatype Cell = Cell(row: int, col: int)

  /** Right column of the p-th pair from the right; the sixth column is stepped over. */
  function Right(size: nat, p: nat): int {
    if size - 1 - 2 * p > 6 then size - 1 - 2 * p else size - 2 - 2 * p
  }

  /** Row of step `t` in a pair: up and down in turns. */
  function RowOf(size: nat, p: nat, t: nat): int {
    if p % 2 == 0 then size - 1 - t else t
  }

  function PairCells(size: nat, p: nat, t: nat): (s: seq<Cell>)
    ensures |s| == 2 * t
  {
    if t == 0 then []
    else
      PairCells(size, p, t - 1) +
      [Cell(RowOf(size, p, t - 1), Right(size, p)), Cell(RowOf(size, p, t - 1), Right(size, p) - 1)]
  }

  function Pairs(size: nat, p: nat): (s: seq<Cell>) {
    if p == 0 then [] else Pairs(size, p - 1) + PairCells(size, p - 1, size)
  }

  function PairCount(v: nat): nat {
    2 * v + 8
  }

  /** Every module off the sixth column in the order of the walk. */
  function Walk(v: nat): seq<Cell> {
    Pairs(Size(v), PairCount(v))
  }

  // ---------------------------------------------------------------- every module once

  predicate InPair(size: nat, p: nat, t: nat, x: Cell) {
    && (x.col == Right(size, p) || x.col == Right(size, p) - 1)
    && (if p % 2 == 0 then size - t <= x.row < size else 0 <= x.row < t)
  }

  lemma {:induction false} PairMembers(size: nat, p: nat, t: nat, x: Cell)
    ensures x in PairCells(size, p, t) <==> InPair(size, p, t, x)
    decreases t
  {
    if t > 0 {
      PairMembers(size, p, t - 1, x);
    }
  }

  predicate Distinct<T(==)>(s: seq<T>) {
    forall i, j :: 0 <= i < j < |s| ==> s[i] != s[j]
  }

  lemma {:induction false} DistinctSnoc<T>(s: seq<T>, x: T)
    requires Distinct(s) && x !in s
    ensures Distinct(s + [x])
  {
  }

  lemma {:induction false} DistinctConcat<T>(a: seq<T>, b: seq<T>)
    requires Distinct(a) && Distinct(b) && forall x :: x in b ==> x !in a
    ensures Distinct(a + b)
  {
    forall i, j | 0 <= i < j < |a + b|
      ensures (a + b)[i] != (a + b)[j]
    {
      if i < |a| <= j {
        assert b[j - |a|] in b;
      }
    }
  }

  lemma {:induction false} PairDistinct(size: nat, p: nat, t: nat)
    ensures Distinct(PairCells(size, p, t))
    decreases t
  {
    if t > 0 {
      var before, row, col := PairCells(size, p, t - 1), RowOf(size, p, t - 1), Right(size, p);
      PairDistinct(size, p, t - 1);
      PairMembers(size, p, t - 1, Cell(row, col));
      PairMembers(size, p, t - 1, Cell(row, col - 1));
      DistinctSnoc(before, Cell(row, col));
      DistinctSnoc(before + [Cell(row, col)], Cell(row, col - 1));
      assert PairCells(size, p, t) == (before + [Cell(row, col)]) + [Cell(row, col - 1)];
    }
  }

  /** The columns of the first `p` pairs. */
  predicate InPairs(size: nat, p: nat, x: Cell) {
    0 <= x.row < size && x.col != 6 && x.col < size && (if p == 0 then false else x.col >= Right(size, p - 1) - 1)
  }

  lemma {:induction false} NextPair(size: nat, p: nat, x: Cell)
    requires size % 2 == 1 && size > 8
    ensures InPairs(size, p + 1, x) <==> InPairs(size, p, x) || InPair(size, p, size, x)
  {
  }

  predicate WalkHas(size: nat, p: nat, x: Cell) {
    x in Pairs(size, p) <==> InPairs(size, p, x)
  }

  lemma {:induction false} WalkHasNext(size: nat, p: nat, x: Cell)
    requires size % 2 == 1 && size > 8 && WalkHas(size, p, x)
    ensures WalkHas(size, p + 1, x)
  {
    PairMembers(size, p, size, x);
    NextPair(size, p, x);
  }

  lemma {:induction false} WalkMembers(size: nat, p: nat, x: Cell)
    requires size % 2 == 1 && size > 8
    ensures x in Pairs(size, p) <==> InPairs(size, p, x)
  {
    var i: nat := 0;
    while i < p
      invariant i <= p && WalkHas(size, i, x)
    {
      WalkHasNext(size, i, x);
      i := i + 1;
    }
  }

  lemma {:induction false} PairIsNew(size: nat, p: nat, x: Cell)
    requires size % 2 == 1 && size > 8 && x in PairCells(size, p, size)
    ensures x !in Pairs(size, p)
  {
    WalkMembers(size, p, x);
    PairMembers(size, p, size, x);
  }

  lemma {:induction false} DistinctNext(size: nat, p: nat)
    requires size % 2 == 1 && size > 8 && Distinct(Pairs(size, p))
    ensures Distinct(Pairs(size, p + 1))
  {
    PairDistinct(size, p, size);
    forall x | x in PairCells(size, p, size)
      ensures x !in Pairs(size, p)
    {
      PairIsNew(size, p, x);
    }
    DistinctConcat(Pairs(size, p), PairCells(size, p, size));
  }

  lemma {:induction false} WalkDistinct(size: nat, p: nat)
    requires size % 2 == 1 && size > 8
    ensures Distinct(Pairs(size, p))
  {
    var i: nat := 0;
    while i < p
      invariant i <= p && Distinct(Pairs(size, i))
    {
      DistinctNext(size, i);
      i := i + 1;
    }
  }

  lemma {:induction false} AllColumns(size: nat, p: nat, x: Cell)
    requires size == 2 * p + 1 && p > 4
    ensures InPairs(size, p, x) <==> 0 <= x.row < size && 0 <= x.col < size && x.col != 6
  {
    assert Right(size, p - 1) == 1;
  }

  /** The walk visits every module off the sixth column exactly once, and no others. */
  lemma {:induction false} WalkIsExact(v: nat, x: Cell)
    ensures Distinct(Walk(v))
    ensures x in Walk(v) <==> 0 <= x.row < Size(v) && 0 <= x.col < Size(v) && x.col != 6
  {
    WalkDistinct(Size(v), PairCount(v));
    WalkMembers(Size(v), PairCount(v), x);
    AllColumns(Size(v), PairCount(v), x);
  }

  /** `p` times `n`. */
  function Columns(p: nat, n: nat): nat {
    if p == 0 then 0 else Columns(p - 1, n) + n
  }

  lemma {:induction false} ColumnsIs(p: nat, n: nat)
    ensures Columns(p, n) == p * n
    decreases p
  {
    if p > 0 {
      ColumnsIs(p - 1, n);
      assert p * n == (p - 1) * n + n;
    }
  }

  lemma {:induction false} WalkLength(size: nat, p: nat)
    ensures |Pairs(size, p)| == Columns(p, 2 * size)
    decreases p
  {
    if p > 0 {
      WalkLength(size, p - 1);
    }
  }

  // ---------------------------------------------------------------- modules left for data

  /** The modules of `s` that no pattern occupies. */
  function DataCells(marks: (int, int) -> Mark, s: seq<Cell>): (cells: seq<Cell>) {
    if |s| == 0 then []
    else
      var x := s[|s| - 1];
      DataCells(marks, s[..|s| - 1]) + (if marks(x.row, x.col).Free? then [x] else [])
  }

  /** The modules of `s` that a pattern occupies. */
  function TakenCells(marks: (int, int) -> Mark, s: seq<Cell>): (cells: seq<Cell>) {
    if |s| == 0 then []
    else
      var x := s[|s| - 1];
      TakenCells(marks, s[..|s| - 1]) + (if marks(x.row, x.col).Free? then [] else [x])
  }

  lemma {:induction false} DataSnoc(marks: (int, int) -> Mark, s: seq<Cell>, x: Cell)
    ensures DataCells(marks, s + [x]) == DataCells(marks, s) + (if marks(x.row, x.col).Free? then [x] else [])
  {
    assert (s + [x])[..|s|] == s;
  }

  lemma {:induction false} DataMembers(marks: (int, int) -> Mark, s: seq<Cell>, x: Cell)
    ensures x in DataCells(marks, s) <==> x in s && marks(x.row, x.col).Free?
    ensures x in TakenCells(marks, s) <==> x in s && marks(x.row, x.col).Drawn?
    decreases |s|
  {
    if |s| > 0 {
      var k := |s| - 1;
      DataMembers(marks, s[..k], x);
      assert s == s[..k] + [s[k]];
    }
  }

  lemma {:induction false} DataDistinct(marks: (int, int) -> Mark, s: seq<Cell>)
    requires Distinct(s)
    ensures Distinct(DataCells(marks, s)) && Distinct(TakenCells(marks, s))
    ensures |DataCells(marks, s)| + |TakenCells(marks, s)| == |s|
    decreases |s|
  {
    if |s| > 0 {
      var k := |s| - 1;
      DataDistinct(marks, s[..k]);
      DataMembers(marks, s[..k], s[k]);
      if marks(s[k].row, s[k].col).Free? {
        DistinctSnoc(DataCells(marks, s[..k]), s[k]);
      } else {
        DistinctSnoc(TakenCells(marks, s[..k]), s[k]);
      }
    }
  }

  function IndexOf(s: seq<Cell>, x: Cell): (k: nat)
    requires x in s
    ensures k < |s| && s[k] == x
  {
    if s[|s| - 1] == x then |s| - 1 else
      assert s == s[..|s| - 1] + [s[|s| - 1]];
      IndexOf(s[..|s| - 1], x)
  }

  lemma {:induction false} IndexIsUnique(s: seq<Cell>, k: nat)
    requires Distinct(s) && k < |s|
    ensures IndexOf(s, s[k]) == k
  {
    assert forall i :: 0 <= i < |s| && i != k ==> s[i] != s[k];
  }
}
