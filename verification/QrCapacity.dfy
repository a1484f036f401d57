/** Every version has room for its codewords: at least 8 modules a codeword are left by the
    function patterns (internal/qr/qr.go; section 7.1 of ISO/IEC 18004:2015). */
module QrCapacity {
  import opened QrTables
  import opened QrSkeleton
  import opened QrZigzag

  // ---------------------------------------------------------------- sizes of sets of modules

  /** `h` rows from `r0` on, `w` columns from `c0` on. */
  function Rect(r0: int, h: nat, c0: int, w: nat): set<Cell> {
    set r: int, c: int | r0 <= r < r0 + h && c0 <= c < c0 + w :: Cell(r, c)
  }

  lemma {:induction false} UnionSize(a: set<Cell>, b: set<Cell>)
    ensures |a + b| <= |a| + |b|
  {
    assert a + b == a + (b - a);
    assert b == (b - a) + (a * b);
  }

  lemma {:induction false} FourSizes(a: set<Cell>, b: set<Cell>, c: set<Cell>, d: set<Cell>, k: nat, l: nat, m: nat, n: nat)
    requires |a| <= k && |b| <= l && |c| <= m && |d| <= n
    ensures |a + b + c + d| <= k + l + m + n
  {
    UnionSize(a, b);
    UnionSize(a + b, c);
    UnionSize(a + b + c, d);
  }

  lemma {:induction false} LineSize(r: int, c0: int, w: nat)
    ensures |Rect(r, 1, c0, w)| <= w
    decreases w
  {
    if w == 0 {
      assert Rect(r, 1, c0, w) == {};
    } else {
      LineSize(r, c0, w - 1);
      assert Rect(r, 1, c0, w) == Rect(r, 1, c0, w - 1) + {Cell(r, c0 + (w - 1))};
    }
  }

  lemma {:induction false} RectSize(r0: int, h: nat, c0: int, w: nat)
    ensures |Rect(r0, h, c0, w)| <= h * w
    decreases h
  {
    if h == 0 {
      assert Rect(r0, h, c0, w) == {};
    } else {
      var before, line := Rect(r0, h - 1, c0, w), Rect(r0 + (h - 1), 1, c0, w);
      RectSize(r0, h - 1, c0, w);
      LineSize(r0 + (h - 1), c0, w);
      assert Rect(r0, h, c0, w) == before + line;
      UnionSize(before, line);
      assert h * w == (h - 1) * w + w;
    }
  }

  /** Different modules of a set are no more than the set has. */
  lemma {:induction false} DistinctWithin(s: seq<Cell>, area: set<Cell>)
    requires Distinct(s) && forall x :: x in s ==> x in area
    ensures |s| <= |area|
    decreases |s|
  {
    if |s| > 0 {
      var k := |s| - 1;
      assert forall i :: 0 <= i < k ==> s[i] != s[k];
      DistinctWithin(s[..k], area - {s[k]});
    }
  }

  // ---------------------------------------------------------------- alignment patterns

  /** Modules of an alignment pattern that are in neither timing line. */
  function PatternArea(cr: int, cc: int): set<Cell> {
    if cr == 6 then Rect(4, 2, cc - 2, 5) + Rect(7, 2, cc - 2, 5)
    else if cc == 6 then Rect(cr - 2, 5, 4, 2) + Rect(cr - 2, 5, 7, 2)
    else Rect(cr - 2, 5, cc - 2, 5)
  }

  lemma {:induction false} PatternAreaSize(cr: int, cc: int)
    ensures |PatternArea(cr, cc)| <= (if cr == 6 || cc == 6 then 20 else 25)
  {
    if cr == 6 {
      RectSize(4, 2, cc - 2, 5);
      RectSize(7, 2, cc - 2, 5);
      UnionSize(Rect(4, 2, cc - 2, 5), Rect(7, 2, cc - 2, 5));
    } else if cc == 6 {
      RectSize(cr - 2, 5, 4, 2);
      RectSize(cr - 2, 5, 7, 2);
      UnionSize(Rect(cr - 2, 5, 4, 2), Rect(cr - 2, 5, 7, 2));
    } else {
      RectSize(cr - 2, 5, cc - 2, 5);
    }
  }

  lemma {:induction false} PatternCovered(cr: int, cc: int, x: Cell)
    requires PatternAt(cr, cc, x.row, x.col).Drawn?
    ensures x.row == 6 || x.col == 6 || x in PatternArea(cr, cc)
  {
  }

  function RowArea(size: nat, centers: seq<int>, i: nat, j: nat): set<Cell>
    requires i < |centers| && j <= |centers|
  {
    if j == 0 then {}
    else if Corner(size, centers[i], centers[j - 1]) then RowArea(size, centers, i, j - 1)
    else RowArea(size, centers, i, j - 1) + PatternArea(centers[i], centers[j - 1])
  }

  function AlignArea(size: nat, centers: seq<int>, i: nat): set<Cell>
    requires i <= |centers|
  {
    if i == 0 then {} else AlignArea(size, centers, i - 1) + RowArea(size, centers, i - 1, |centers|)
  }

  lemma {:induction false} RowAreaCovers(size: nat, centers: seq<int>, i: nat, j: nat, x: Cell)
    requires i < |centers| && j <= |centers| && RowAt(size, centers, i, j, x.row, x.col).Drawn?
    ensures x.row == 6 || x.col == 6 || x in RowArea(size, centers, i, j)
    decreases j
  {
    if j > 0 {
      if RowAt(size, centers, i, j - 1, x.row, x.col).Drawn? {
        RowAreaCovers(size, centers, i, j - 1, x);
      } else {
        PatternCovered(centers[i], centers[j - 1], x);
      }
    }
  }

  lemma {:induction false} AlignAreaCovers(size: nat, centers: seq<int>, i: nat, x: Cell)
    requires i <= |centers| && AlignAt(size, centers, i, x.row, x.col).Drawn?
    ensures x.row == 6 || x.col == 6 || x in AlignArea(size, centers, i)
    decreases i
  {
    if i > 0 {
      if AlignAt(size, centers, i - 1, x.row, x.col).Drawn? {
        AlignAreaCovers(size, centers, i - 1, x);
      } else {
        RowAreaCovers(size, centers, i - 1, |centers|, x);
      }
    }
  }

  /** The first centre is on the timing lines, the others are not, and the last is next to the far edge. */
  predicate Spaced(size: nat, centers: seq<int>) {
    && |centers| >= 2 && centers[0] == 6 && centers[|centers| - 1] >= size - 9
    && forall i :: 0 < i < |centers| ==> centers[i] != 6
  }

  /** Modules of the first `j` patterns of row `i` among `n` rows of centres. */
  function RowBudget(n: nat, i: nat, j: nat): int {
    if i == 0 then (if j <= 1 then 0 else if j < n then 20 * (j - 1) else 20 * (n - 2))
    else if i == n - 1 then (if j <= 1 then 0 else 25 * (j - 1))
    else (if j == 0 then 0 else 20 + 25 * (j - 1))
  }

  function PatternBudget(size: nat, cr: int, cc: int): nat {
    if Corner(size, cr, cc) then 0 else if cr == 6 || cc == 6 then 20 else 25
  }

  lemma {:induction false} RowBudgetStep(size: nat, centers: seq<int>, i: nat, j: nat)
    requires Spaced(size, centers) && i < |centers| && j < |centers|
    ensures RowBudget(|centers|, i, j) + PatternBudget(size, centers[i], centers[j]) <= RowBudget(|centers|, i, j + 1)
  {
  }

  lemma {:induction false} RowAreaStep(size: nat, centers: seq<int>, i: nat, j: nat)
    requires i < |centers| && j < |centers|
    ensures |RowArea(size, centers, i, j + 1)| <= |RowArea(size, centers, i, j)| + PatternBudget(size, centers[i], centers[j])
  {
    PatternAreaSize(centers[i], centers[j]);
    UnionSize(RowArea(size, centers, i, j), PatternArea(centers[i], centers[j]));
  }

  lemma {:induction false} RowAreaSize(size: nat, centers: seq<int>, i: nat, j: nat)
    requires Spaced(size, centers) && i < |centers| && j <= |centers|
    ensures |RowArea(size, centers, i, j)| <= RowBudget(|centers|, i, j)
    decreases j
  {
    if j > 0 {
      RowAreaSize(size, centers, i, j - 1);
      RowAreaStep(size, centers, i, j - 1);
      RowBudgetStep(size, centers, i, j - 1);
    }
  }

  function AlignBudget(n: nat, i: nat): int {
    if i == 0 then 0 else AlignBudget(n, i - 1) + RowBudget(n, i - 1, n)
  }

  lemma {:induction false} AlignAreaSize(size: nat, centers: seq<int>, i: nat)
    requires Spaced(size, centers) && i <= |centers|
    ensures |AlignArea(size, centers, i)| <= AlignBudget(|centers|, i)
    decreases i
  {
    if i > 0 {
      AlignAreaSize(size, centers, i - 1);
      RowAreaSize(size, centers, i - 1, |centers|);
      UnionSize(AlignArea(size, centers, i - 1), RowArea(size, centers, i - 1, |centers|));
    }
  }

  // ---------------------------------------------------------------- the other patterns

  /** Finder patterns, format field and dark module off the sixth column. */
  function CornerArea(size: nat): set<Cell>
    requires size >= 21
  {
    Rect(0, 9, 0, 6) + Rect(0, 9, 7, 2) + Rect(0, 9, size - 8, 8) + Rect(size - 8, 8, 0, 6) + Rect(size - 8, 8, 7, 2)
  }

  lemma {:induction false} CornerAreaSize(size: nat)
    requires size >= 21
    ensures |CornerArea(size)| <= 208
  {
    var a, b, c, d, e := Rect(0, 9, 0, 6), Rect(0, 9, 7, 2), Rect(0, 9, size - 8, 8), Rect(size - 8, 8, 0, 6), Rect(size - 8, 8, 7, 2);
    RectSize(0, 9, 0, 6);
    RectSize(0, 9, 7, 2);
    RectSize(0, 9, size - 8, 8);
    RectSize(size - 8, 8, 0, 6);
    RectSize(size - 8, 8, 7, 2);
    UnionSize(a, b);
    UnionSize(a + b, c);
    UnionSize(a + b + c, d);
    UnionSize(a + b + c + d, e);
  }

  /** The horizontal timing line between the finder patterns. */
  function TimingArea(size: nat): set<Cell>
    requires size >= 21
  {
    Rect(6, 1, 9, size - 17)
  }

  function VersionArea(v: nat): set<Cell> {
    if v < 7 then {} else Rect(0, 6, Size(v) - 11, 3) + Rect(Size(v) - 11, 3, 0, 6)
  }

  lemma {:induction false} VersionAreaSize(v: nat)
    ensures |VersionArea(v)| <= (if v < 7 then 0 else 36)
  {
    if v >= 7 {
      RectSize(0, 6, Size(v) - 11, 3);
      RectSize(Size(v) - 11, 3, 0, 6);
      UnionSize(Rect(0, 6, Size(v) - 11, 3), Rect(Size(v) - 11, 3, 0, 6));
    }
  }

  lemma {:induction false} VersionCovered(v: nat, x: Cell)
    requires VersionAt(v, x.row, x.col).Drawn?
    ensures x in VersionArea(v)
  {
  }

  function TakenArea(v: nat): set<Cell>
    requires Version(v)
  {
    CornerArea(Size(v)) + TimingArea(Size(v)) + VersionArea(v) + AlignArea(Size(v), Align(v), |Align(v)|)
  }

  predicate OffSixth(v: nat, x: Cell) {
    0 <= x.row < Size(v) && 0 <= x.col < Size(v) && x.col != 6
  }

  lemma {:induction false} RowSixCovered(size: nat, x: Cell)
    requires size >= 21 && 0 <= x.row < size && 0 <= x.col < size && x.col != 6 && x.row == 6
    ensures x in CornerArea(size) + TimingArea(size)
  {
  }

  lemma {:induction false} CornersCovered(v: nat, x: Cell)
    requires Version(v) && OffSixth(v, x)
    requires FindersAt(Size(v), x.row, x.col).Drawn? || FormatZone(Size(v), x.row, x.col) || (x.row == Size(v) - 8 && x.col == 8)
    ensures x in CornerArea(Size(v))
  {
  }

  /** Which pattern occupies a module. */
  lemma {:induction false} WhoDraws(v: nat, x: Cell)
    requires Version(v) && OffSixth(v, x) && SkeletonAt(v, x.row, x.col).Drawn?
    ensures VersionAt(v, x.row, x.col).Drawn? || x.row == 6 || FindersAt(Size(v), x.row, x.col).Drawn?
      || FormatZone(Size(v), x.row, x.col) || (x.row == Size(v) - 8 && x.col == 8)
      || AlignAt(Size(v), Align(v), |Align(v)|, x.row, x.col).Drawn?
  {
  }

  lemma {:induction false} TakenCovered(v: nat, x: Cell)
    requires Version(v) && OffSixth(v, x) && SkeletonAt(v, x.row, x.col).Drawn?
    ensures x in TakenArea(v)
  {
    WhoDraws(v, x);
    if x.row == 6 {
      RowSixCovered(Size(v), x);
    } else if AlignAt(Size(v), Align(v), |Align(v)|, x.row, x.col).Drawn? {
      AlignAreaCovers(Size(v), Align(v), |Align(v)|, x);
    } else if VersionAt(v, x.row, x.col).Drawn? {
      VersionCovered(v, x);
    } else {
      CornersCovered(v, x);
    }
  }

  // ---------------------------------------------------------------- the room that is left

  /** The alignment patterns of a version are spaced, and v / 7 + 2 rows of them. */
  lemma {:induction false} EveryTableIsSpaced(v: nat)
    requires 2 <= v <= MAX_VERSION
    ensures Spaced(Size(v), Align(v)) && |Align(v)| == v / 7 + 2
  {
    if v <= 6 {
      SpacedTwo(v);
    } else if v <= 13 {
      SpacedThree(v);
    } else if v <= 20 {
      SpacedFour(v);
    } else if v <= 27 {
      SpacedFive(v);
    } else if v <= 34 {
      SpacedSix(v);
    } else {
      SpacedSeven(v);
    }
  }

  lemma {:induction false} SpacedTwo(v: nat)
    requires 2 <= v <= 6
    ensures Spaced(Size(v), TwoCenters(v)) && |TwoCenters(v)| == v / 7 + 2
  {
  }

  lemma {:induction false} SpacedThree(v: nat)
    requires 7 <= v <= 13
    ensures Spaced(Size(v), ThreeCenters(v)) && |ThreeCenters(v)| == v / 7 + 2
  {
  }

  lemma {:induction false} SpacedFour(v: nat)
    requires 14 <= v <= 20
    ensures Spaced(Size(v), FourCenters(v)) && |FourCenters(v)| == v / 7 + 2
  {
  }

  lemma {:induction false} SpacedFive(v: nat)
    requires 21 <= v <= 27
    ensures Spaced(Size(v), FiveCenters(v)) && |FiveCenters(v)| == v / 7 + 2
  {
  }

  lemma {:induction false} SpacedSix(v: nat)
    requires 28 <= v <= 34
    ensures Spaced(Size(v), SixCenters(v)) && |SixCenters(v)| == v / 7 + 2
  {
  }

  lemma {:induction false} SpacedSeven(v: nat)
    requires 35 <= v <= 40
    ensures Spaced(Size(v), SevenCenters(v)) && |SevenCenters(v)| == v / 7 + 2
  {
  }

  /** Alignment modules off the timing lines by the number of centres. */
  lemma {:induction false} AlignTotal(n: nat)
    ensures n == 2 ==> AlignBudget(n, n) == 25
    ensures n == 3 ==> AlignBudget(n, n) == 140
    ensures n == 4 ==> AlignBudget(n, n) == 305
    ensures n == 5 ==> AlignBudget(n, n) == 520
    ensures n == 6 ==> AlignBudget(n, n) == 785
    ensures n == 7 ==> AlignBudget(n, n) == 1100
  {
    assert AlignBudget(n, 0) == 0;
    if n == 2 {
      assert AlignBudget(n, 1) == RowBudget(n, 0, n);
    } else if n == 3 {
      assert AlignBudget(n, 2) == RowBudget(n, 0, n) + RowBudget(n, 1, n);
    } else if n == 4 {
      assert AlignBudget(n, 2) == RowBudget(n, 0, n) + RowBudget(n, 1, n);
      assert AlignBudget(n, 3) == 40 + 95 + 95;
    } else if n == 5 {
      assert AlignBudget(n, 2) == RowBudget(n, 0, n) + RowBudget(n, 1, n);
      assert AlignBudget(n, 4) == 60 + 120 + 120 + 120;
    } else if n == 6 {
      assert AlignBudget(n, 2) == RowBudget(n, 0, n) + RowBudget(n, 1, n);
      assert AlignBudget(n, 4) == 80 + 145 + 145 + 145;
    } else if n == 7 {
      assert AlignBudget(n, 2) == RowBudget(n, 0, n) + RowBudget(n, 1, n);
      assert AlignBudget(n, 4) == 100 + 170 + 170 + 170;
      assert AlignBudget(n, 6) == 100 + 170 + 170 + 170 + 170 + 170;
    }
  }

  /** Modules of the alignment patterns off the timing lines. */
  function AlignBound(v: nat): nat {
    if v == 1 then 0 else if v <= 6 then 25 else if v <= 13 then 140 else if v <= 20 then 305
    else if v <= 27 then 520 else if v <= 34 then 785 else 1100
  }

  /** Modules of the version fields. */
  function FieldBound(v: nat): nat {
    if v < 7 then 0 else 36
  }

  /** Modules off the sixth column that the patterns may occupy. */
  function TakenBound(v: nat): nat {
    208 + (Size(v) - 17) + FieldBound(v) + AlignBound(v)
  }

  lemma {:induction false} AlignedSize(v: nat)
    requires Version(v)
    ensures |AlignArea(Size(v), Align(v), |Align(v)|)| <= AlignBound(v)
  {
    if v == 1 {
      assert AlignArea(Size(v), Align(v), 0) == {};
    } else {
      EveryTableIsSpaced(v);
      AlignAreaSize(Size(v), Align(v), |Align(v)|);
      AlignTotal(v / 7 + 2);
    }
  }

  lemma {:induction false} TimingAreaSize(size: nat)
    requires size >= 21
    ensures |TimingArea(size)| <= size - 17
  {
    RectSize(6, 1, 9, size - 17);
  }

  lemma {:induction false} SizesOfAreas(v: nat)
    requires Version(v)
    ensures |CornerArea(Size(v))| <= 208 && |TimingArea(Size(v))| <= Size(v) - 17
    ensures |VersionArea(v)| <= FieldBound(v) && |AlignArea(Size(v), Align(v), |Align(v)|)| <= AlignBound(v)
  {
    CornerAreaSize(Size(v));
    TimingAreaSize(Size(v));
    VersionAreaSize(v);
    AlignedSize(v);
  }

  lemma {:induction false} TakenSize(v: nat)
    requires Version(v)
    ensures |TakenArea(v)| <= TakenBound(v)
  {
    SizesOfAreas(v);
    var a, b, c, d := CornerArea(Size(v)), TimingArea(Size(v)), VersionArea(v), AlignArea(Size(v), Align(v), |Align(v)|);
    FourSizes(a, b, c, d, 208, Size(v) - 17, FieldBound(v), AlignBound(v));
  }

  function WalkSize(v: nat): nat {
    Columns(PairCount(v), 2 * Size(v))
  }

  /** What the patterns leave holds all codewords of a version. */
  lemma {:induction false} RoomForCodewords(v: nat)
    requires Version(v)
    ensures WalkSize(v) - TakenBound(v) >= 8 * Total(v)
  {
    var n := PairCount(v) * (2 * Size(v));
    ColumnsIs(PairCount(v), 2 * Size(v));
    if v <= 10 {
      RoomUpTo10(v, n);
    } else if v <= 20 {
      RoomUpTo20(v, n);
    } else if v <= 30 {
      RoomUpTo30(v, n);
    } else {
      RoomUpTo40(v, n);
    }
  }

  lemma {:induction false} RoomUpTo10(v: nat, n: nat)
    requires 1 <= v <= 10 && n == PairCount(v) * (2 * Size(v))
    ensures n - TakenBound(v) >= 8 * Total(v)
  {
  }

  lemma {:induction false} RoomUpTo20(v: nat, n: nat)
    requires 11 <= v <= 20 && n == PairCount(v) * (2 * Size(v))
    ensures n - TakenBound(v) >= 8 * Total(v)
  {
  }

  lemma {:induction false} RoomUpTo30(v: nat, n: nat)
    requires 21 <= v <= 30 && n == PairCount(v) * (2 * Size(v))
    ensures n - TakenBound(v) >= 8 * Total(v)
  {
  }

  lemma {:induction false} RoomUpTo40(v: nat, n: nat)
    requires 31 <= v <= 40 && n == PairCount(v) * (2 * Size(v))
    ensures n - TakenBound(v) >= 8 * Total(v)
  {
  }

  lemma {:induction false} AllTakenCovered(v: nat, marks: (int, int) -> Mark, taken: seq<Cell>)
    requires Version(v) && forall r, c :: marks(r, c) == SkeletonAt(v, r, c)
    requires taken == TakenCells(marks, Walk(v))
    ensures forall x :: x in taken ==> x in TakenArea(v)
  {
    forall x | x in taken
      ensures x in TakenArea(v)
    {
      DataMembers(marks, Walk(v), x);
      WalkIsExact(v, x);
      TakenCovered(v, x);
    }
  }

  lemma {:induction false} FewTaken(v: nat, marks: (int, int) -> Mark, taken: seq<Cell>)
    requires Version(v) && forall r, c :: marks(r, c) == SkeletonAt(v, r, c)
    requires taken == TakenCells(marks, Walk(v)) && Distinct(taken)
    ensures |taken| <= TakenBound(v)
  {
    AllTakenCovered(v, marks, taken);
    DistinctWithin(taken, TakenArea(v));
    TakenSize(v);
  }

  lemma {:induction false} WalkHas(v: nat)
    ensures Distinct(Walk(v)) && |Walk(v)| == WalkSize(v)
  {
    WalkDistinct(Size(v), PairCount(v));
    WalkLength(Size(v), PairCount(v));
  }

  /** The modules left for data are at least 8 for every codeword. */
  lemma {:induction false} DataFits(v: nat, marks: (int, int) -> Mark)
    requires Version(v) && forall r, c :: marks(r, c) == SkeletonAt(v, r, c)
    ensures |DataCells(marks, Walk(v))| >= 8 * Total(v)
  {
    WalkHas(v);
    DataDistinct(marks, Walk(v));
    FewTaken(v, marks, TakenCells(marks, Walk(v)));
    RoomForCodewords(v);
  }
}
