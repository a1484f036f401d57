/** The function patterns of a symbol and the canvas they are drawn on (internal/qr/qr.go;
    section 6.3 and annex E of ISO/IEC 18004:2015). */
module QrSkeleton {
  import opened QrTables
  import QrBch

  /** What a function pattern leaves on a module. */
  datatype Mark = Free | Drawn(dark: bool)

  function Over(below: Mark, above: Mark): Mark {
    if above.Free? then below else above
  }

  function Size(v: nat): nat {
    4 * v + 17
  }

  // ---------------------------------------------------------------- the patterns

  function Apart(a: int, b: int): nat {
    if a < b then b - a else a - b
  }

  /** Distance in rings around a centre. */
  function Ring(r: int, c: int, centerRow: int, centerCol: int): nat {
    var dr, dc := Apart(r, centerRow), Apart(c, centerCol);
    if dr < dc then dc else dr
  }

  /** A finder pattern with its separator: a dark core, a light ring, a dark ring and a light one. */
  function FinderAt(baseRow: int, baseCol: int, r: int, c: int): Mark {
    var ring := Ring(r, c, baseRow + 3, baseCol + 3);
    if ring <= 4 then Drawn(ring <= 1 || ring == 3) else Free
  }

  /** An alignment pattern: a dark core, a light ring and a dark ring. */
  function PatternAt(centerRow: int, centerCol: int, r: int, c: int): Mark {
    var ring := Ring(r, c, centerRow, centerCol);
    if ring <= 2 then Drawn(ring != 1) else Free
  }

  predicate Corner(size: nat, r: int, c: int) {
    (r <= 8 && c <= 8) || (r <= 8 && c >= size - 9) || (r >= size - 9 && c <= 8)
  }

  /** The first `j` alignment patterns of a row of centres. */
  function RowAt(size: nat, centers: seq<int>, i: nat, j: nat, r: int, c: int): Mark
    requires i < |centers| && j <= |centers|
    decreases j
  {
    if j == 0 then Free
    else if Corner(size, centers[i], centers[j - 1]) then RowAt(size, centers, i, j - 1, r, c)
    else Over(RowAt(size, centers, i, j - 1, r, c), PatternAt(centers[i], centers[j - 1], r, c))
  }

  /** The alignment patterns of the first `i` rows of centres. */
  function AlignAt(size: nat, centers: seq<int>, i: nat, r: int, c: int): Mark
    requires i <= |centers|
    decreases i
  {
    if i == 0 then Free
    else Over(AlignAt(size, centers, i - 1, r, c), RowAt(size, centers, i - 1, |centers|, r, c))
  }

  /** The timing patterns up to coordinate `end`. */
  function TimingAt(end: int, r: int, c: int): Mark {
    if r == 6 && 8 <= c < end then Drawn(c % 2 == 0)
    else if c == 6 && 8 <= r < end then Drawn(r % 2 == 0)
    else Free
  }

  predicate FormatZone(size: nat, r: int, c: int) {
    (r == 8 && (0 <= c < 9 || size - 8 <= c < size)) || (c == 8 && (0 <= r < 9 || size - 8 <= r < size))
  }

  /** Which bit of the version word a module of either field shows, counted from the lowest; -1 for none. */
  function FieldIndex(near: int, r: int, c: int): int {
    if 0 <= r < 6 && near <= c < near + 3 then 3 * r + (c - near)
    else if 0 <= c < 6 && near <= r < near + 3 then 3 * c + (r - near)
    else -1
  }

  /** The first `n` bits of the version word in three columns and three rows from `near` on. */
  function FieldAt(word: seq<bool>, near: int, n: nat, r: int, c: int): Mark
    requires n <= |word|
  {
    if 0 <= FieldIndex(near, r, c) < n then Drawn(word[|word| - 1 - FieldIndex(near, r, c)]) else Free
  }

  /** The two version fields. */
  function VersionAt(v: nat, r: int, c: int): Mark {
    if v < 7 then Free else FieldAt(QrBch.VersionWord(v), Size(v) - 11, 18, r, c)
  }

  function FindersAt(size: nat, r: int, c: int): Mark {
    Over(Over(FinderAt(0, 0, r, c), FinderAt(0, size - 7, r, c)), FinderAt(size - 7, 0, r, c))
  }

  /** Finder, alignment and timing patterns and the dark module. */
  function PatternsAt(v: nat, r: int, c: int): Mark
    requires Version(v)
  {
    var size, centers := Size(v), Align(v);
    var aligned := Over(FindersAt(size, r, c), AlignAt(size, centers, |centers|, r, c));
    var timed := Over(aligned, TimingAt(size - 8, r, c));
    Over(timed, if r == size - 8 && c == 8 then Drawn(true) else Free)
  }

  /** The same with the format field reserved, light, where nothing else is drawn. */
  function ReservedAt(v: nat, r: int, c: int): Mark
    requires Version(v)
  {
    Over(if FormatZone(Size(v), r, c) then Drawn(false) else Free, PatternsAt(v, r, c))
  }

  /** Every function pattern. */
  function SkeletonAt(v: nat, r: int, c: int): Mark
    requires Version(v)
  {
    Over(ReservedAt(v, r, c), VersionAt(v, r, c))
  }

  // ---------------------------------------------------------------- drawing

  class Canvas {
    const size: nat
    const dark: array2<bool>
    const functional: array2<bool>

    ghost predicate Valid() {
      dark.Length0 == dark.Length1 == functional.Length0 == functional.Length1 == size && dark != functional
    }

    predicate Inside(r: int, c: int) {
      0 <= r < size && 0 <= c < size
    }

    ghost function At(r: int, c: int): Mark
      requires Valid() && Inside(r, c)
      reads dark, functional
    {
      if functional[r, c] then Drawn(dark[r, c]) else Free
    }

    /** The layer has been drawn over what was there. */
    twostate predicate Layered(above: (int, int) -> Mark)
      requires Valid()
      reads dark, functional
    {
      forall r, c :: Inside(r, c) ==> At(r, c) == Over(old(At(r, c)), above(r, c))
    }

    constructor (n: nat)
      ensures Valid() && size == n && fresh(dark) && fresh(functional)
      ensures forall r, c :: Inside(r, c) ==> At(r, c) == Free
    {
      size := n;
      dark := new bool[n, n]((r, c) => false);
      functional := new bool[n, n]((r, c) => false);
    }

    /** Draws one module; outside the symbol nothing happens. */
    method Set(row: int, col: int, v: bool)
      requires Valid()
      modifies dark, functional
      ensures Layered((r, c) => if r == row && c == col then Drawn(v) else Free)
    {
      if row < 0 || col < 0 || row >= size || col >= size {
        return;
      }
      dark[row, col] := v;
      functional[row, col] := true;
    }

    method Finder(baseRow: int, baseCol: int)
      requires Valid()
      modifies dark, functional
      ensures Layered((r, c) => FinderAt(baseRow, baseCol, r, c))
    {
      var dr := -1;
      while dr <= 7
        invariant -1 <= dr <= 8
        invariant Layered((r, c) => if r < baseRow + dr then FinderAt(baseRow, baseCol, r, c) else Free)
      {
        FinderRow(baseRow, baseCol, dr);
        dr := dr + 1;
      }
    }

    method FinderRow(baseRow: int, baseCol: int, dr: int)
      requires Valid() && -1 <= dr <= 7
      modifies dark, functional
      ensures Layered((r, c) => if r == baseRow + dr then FinderAt(baseRow, baseCol, r, c) else Free)
    {
      var dc := -1;
      while dc <= 7
        invariant -1 <= dc <= 8
        invariant Layered((r, c) => if r == baseRow + dr && c < baseCol + dc then FinderAt(baseRow, baseCol, r, c) else Free)
      {
        var on :=
          (dr >= 0 && dr <= 6 && (dc == 0 || dc == 6)) ||
          (dc >= 0 && dc <= 6 && (dr == 0 || dr == 6)) ||
          (dr >= 2 && dr <= 4 && dc >= 2 && dc <= 4);
        Set(baseRow + dr, baseCol + dc, on);
        dc := dc + 1;
      }
    }

    method Pattern(centerRow: int, centerCol: int)
      requires Valid()
      modifies dark, functional
      ensures Layered((r, c) => PatternAt(centerRow, centerCol, r, c))
    {
      var dr := -2;
      while dr <= 2
        invariant -2 <= dr <= 3
        invariant Layered((r, c) => if r < centerRow + dr then PatternAt(centerRow, centerCol, r, c) else Free)
      {
        PatternRow(centerRow, centerCol, dr);
        dr := dr + 1;
      }
    }

    method PatternRow(centerRow: int, centerCol: int, dr: int)
      requires Valid() && -2 <= dr <= 2
      modifies dark, functional
      ensures Layered((r, c) => if r == centerRow + dr then PatternAt(centerRow, centerCol, r, c) else Free)
    {
      var dc := -2;
      while dc <= 2
        invariant -2 <= dc <= 3
        invariant Layered((r, c) => if r == centerRow + dr && c < centerCol + dc then PatternAt(centerRow, centerCol, r, c) else Free)
      {
        var far := if Apart(dr, 0) < Apart(dc, 0) then Apart(dc, 0) else Apart(dr, 0);
        Set(centerRow + dr, centerCol + dc, far != 1);
        dc := dc + 1;
      }
    }

    /** The alignment patterns of one row of centres; the corners belong to the finder patterns. */
    method AlignRow(centers: seq<int>, i: nat)
      requires Valid() && i < |centers|
      modifies dark, functional
      ensures Layered((r, c) => RowAt(size, centers, i, |centers|, r, c))
    {
      var j: nat := 0;
      while j < |centers|
        invariant j <= |centers|
        invariant Layered((r, c) => RowAt(size, centers, i, j, r, c))
      {
        if !Corner(size, centers[i], centers[j]) {
          Pattern(centers[i], centers[j]);
        }
        j := j + 1;
      }
    }

    method Alignments(centers: seq<int>)
      requires Valid()
      modifies dark, functional
      ensures Layered((r, c) => AlignAt(size, centers, |centers|, r, c))
    {
      var i: nat := 0;
      while i < |centers|
        invariant i <= |centers|
        invariant Layered((r, c) => AlignAt(size, centers, i, r, c))
      {
        AlignRow(centers, i);
        i := i + 1;
      }
    }

    method Timing()
      requires Valid() && size >= 16
      modifies dark, functional
      ensures Layered((r, c) => TimingAt(size - 8, r, c))
    {
      var i := 8;
      while i < size - 8
        invariant 8 <= i <= size - 8
        invariant Layered((r, c) => TimingAt(i, r, c))
      {
        Set(6, i, i % 2 == 0);
        Set(i, 6, i % 2 == 0);
        i := i + 1;
      }
    }

    /** The layer has been drawn where nothing was. */
    twostate predicate Underlaid(below: (int, int) -> Mark)
      requires Valid()
      reads dark, functional
    {
      forall r, c :: Inside(r, c) ==> At(r, c) == Over(below(r, c), old(At(r, c)))
    }

    /** Reserves one module as light unless it is taken. */
    method ReserveOne(row: int, col: int)
      requires Valid() && Inside(row, col)
      modifies dark, functional
      ensures Underlaid((r, c) => if r == row && c == col then Drawn(false) else Free)
    {
      if !functional[row, col] {
        Set(row, col, false);
      }
    }

    /** Reserves the format field's modules with coordinates from `low` to `high`. */
    method ReserveSpan(low: nat, high: nat)
      requires Valid() && low <= high <= size && 8 < size
      modifies dark, functional
      ensures Underlaid((r, c) => if InSpan(low, high, r, c) then Drawn(false) else Free)
    {
      var i := low;
      while i < high
        invariant low <= i <= high
        invariant Underlaid((r, c) => if InSpan(low, i, r, c) then Drawn(false) else Free)
      {
        ReserveOne(8, i);
        ReserveOne(i, 8);
        i := i + 1;
      }
    }

    method Reserve()
      requires Valid() && 16 < size
      modifies dark, functional
      ensures Underlaid((r, c) => if FormatZone(size, r, c) then Drawn(false) else Free)
    {
      ReserveSpan(0, 9);
      ReserveSpan(size - 8, size);
    }

    /** Draws one bit of the version word in both fields. */
    method FieldBit(i: nat, on: bool)
      requires Valid() && i < 18 && 17 < size
      modifies dark, functional
      ensures Layered((r, c) => if FieldIndex(size - 11, r, c) == i then Drawn(on) else Free)
    {
      Set(i / 3, i % 3 + size - 11, on);
      Set(i % 3 + size - 11, i / 3, on);
    }

    method VersionFields(word: seq<bool>)
      requires Valid() && |word| == 18 && 17 < size
      modifies dark, functional
      ensures Layered((r, c) => FieldAt(word, size - 11, 18, r, c))
    {
      var i: nat := 0;
      while i < 18
        invariant i <= 18
        invariant Layered((r, c) => FieldAt(word, size - 11, i, r, c))
      {
        FieldBit(i, word[17 - i]);
        i := i + 1;
      }
    }
  }

  /** The format field's modules in row or column 8 with the other coordinate in a range. */
  predicate InSpan(low: int, high: int, r: int, c: int) {
    (r == 8 && low <= c < high) || (c == 8 && low <= r < high)
  }

  method Finders(size: nat) returns (m: Canvas)
    ensures fresh(m.dark) && fresh(m.functional) && m.Valid() && m.size == size
    ensures forall r, c :: m.Inside(r, c) ==> m.At(r, c) == FindersAt(size, r, c)
  {
    m := new Canvas(size);
    m.Finder(0, 0);
    m.Finder(0, size - 7);
    m.Finder(size - 7, 0);
  }

  method Patterns(v: nat) returns (m: Canvas)
    requires Version(v)
    ensures fresh(m.dark) && fresh(m.functional) && m.Valid() && m.size == Size(v)
    ensures forall r, c :: m.Inside(r, c) ==> m.At(r, c) == PatternsAt(v, r, c)
  {
    var size := Size(v);
    m := Finders(size);
    m.Alignments(Align(v));
    m.Timing();
    m.Set(size - 8, 8, true);
  }

  method Reserved(v: nat) returns (m: Canvas)
    requires Version(v)
    ensures fresh(m.dark) && fresh(m.functional) && m.Valid() && m.size == Size(v)
    ensures forall r, c :: m.Inside(r, c) ==> m.At(r, c) == ReservedAt(v, r, c)
  {
    m := Patterns(v);
    m.Reserve();
  }

  /** Adds a word's two fields. */
  method AddFields(m: Canvas, word: seq<bool>, ghost base: (int, int) -> Mark)
    requires m.Valid() && m.size > 17 && |word| == 18
    requires forall r, c :: m.Inside(r, c) ==> m.At(r, c) == base(r, c)
    modifies m.dark, m.functional
    ensures forall r, c :: m.Inside(r, c) ==> m.At(r, c) == Over(base(r, c), FieldAt(word, m.size - 11, 18, r, c))
  {
    m.VersionFields(word);
  }

  /** Adds the version fields, which versions below 7 do not have. */
  method AddVersion(m: Canvas, v: nat, ghost base: (int, int) -> Mark)
    requires Version(v) && m.Valid() && m.size == Size(v)
    requires forall r, c :: m.Inside(r, c) ==> m.At(r, c) == base(r, c)
    modifies m.dark, m.functional
    ensures forall r, c :: m.Inside(r, c) ==> m.At(r, c) == Over(base(r, c), VersionAt(v, r, c))
  {
    if v >= 7 {
      var word := QrBch.BchVersion(v);
      AddFields(m, word, base);
    }
  }

  /** The canvas with every function pattern of a version. */
  method Skeleton(v: nat) returns (m: Canvas)
    requires Version(v)
    ensures fresh(m.dark) && fresh(m.functional) && m.Valid() && m.size == Size(v)
    ensures forall r, c :: m.Inside(r, c) ==> m.At(r, c) == SkeletonAt(v, r, c)
  {
    m := Reserved(v);
    AddVersion(m, v, (r, c) => ReservedAt(v, r, c));
  }
}
