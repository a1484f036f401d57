/** Filling the data modules along the walk, and the format field (internal/qr/qr.go;
    sections 7.7 to 7.9 of ISO/IEC 18004:2015). */
module QrPlace {
  import QrBlocks
  import opened QrSkeleton
  import opened QrZigzag

  /** Bit `k` of a stream, which light modules follow. */
  function BitAt(stream: seq<bool>, k: nat): bool {
    k < |stream| && stream[k]
  }

  /** What placing the stream leaves on a data module. */
  function Placed(stream: seq<bool>, flip: (int, int) -> bool, cells: seq<Cell>, k: nat): bool
    requires k < |cells|
  {
    BitAt(stream, k) != flip(cells[k].row, cells[k].col)
  }

  /** The canvas shows the patterns, and the stream on the data modules walked so far. */
  ghost predicate Filled(m: Canvas, marks: (int, int) -> Mark, stream: seq<bool>, flip: (int, int) -> bool, cells: seq<Cell>)
    requires m.Valid()
    reads m.dark, m.functional
  {
    && (forall r, c :: m.Inside(r, c) ==> m.functional[r, c] == marks(r, c).Drawn?)
    && (forall r, c :: m.Inside(r, c) && marks(r, c).Drawn? ==> m.dark[r, c] == marks(r, c).dark)
    && (forall k :: 0 <= k < |cells| ==>
          m.Inside(cells[k].row, cells[k].col) && marks(cells[k].row, cells[k].col).Free? &&
          m.dark[cells[k].row, cells[k].col] == Placed(stream, flip, cells, k))
  }

  /** Fills one module unless a pattern occupies it. */
  method PlaceModule(m: Canvas, ghost marks: (int, int) -> Mark, stream: seq<bool>, flip: (int, int) -> bool,
      ghost cells: seq<Cell>, idx: nat, row: int, c: int)
    returns (next: nat, ghost more: seq<Cell>)
    requires m.Valid() && m.Inside(row, c) && Cell(row, c) !in cells
    requires Filled(m, marks, stream, flip, cells) && idx == QrBlocks.Least(|cells|, |stream|)
    modifies m.dark
    ensures more == cells + (if marks(row, c).Free? then [Cell(row, c)] else [])
    ensures Filled(m, marks, stream, flip, more) && next == QrBlocks.Least(|more|, |stream|)
  {
    next, more := idx, cells;
    if m.functional[row, c] {
      return;
    }
    var dark := false;
    if next < |stream| {
      dark := stream[next];
      next := next + 1;
    }
    if flip(row, c) {
      dark := !dark;
    }
    more := cells + [Cell(row, c)];
    m.dark[row, c] := dark;
  }

  /** The walk through `p` pairs and `t` rows of the next. */
  function Walked(size: nat, p: nat, t: nat): seq<Cell> {
    Pairs(size, p) + PairCells(size, p, t)
  }

  lemma {:induction false} WalkedEnds(size: nat, p: nat)
    ensures Walked(size, p, 0) == Pairs(size, p)
    ensures Walked(size, p, size) == Walked(size, p + 1, 0)
  {
  }

  lemma {:induction false} WalkedNext(size: nat, p: nat, t: nat)
    ensures Walked(size, p, t + 1) ==
      (Walked(size, p, t) + [Cell(RowOf(size, p, t), Right(size, p))]) + [Cell(RowOf(size, p, t), Right(size, p) - 1)]
  {
  }

  /** Steps of the walk up to row t of pair p do not lie in that row's two columns. */
  lemma {:induction false} AheadOfWalk(size: nat, p: nat, t: nat, x: Cell)
    requires size % 2 == 1 && size > 8 && t < size
    requires x == Cell(RowOf(size, p, t), Right(size, p)) || x == Cell(RowOf(size, p, t), Right(size, p) - 1)
    ensures !InPairs(size, p, x) && !InPair(size, p, t, x)
  {
  }

  lemma {:induction false} NotWalked(size: nat, p: nat, t: nat, x: Cell)
    requires size % 2 == 1 && size > 8 && !InPairs(size, p, x) && !InPair(size, p, t, x)
    ensures x !in Walked(size, p, t)
  {
    WalkMembers(size, p, x);
    PairMembers(size, p, t, x);
  }

  /** The walk has not been to the two modules of the next row. */
  lemma {:induction false} NextUnseen(size: nat, p: nat, t: nat)
    requires size % 2 == 1 && size > 8 && t < size
    ensures var s, row, col := Walked(size, p, t), RowOf(size, p, t), Right(size, p);
      Cell(row, col) !in s && Cell(row, col - 1) !in s + [Cell(row, col)]
  {
    var row, col := RowOf(size, p, t), Right(size, p);
    AheadOfWalk(size, p, t, Cell(row, col));
    NotWalked(size, p, t, Cell(row, col));
    AheadOfWalk(size, p, t, Cell(row, col - 1));
    NotWalked(size, p, t, Cell(row, col - 1));
  }

  /** Everything walked through is filled, and `idx` bits of the stream are used up. */
  ghost predicate Reached(m: Canvas, marks: (int, int) -> Mark, stream: seq<bool>, flip: (int, int) -> bool,
      walked: seq<Cell>, idx: nat)
    requires m.Valid()
    reads m.dark, m.functional
  {
    Filled(m, marks, stream, flip, DataCells(marks, walked)) && idx == QrBlocks.Least(|DataCells(marks, walked)|, |stream|)
  }

  /** Walks on to a module that has not been seen. */
  method WalkTo(m: Canvas, ghost marks: (int, int) -> Mark, stream: seq<bool>, flip: (int, int) -> bool,
      ghost walked: seq<Cell>, idx: nat, row: int, c: int)
    returns (next: nat)
    requires m.Valid() && m.Inside(row, c) && Cell(row, c) !in walked
    requires Reached(m, marks, stream, flip, walked, idx)
    modifies m.dark
    ensures Reached(m, marks, stream, flip, walked + [Cell(row, c)], next)
  {
    DataMembers(marks, walked, Cell(row, c));
    DataSnoc(marks, walked, Cell(row, c));
    ghost var cells;
    next, cells := PlaceModule(m, marks, stream, flip, DataCells(marks, walked), idx, row, c);
  }

  /** Fills the two modules of one row of a pair of columns. */
  method PlaceRow(m: Canvas, ghost marks: (int, int) -> Mark, stream: seq<bool>, flip: (int, int) -> bool,
      ghost p: nat, ghost t: nat, ghost walked: seq<Cell>, idx: nat, row: int, col: int)
    returns (next: nat, ghost more: seq<Cell>)
    requires m.Valid() && m.size % 2 == 1 && m.size > 8 && t < m.size
    requires row == RowOf(m.size, p, t) && col == Right(m.size, p) && 0 < col < m.size
    requires walked == Walked(m.size, p, t) && Reached(m, marks, stream, flip, walked, idx)
    modifies m.dark
    ensures more == Walked(m.size, p, t + 1) && Reached(m, marks, stream, flip, more, next)
  {
    NextUnseen(m.size, p, t);
    WalkedNext(m.size, p, t);
    next := WalkTo(m, marks, stream, flip, walked, idx, row, col);
    more := walked + [Cell(row, col)];
    next := WalkTo(m, marks, stream, flip, more, next, row, col - 1);
    more := more + [Cell(row, col - 1)];
  }

  /** Upwards in the first pair, downwards in the second, and so on. */
  function DirOf(p: nat): int {
    if p % 2 == 0 then -1 else 1
  }

  /** The last row turns the walk around, into the next pair. */
  lemma {:induction false} Turn(size: nat, p: nat, t: nat, row: int, dir: int)
    requires t < size && row == RowOf(size, p, t) && dir == DirOf(p)
    ensures row + dir < 0 || row + dir >= size <==> t + 1 == size
    ensures t + 1 < size ==> row + dir == RowOf(size, p, t + 1)
    ensures t + 1 == size ==> row == RowOf(size, p + 1, 0) && -dir == DirOf(p + 1)
  {
  }

  /** Fills one pair of columns, turning at its end. */
  method PlacePair(m: Canvas, ghost marks: (int, int) -> Mark, stream: seq<bool>, flip: (int, int) -> bool,
      ghost p: nat, ghost start: seq<Cell>, idx: nat, col: int, startRow: int, startDir: int)
    returns (next: nat, row: int, dir: int, ghost walked: seq<Cell>)
    requires m.Valid() && m.size % 2 == 1 && m.size > 8
    requires col == Right(m.size, p) && 0 < col < m.size
    requires startRow == RowOf(m.size, p, 0) && startDir == DirOf(p)
    requires start == Walked(m.size, p, 0) && Reached(m, marks, stream, flip, start, idx)
    modifies m.dark
    ensures row == RowOf(m.size, p + 1, 0) && dir == DirOf(p + 1)
    ensures walked == Walked(m.size, p, m.size) && Reached(m, marks, stream, flip, walked, next)
  {
    next, row, dir, walked := idx, startRow, startDir, start;
    ghost var t: nat := 0;
    while true
      invariant t < m.size && row == RowOf(m.size, p, t) && dir == startDir
      invariant walked == Walked(m.size, p, t) && Reached(m, marks, stream, flip, walked, next)
      decreases m.size - t
    {
      Turn(m.size, p, t, row, dir);
      next, walked := PlaceRow(m, marks, stream, flip, p, t, walked, next, row, col);
      row := row + dir;
      t := t + 1;
      if row < 0 || row >= m.size {
        row := row - dir;
        dir := -dir;
        break;
      }
    }
  }

  /** Column in which the p-th pass of the outer loop starts. */
  function StartCol(size: nat, p: nat): int {
    if size - 1 - 2 * p >= 6 then size - 1 - 2 * p else size - 2 - 2 * p
  }

  /** The outer loop passes through the pairs of columns from the right, over the sixth column. */
  lemma {:induction false} Pass(v: nat, size: nat, p: nat, col: int)
    requires size == Size(v) && p <= PairCount(v) && col == StartCol(size, p)
    ensures col > 0 <==> p < PairCount(v)
    ensures col > 0 ==> Right(size, p) == (if col == 6 then col - 1 else col) && 0 < Right(size, p) < size
    ensures col > 0 ==> StartCol(size, p + 1) == Right(size, p) - 2
  {
  }

  /** Where the outer loop stands before its p-th pass. */
  predicate Standing(v: nat, size: nat, p: nat, walked: seq<Cell>, col: int, row: int, dir: int) {
    && size == Size(v) && p <= PairCount(v) && col == StartCol(size, p) && row == RowOf(size, p, 0) && dir == DirOf(p)
    && walked == Walked(size, p, 0)
  }

  /** The sixth column is stepped over. */
  function Stepped(col: int): int {
    if col == 6 then col - 1 else col
  }

  lemma {:induction false} PassColumn(v: nat, size: nat, p: nat, col: int)
    requires size == Size(v) && p <= PairCount(v) && col == StartCol(size, p) && col > 0
    ensures size % 2 == 1 && size > 8 && Stepped(col) == Right(size, p) && 0 < Right(size, p) < size && Right(size, p) - 2 < col
  {
    assert size == 2 * (2 * v + 8) + 1;
    Pass(v, size, p, col);
  }

  lemma {:induction false} PassStarts(v: nat, size: nat, p: nat, walked: seq<Cell>, col: int, row: int, dir: int)
    requires Standing(v, size, p, walked, col, row, dir) && col > 0
    ensures size % 2 == 1 && size > 8 && Stepped(col) == Right(size, p) && 0 < Right(size, p) < size && Right(size, p) - 2 < col
  {
    PassColumn(v, size, p, col);
  }

  lemma {:induction false} NextPass(v: nat, size: nat, p: nat, walked: seq<Cell>, col: int, row: int, dir: int,
      more: seq<Cell>, nextRow: int, nextDir: int)
    requires Standing(v, size, p, walked, col, row, dir) && col > 0
    requires more == Walked(size, p, size) && nextRow == RowOf(size, p + 1, 0) && nextDir == DirOf(p + 1)
    ensures Standing(v, size, p + 1, more, Right(size, p) - 2, nextRow, nextDir)
  {
    Pass(v, size, p, col);
    WalkedEnds(size, p);
  }

  /** One pass of the outer loop. */
  method PassPair(m: Canvas, ghost v: nat, ghost marks: (int, int) -> Mark, stream: seq<bool>, flip: (int, int) -> bool,
      ghost p: nat, ghost walked: seq<Cell>, idx: nat, start: int, startRow: int, startDir: int)
    returns (next: nat, col: int, row: int, dir: int, ghost more: seq<Cell>)
    requires m.Valid() && start > 0 && Standing(v, m.size, p, walked, start, startRow, startDir)
    requires Reached(m, marks, stream, flip, walked, idx)
    modifies m.dark
    ensures col < start && Standing(v, m.size, p + 1, more, col, row, dir)
    ensures Reached(m, marks, stream, flip, more, next)
  {
    PassStarts(v, m.size, p, walked, start, startRow, startDir);
    next, row, dir, more := PlacePair(m, marks, stream, flip, p, walked, idx, Stepped(start), startRow, startDir);
    NextPass(v, m.size, p, walked, start, startRow, startDir, more, row, dir);
    col := Stepped(start) - 2;
  }

  lemma {:induction false} Begins(m: Canvas, v: nat, marks: (int, int) -> Mark, stream: seq<bool>, flip: (int, int) -> bool)
    requires m.Valid() && m.size == Size(v) && Filled(m, marks, stream, flip, [])
    ensures Standing(v, m.size, 0, [], m.size - 1, m.size - 1, -1) && Reached(m, marks, stream, flip, [], 0)
  {
    WalkedEnds(m.size, 0);
  }

  lemma {:induction false} Ends(v: nat, size: nat, p: nat, walked: seq<Cell>, col: int, row: int, dir: int)
    requires Standing(v, size, p, walked, col, row, dir) && col <= 0
    ensures walked == Walk(v)
  {
    Pass(v, size, p, col);
    WalkedEnds(size, p);
  }

  /** Fills every data module with the stream, in the order of the walk. */
  method PlaceStream(m: Canvas, ghost v: nat, ghost marks: (int, int) -> Mark, stream: seq<bool>, flip: (int, int) -> bool)
    requires m.Valid() && m.size == Size(v) && Filled(m, marks, stream, flip, [])
    modifies m.dark
    ensures Filled(m, marks, stream, flip, DataCells(marks, Walk(v)))
  {
    var idx: nat, row, dir, col := 0, m.size - 1, -1, m.size - 1;
    ghost var p: nat := 0;
    ghost var walked := [];
    Begins(m, v, marks, stream, flip);
    while col > 0
      invariant Standing(v, m.size, p, walked, col, row, dir) && Reached(m, marks, stream, flip, walked, idx)
      decreases col
    {
      idx, col, row, dir, walked := PassPair(m, v, marks, stream, flip, p, walked, idx, col, row, dir);
      p := p + 1;
    }
    Ends(v, m.size, p, walked, col, row, dir);
  }

  // ---------------------------------------------------------------- the format field

  /** Which bit of the format word a module of either copy shows, counted from the lowest; -1 for none. */
  function FormatIndex(size: nat, r: int, c: int): int {
    if c == 8 && 0 <= r < 6 then r
    else if c == 8 && 7 <= r < 9 then r - 1
    else if c == 8 && size - 7 <= r < size then r - (size - 15)
    else if r == 8 && size - 8 <= c < size then size - 1 - c
    else if r == 8 && c == 7 then 8
    else if r == 8 && 0 <= c < 6 then 14 - c
    else -1
  }

  /** Where the two copies show bit `i`. */
  function FirstCell(size: nat, i: nat): Cell {
    Cell(if i < 6 then i else if i < 8 then i + 1 else size - 15 + i, 8)
  }

  function SecondCell(size: nat, i: nat): Cell {
    Cell(8, if i < 8 then size - i - 1 else if i < 9 then 15 - i else 14 - i)
  }

  /** Both copies show every bit, and no module shows two. */
  lemma {:induction false} FormatCells(size: nat, r: int, c: int, i: nat)
    requires size >= 21 && i < 15
    ensures FormatIndex(size, r, c) == i <==> Cell(r, c) == FirstCell(size, i) || Cell(r, c) == SecondCell(size, i)
  {
  }

  /** Draws a bit of the format word in both copies. */
  method DrawBit(m: Canvas, i: nat, on: bool)
    requires m.Valid() && m.size >= 21 && i < 15
    modifies m.dark
    ensures forall r, c :: m.Inside(r, c) ==>
      m.dark[r, c] == if FormatIndex(m.size, r, c) == i then on else old(m.dark[r, c])
  {
    if i < 6 {
      m.dark[i, 8] := on;
    } else if i < 8 {
      m.dark[i + 1, 8] := on;
    } else {
      m.dark[m.size - 15 + i, 8] := on;
    }
    if i < 8 {
      m.dark[8, m.size - i - 1] := on;
    } else if i < 9 {
      m.dark[8, 15 - i] := on;
    } else {
      m.dark[8, 14 - i] := on;
    }
  }

  /** The first `n` bits of the format word over what was there. */
  twostate predicate FormatDrawn(m: Canvas, word: seq<bool>, n: nat)
    requires m.Valid() && |word| == 15 && n <= 15
    reads m.dark
  {
    forall r, c :: m.Inside(r, c) ==>
      m.dark[r, c] ==
        if 0 <= FormatIndex(m.size, r, c) < n then word[14 - FormatIndex(m.size, r, c)] else old(m.dark[r, c])
  }

  /** Draws both copies of the format word. */
  method DrawFormat(m: Canvas, word: seq<bool>)
    requires m.Valid() && |word| == 15 && m.size >= 21
    modifies m.dark
    ensures FormatDrawn(m, word, 15)
  {
    var i: nat := 0;
    while i < 15
      invariant i <= 15 && FormatDrawn(m, word, i)
    {
      DrawBit(m, i, word[14 - i]);
      i := i + 1;
    }
  }
}
