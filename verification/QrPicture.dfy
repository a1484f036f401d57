/** A symbol as what each of its modules shows, and how a reader gets format and stream back
    (internal/qr/qr.go; sections 7.7 to 7.9 of ISO/IEC 18004:2015). */
module QrPicture {
  import opened QrSkeleton
  import opened QrZigzag
  import opened QrPlace

  /** Function patterns, data modules in the order of the walk, format word, stream and mask. */
  datatype Symbol = Symbol(size: nat, marks: (int, int) -> Mark, cells: seq<Cell>,
    word: seq<bool>, stream: seq<bool>, flip: (int, int) -> bool)

  predicate Inside(size: nat, r: int, c: int) {
    0 <= r < size && 0 <= c < size
  }

  /** The data modules are the unoccupied ones, each once; format field and dark module are occupied. */
  ghost predicate Proper(s: Symbol) {
    && |s.word| == 15 && s.size >= 21
    && s.marks(s.size - 8, 8) == Drawn(true)
    && (forall r, c :: Inside(s.size, r, c) && FormatIndex(s.size, r, c) >= 0 ==> s.marks(r, c).Drawn?)
    && Distinct(s.cells)
    && (forall x :: x in s.cells <==> Inside(s.size, x.row, x.col) && s.marks(x.row, x.col).Free?)
  }

  /** A module shows the format word, a function pattern, or the masked stream. */
  function ModuleAt(s: Symbol, r: int, c: int): bool
    requires |s.word| == 15
  {
    if FormatIndex(s.size, r, c) >= 0 then s.word[14 - FormatIndex(s.size, r, c)]
    else if s.marks(r, c).Drawn? then s.marks(r, c).dark
    else Cell(r, c) in s.cells && Placed(s.stream, s.flip, s.cells, IndexOf(s.cells, Cell(r, c)))
  }

  // ---------------------------------------------------------------- drawing

  /** The canvas shows the symbol. */
  ghost predicate Pictured(m: Canvas, s: Symbol)
    requires m.Valid()
    reads m.dark
  {
    && |s.word| == 15 && m.size == s.size
    && forall r, c :: m.Inside(r, c) ==> m.dark[r, c] == ModuleAt(s, r, c)
  }

  lemma {:induction false} FilledShows(m: Canvas, s: Symbol, r: int, c: int)
    requires Proper(s) && m.Valid() && m.size == s.size && m.Inside(r, c) && FormatIndex(m.size, r, c) < 0
    requires Filled(m, s.marks, s.stream, s.flip, s.cells)
    ensures m.dark[r, c] == ModuleAt(s, r, c)
  {
    assert Cell(r, c) in s.cells <==> s.marks(r, c).Free?;
    if Cell(r, c) in s.cells {
      var k := IndexOf(s.cells, Cell(r, c));
      assert s.cells[k] == Cell(r, c);
    }
  }

  /** Draws the format field and the dark module over a canvas that shows all the rest of a picture. */
  method DrawOver(m: Canvas, word: seq<bool>, ghost want: (int, int) -> bool)
    requires m.Valid() && |word| == 15 && m.size >= 21 && want(m.size - 8, 8)
    requires forall r, c :: m.Inside(r, c) ==>
               want(r, c) == if FormatIndex(m.size, r, c) >= 0 then word[14 - FormatIndex(m.size, r, c)] else m.dark[r, c]
    modifies m.dark
    ensures forall r, c :: m.Inside(r, c) ==> m.dark[r, c] == want(r, c)
  {
    DrawFormat(m, word);
    m.dark[m.size - 8, 8] := true;
  }

  lemma {:induction false} ShownSoFar(m: Canvas, s: Symbol, r: int, c: int)
    requires Proper(s) && m.Valid() && m.size == s.size && m.Inside(r, c)
    requires Filled(m, s.marks, s.stream, s.flip, s.cells)
    ensures ModuleAt(s, r, c) ==
      if FormatIndex(m.size, r, c) >= 0 then s.word[14 - FormatIndex(m.size, r, c)] else m.dark[r, c]
  {
    if FormatIndex(m.size, r, c) < 0 {
      FilledShows(m, s, r, c);
    }
  }

  lemma {:induction false} DarkModule(s: Symbol)
    requires Proper(s)
    ensures ModuleAt(s, s.size - 8, 8)
  {
    assert FormatIndex(s.size, s.size - 8, 8) < 0;
  }

  /** Draws what is missing over the filled canvas. */
  method Finish(m: Canvas, ghost s: Symbol, word: seq<bool>)
    requires Proper(s) && m.Valid() && m.size == s.size && word == s.word
    requires Filled(m, s.marks, s.stream, s.flip, s.cells)
    modifies m.dark
    ensures Pictured(m, s)
  {
    ghost var want := (r: int, c: int) => |s.word| == 15 && ModuleAt(s, r, c);
    DarkModule(s);
    forall r, c | m.Inside(r, c) {
      ShownSoFar(m, s, r, c);
    }
    DrawOver(m, word, want);
    assert forall r, c :: m.Inside(r, c) ==> want(r, c) == ModuleAt(s, r, c);
  }

  // ---------------------------------------------------------------- reading

  /** What a reader sees. */
  type Image = (int, int) -> bool

  ghost predicate Shows(image: Image, s: Symbol)
    requires |s.word| == 15
  {
    forall r, c :: Inside(s.size, r, c) ==> image(r, c) == ModuleAt(s, r, c)
  }

  /** The image shows the canvas. */
  ghost predicate Sees(image: Image, m: Canvas)
    requires m.Valid()
    reads m.dark
  {
    forall r, c :: m.Inside(r, c) ==> image(r, c) == m.dark[r, c]
  }

  lemma {:induction false} SeenIsShown(image: Image, m: Canvas, s: Symbol)
    requires m.Valid() && Sees(image, m) && Pictured(m, s)
    ensures Shows(image, s)
  {
    forall r, c | Inside(s.size, r, c)
      ensures image(r, c) == ModuleAt(s, r, c)
    {
      assert m.Inside(r, c);
    }
  }

  function ReadFormat(size: nat, image: Image): (word: seq<bool>)
    ensures |word| == 15
  {
    seq(15, j requires 0 <= j < 15 => image(FirstCell(size, 14 - j).row, FirstCell(size, 14 - j).col))
  }

  function ReadSecondFormat(size: nat, image: Image): (word: seq<bool>)
    ensures |word| == 15
  {
    seq(15, j requires 0 <= j < 15 => image(SecondCell(size, 14 - j).row, SecondCell(size, 14 - j).col))
  }

  /** The two version fields, the highest bit first. */
  function ReadVersion(size: nat, image: Image): (word: seq<bool>)
    ensures |word| == 18
  {
    seq(18, j requires 0 <= j < 18 => image((17 - j) / 3, (17 - j) % 3 + size - 11))
  }

  function ReadSecondVersion(size: nat, image: Image): (word: seq<bool>)
    ensures |word| == 18
  {
    seq(18, j requires 0 <= j < 18 => image((17 - j) % 3 + size - 11, (17 - j) / 3))
  }

  /** The symbol's patterns show a word in the two version fields. */
  ghost predicate HasFields(s: Symbol, field: seq<bool>)
    requires |field| == 18
  {
    forall r, c :: FieldAt(field, s.size - 11, 18, r, c).Drawn? ==> s.marks(r, c) == FieldAt(field, s.size - 11, 18, r, c)
  }

  lemma {:induction false} FieldModule(s: Symbol, field: seq<bool>, i: nat, r: int, c: int)
    requires Proper(s) && s.size >= 45 && |field| == 18 && i < 18 && HasFields(s, field)
    requires (r == i / 3 && c == i % 3 + s.size - 11) || (c == i / 3 && r == i % 3 + s.size - 11)
    ensures Inside(s.size, r, c) && ModuleAt(s, r, c) == field[17 - i]
  {
    assert FieldIndex(s.size - 11, r, c) == i;
    assert FieldAt(field, s.size - 11, 18, r, c) == Drawn(field[17 - i]);
  }

  /** Both version fields read as the version word. */
  lemma {:induction false} FieldBitIsRead(image: Image, s: Symbol, field: seq<bool>, j: nat)
    requires Proper(s) && s.size >= 45 && |field| == 18 && HasFields(s, field) && Shows(image, s) && j < 18
    ensures ReadVersion(s.size, image)[j] == field[j] == ReadSecondVersion(s.size, image)[j]
  {
    var i: nat := 17 - j;
    FieldModule(s, field, i, i / 3, i % 3 + s.size - 11);
    FieldModule(s, field, i, i % 3 + s.size - 11, i / 3);
  }

  lemma {:induction false} FieldsAreRead(image: Image, s: Symbol, field: seq<bool>)
    requires Proper(s) && s.size >= 45 && |field| == 18 && HasFields(s, field) && Shows(image, s)
    ensures ReadVersion(s.size, image) == field == ReadSecondVersion(s.size, image)
  {
    forall j | 0 <= j < 18
      ensures ReadVersion(s.size, image)[j] == field[j] == ReadSecondVersion(s.size, image)[j]
    {
      FieldBitIsRead(image, s, field, j);
    }
  }

  /** The data modules without their mask. */
  function Unmasked(cells: seq<Cell>, image: Image, flip: (int, int) -> bool): (bits: seq<bool>)
    ensures |bits| == |cells|
  {
    seq(|cells|, k requires 0 <= k < |cells| => image(cells[k].row, cells[k].col) != flip(cells[k].row, cells[k].col))
  }

  lemma {:induction false} FormatModule(s: Symbol, x: Cell, i: nat)
    requires |s.word| == 15 && s.size >= 21 && i < 15 && (x == FirstCell(s.size, i) || x == SecondCell(s.size, i))
    ensures Inside(s.size, x.row, x.col) && ModuleAt(s, x.row, x.col) == s.word[14 - i]
  {
    FormatCells(s.size, x.row, x.col, i);
  }

  /** Both copies of the format field show the format word. */
  lemma {:induction false} FormatIsRead(image: Image, s: Symbol)
    requires Proper(s) && Shows(image, s)
    ensures ReadFormat(s.size, image) == s.word == ReadSecondFormat(s.size, image)
  {
    forall j | 0 <= j < 15
      ensures ReadFormat(s.size, image)[j] == s.word[j] == ReadSecondFormat(s.size, image)[j]
    {
      FormatModule(s, FirstCell(s.size, 14 - j), 14 - j);
      FormatModule(s, SecondCell(s.size, 14 - j), 14 - j);
    }
  }

  /** Walking the symbol and unmasking returns the stream, untouched by the format field,
      and light modules after it. */
  lemma {:induction false} BitIsRead(image: Image, s: Symbol, k: nat)
    requires Proper(s) && Shows(image, s) && k < |s.cells|
    ensures Unmasked(s.cells, image, s.flip)[k] == BitAt(s.stream, k)
  {
    var x := s.cells[k];
    assert x in s.cells;
    IndexIsUnique(s.cells, k);
  }

  lemma {:induction false} StreamIsRead(image: Image, s: Symbol)
    requires Proper(s) && Shows(image, s) && |s.stream| <= |s.cells|
    ensures Unmasked(s.cells, image, s.flip)[..|s.stream|] == s.stream
  {
    forall k | 0 <= k < |s.stream|
      ensures Unmasked(s.cells, image, s.flip)[k] == s.stream[k]
    {
      BitIsRead(image, s, k);
    }
  }
}
