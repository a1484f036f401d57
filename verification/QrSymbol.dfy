/** A text as a QR symbol and a reader that gets the text back (internal/qr/qr.go;
    section 7.1 of ISO/IEC 18004:2015). */
module QrSymbol {
  import opened Options
  import opened QrField
  import opened QrReedSolomon
  import opened QrTables
  import QrBch
  import QrBlocks
  import QrStream
  import QrEncoder
  import opened QrSkeleton
  import opened QrZigzag
  import QrPlace
  import opened QrPicture
  import QrCapacity

  /** The eight data masks. */
  function MaskFn(mask: nat, row: int, col: int): bool {
    if mask == 0 then (row + col) % 2 == 0
    else if mask == 1 then row % 2 == 0
    else if mask == 2 then col % 3 == 0
    else if mask == 3 then (row + col) % 3 == 0
    else if mask == 4 then (row / 2 + col / 3) % 2 == 0
    else if mask == 5 then (row * col) % 2 + (row * col) % 3 == 0
    else if mask == 6 then ((row * col) % 2 + (row * col) % 3) % 2 == 0
    else ((row + col) % 2 + (row * col) % 3) % 2 == 0
  }

  function Flip(mask: nat): (int, int) -> bool {
    (r, c) => MaskFn(mask, r, c)
  }

  function Marks(v: nat): (int, int) -> Mark
    requires Version(v)
  {
    (r, c) => SkeletonAt(v, r, c)
  }

  /** The data modules of a version in the order of the walk. */
  function Cells(v: nat): seq<Cell>
    requires Version(v)
  {
    DataCells(Marks(v), Walk(v))
  }

  function SymbolOf(v: nat, mask: nat, stream: seq<bool>): (s: Symbol)
    requires Version(v)
    ensures |s.word| == 15 && s.size == Size(v)
  {
    Symbol(Size(v), Marks(v), Cells(v), QrBch.FormatWord(mask), stream, Flip(mask))
  }

  // ---------------------------------------------------------------- facts about the patterns

  lemma {:induction false} FormatIsReserved(v: nat, r: int, c: int)
    requires Version(v) && Inside(Size(v), r, c) && QrPlace.FormatIndex(Size(v), r, c) >= 0
    ensures SkeletonAt(v, r, c).Drawn?
  {
  }

  lemma {:induction false} DarkModuleIsDrawn(v: nat)
    requires Version(v)
    ensures SkeletonAt(v, Size(v) - 8, 8) == Drawn(true)
  {
  }

  lemma {:induction false} SixthIsDrawn(v: nat, r: int)
    requires Version(v) && 0 <= r < Size(v)
    ensures SkeletonAt(v, r, 6).Drawn?
  {
  }

  /** Every module that no pattern occupies is filled exactly once, and no others. */
  lemma {:induction false} DataModulesOnce(v: nat, x: Cell)
    requires Version(v)
    ensures Distinct(Cells(v))
    ensures x in Cells(v) <==> Inside(Size(v), x.row, x.col) && SkeletonAt(v, x.row, x.col).Free?
  {
    WalkIsExact(v, x);
    DataDistinct(Marks(v), Walk(v));
    DataMembers(Marks(v), Walk(v), x);
    if 0 <= x.row < Size(v) {
      SixthIsDrawn(v, x.row);
    }
  }

  /** The patterns of every version leave the format field and the data modules apart. */
  lemma {:induction false} EverySymbolIsProper(v: nat, mask: nat, stream: seq<bool>)
    requires Version(v)
    ensures Proper(SymbolOf(v, mask, stream))
  {
    var s := SymbolOf(v, mask, stream);
    DarkModuleIsDrawn(v);
    forall r, c | Inside(s.size, r, c) && QrPlace.FormatIndex(s.size, r, c) >= 0
      ensures s.marks(r, c).Drawn?
    {
      FormatIsReserved(v, r, c);
    }
    DataModulesOnce(v, Cell(0, 0));
    forall x
      ensures x in s.cells <==> Inside(s.size, x.row, x.col) && s.marks(x.row, x.col).Free?
    {
      DataModulesOnce(v, x);
    }
  }

  // ---------------------------------------------------------------- drawing

  /** Draws the patterns, the masked stream and the format field. */
  method Place(v: nat, stream: seq<bool>, mask: nat) returns (m: Canvas)
    requires Version(v) && mask < 8
    ensures fresh(m.dark) && fresh(m.functional) && m.Valid() && Pictured(m, SymbolOf(v, mask, stream))
  {
    EverySymbolIsProper(v, mask, stream);
    m := Skeleton(v);
    QrPlace.PlaceStream(m, v, Marks(v), stream, Flip(mask));
    var word := QrBch.BchFormat(mask);
    Finish(m, SymbolOf(v, mask, stream), word);
  }

  // ---------------------------------------------------------------- reading

  /** The text of a symbol of version `v` whose format field and blocks all are codewords. */
  function Read(v: nat, image: Image): Option<seq<Byte>>
    requires Version(v)
  {
    var word := ReadFormat(Size(v), image);
    if word != QrBch.FormatWord(QrBch.MaskOf(word)) then None
    else ReadData(LayoutOf(v), Unmasked(Cells(v), image, Flip(QrBch.MaskOf(word))))
  }

  function ReadData(l: Layout, bits: seq<bool>): Option<seq<Byte>> {
    if l.blocks == 0 || |bits| < QrStream.Width(l) then None else QrStream.Decode(l, bits[..QrStream.Width(l)])
  }

  lemma {:induction false} WidthIsTotal(v: nat, l: Layout)
    requires Version(v) && l == LayoutOf(v)
    ensures QrStream.Width(l) == 8 * Total(v)
  {
    EveryLayoutIsSound(v);
    QrStream.WidthSum(l, Total(v));
  }

  /** The modules left by the patterns of a version hold its stream. */
  lemma {:induction false} RoomForStream(v: nat)
    requires Version(v)
    ensures |Cells(v)| >= QrStream.Width(LayoutOf(v))
  {
    WidthIsTotal(v, LayoutOf(v));
    QrCapacity.DataFits(v, Marks(v));
  }

  lemma {:induction false} SkeletonHasFields(v: nat, field: seq<bool>, r: int, c: int)
    requires 7 <= v <= MAX_VERSION && field == QrBch.VersionWord(v)
    ensures FieldAt(field, Size(v) - 11, 18, r, c).Drawn? ==> SkeletonAt(v, r, c) == FieldAt(field, Size(v) - 11, 18, r, c)
  {
  }

  lemma {:induction false} SymbolHasFields(s: Symbol, v: nat, field: seq<bool>)
    requires 7 <= v <= MAX_VERSION && field == QrBch.VersionWord(v) && s.size == Size(v) && s.marks == Marks(v)
    ensures HasFields(s, field)
  {
    forall r, c | FieldAt(field, s.size - 11, 18, r, c).Drawn?
      ensures s.marks(r, c) == FieldAt(field, s.size - 11, 18, r, c)
    {
      SkeletonHasFields(v, field, r, c);
    }
  }

  lemma {:induction false} FieldsOfVersion(image: Image, s: Symbol, v: nat, field: seq<bool>)
    requires 7 <= v <= MAX_VERSION && field == QrBch.VersionWord(v) && s.size == Size(v) && s.marks == Marks(v)
    requires Proper(s) && Shows(image, s)
    ensures ReadVersion(s.size, image) == field == ReadSecondVersion(s.size, image)
  {
    SymbolHasFields(s, v, field);
    FieldsAreRead(image, s, field);
  }

  /** From version 7 on both version fields of a symbol read as the word that names its version. */
  lemma {:induction false} VersionIsNamed(image: Image, v: nat, mask: nat, stream: seq<bool>)
    requires 7 <= v <= MAX_VERSION && Shows(image, SymbolOf(v, mask, stream))
    ensures ReadVersion(Size(v), image) == ReadSecondVersion(Size(v), image)
    ensures QrBch.Number(ReadVersion(Size(v), image)[..6]) == v
  {
    EverySymbolIsProper(v, mask, stream);
    FieldsOfVersion(image, SymbolOf(v, mask, stream), v, QrBch.VersionWord(v));
    QrBch.VersionIsRead(v);
  }

  lemma {:induction false} DataReads(l: Layout, bits: seq<bool>, stream: seq<bool>, text: seq<Byte>)
    requires Sound(l) && Fits(l, |text|) && stream == QrStream.Stream(l, text)
    requires |stream| <= |bits| && bits[..|stream|] == stream
    ensures ReadData(l, bits) == Some(text)
  {
    QrStream.StreamDecodes(l, text);
  }

  lemma {:induction false} VersionReads(image: Image, v: nat, mask: nat, stream: seq<bool>)
    requires Version(v) && mask < 8 && Shows(image, SymbolOf(v, mask, stream)) && |stream| <= |Cells(v)|
    ensures Read(v, image) == ReadData(LayoutOf(v), Unmasked(Cells(v), image, Flip(mask)))
    ensures Unmasked(Cells(v), image, Flip(mask))[..|stream|] == stream
  {
    var s := SymbolOf(v, mask, stream);
    EverySymbolIsProper(v, mask, stream);
    FormatIsRead(image, s);
    QrBch.MaskIsRead(mask);
    StreamIsRead(image, s);
  }

  lemma {:induction false} StreamFits(v: nat, text: seq<Byte>, l: Layout, stream: seq<bool>)
    requires Version(v) && l == LayoutOf(v) && Sound(l) && Fits(l, |text|) && stream == QrStream.Stream(l, text)
    ensures |stream| <= |Cells(v)|
  {
    QrStream.StreamDecodes(l, text);
    RoomForStream(v);
  }

  /** The image shows a symbol of the text. */
  ghost predicate ShowsText(image: Image, v: nat, mask: nat, text: seq<Byte>, l: Layout, stream: seq<bool>) {
    && Version(v) && mask < 8 && l == LayoutOf(v) && Sound(l) && Fits(l, |text|)
    && stream == QrStream.Stream(l, text) && Shows(image, SymbolOf(v, mask, stream))
  }

  /** Reading a symbol of any version and mask that shows a text returns the text. */
  lemma {:induction false} SymbolReads(image: Image, v: nat, mask: nat, text: seq<Byte>, l: Layout, stream: seq<bool>)
    requires ShowsText(image, v, mask, text, l, stream)
    ensures Read(v, image) == Some(text)
  {
    var bits := Unmasked(Cells(v), image, Flip(mask));
    StreamFits(v, text, l, stream);
    VersionReads(image, v, mask, stream);
    DataReads(l, bits, stream, text);
  }

  // ---------------------------------------------------------------- the encoder

  /** The first of the masks 0 to n - 1 with the lowest score. */
  predicate Best(scores: nat -> nat, mask: nat, n: nat) {
    && mask < n
    && (forall k :: 0 <= k < n ==> scores(mask) <= scores(k))
    && (forall k :: 0 <= k < mask ==> scores(mask) < scores(k))
  }

  lemma {:induction false} BestNext(scores: nat -> nat, mask: nat, k: nat)
    ensures Best(scores, 0, 1)
    ensures Best(scores, mask, k) ==> Best(scores, if scores(k) < scores(mask) then k else mask, k + 1)
  {
  }

  function Symbols(v: nat, stream: seq<bool>): nat -> Symbol
    requires Version(v)
  {
    (k: nat) => SymbolOf(v, k, stream)
  }

  /** The penalties of the drawings by mask. */
  function Scores(symbols: nat -> Symbol, penalty: Symbol -> nat): nat -> nat {
    (k: nat) => penalty(symbols(k))
  }

  /** One of the eight drawings. */
  method PlaceAs(v: nat, stream: seq<bool>, mask: nat, ghost symbols: nat -> Symbol) returns (m: Canvas)
    requires Version(v) && mask < 8 && symbols(mask) == SymbolOf(v, mask, stream)
    ensures m.Valid() && Pictured(m, symbols(mask))
  {
    m := Place(v, stream, mask);
  }

  /** Draws the stream with every mask and keeps the first of the lowest penalty. */
  method BestMask(v: nat, stream: seq<bool>, scores: nat -> nat, ghost symbols: nat -> Symbol)
    returns (best: Canvas, mask: nat)
    requires Version(v) && forall k :: symbols(k) == SymbolOf(v, k, stream)
    ensures best.Valid() && Best(scores, mask, 8) && Pictured(best, symbols(mask))
  {
    best := new Canvas(0);
    mask := 0;
    var bestScore: int := -1;
    var k: nat := 0;
    while k < 8
      invariant k <= 8 && best.Valid() && bestScore == (if k == 0 then -1 else scores(mask))
      invariant k > 0 ==> Best(scores, mask, k) && Pictured(best, symbols(mask))
    {
      BestNext(scores, mask, k);
      var m := PlaceAs(v, stream, k, symbols);
      var score := scores(k);
      if bestScore < 0 || score < bestScore {
        best, bestScore, mask := m, score, k;
      }
      k := k + 1;
    }
  }

  method BestSymbol(v: nat, stream: seq<bool>, penalty: Symbol -> nat) returns (best: Canvas, mask: nat)
    requires Version(v)
    ensures best.Valid() && Best(Scores(Symbols(v, stream), penalty), mask, 8) && Pictured(best, SymbolOf(v, mask, stream))
  {
    best, mask := BestMask(v, stream, Scores(Symbols(v, stream), penalty), Symbols(v, stream));
  }

  /** The canvas is the drawing of the text with the first mask of the lowest penalty. */
  ghost predicate BestDrawing(m: Canvas, text: seq<Byte>, v: nat, mask: nat, penalty: Symbol -> nat)
    requires m.Valid() && Version(v) && LayoutOf(v).blocks > 0 && Fits(LayoutOf(v), |text|)
    reads m.dark
  {
    && Best(Scores(Symbols(v, QrStream.Stream(LayoutOf(v), text)), penalty), mask, 8)
    && Pictured(m, SymbolOf(v, mask, QrStream.Stream(LayoutOf(v), text)))
  }

  /** The smallest version that holds the text, drawn with the first mask of the lowest penalty; none for
      texts over 2953 bytes. The penalty of a symbol is given. Whoever sees the canvas reads the text. */
  method Encode(text: seq<Byte>, penalty: Symbol -> nat) returns (r: Option<Canvas>, v: nat, mask: nat)
    ensures r.None? <==> |text| > 2953
    ensures r.Some? ==> Version(v) && LayoutOf(v).blocks > 0 && Fits(LayoutOf(v), |text|)
    ensures r.Some? ==> forall w :: 1 <= w < v ==> !Fits(LayoutOf(w), |text|)
    ensures r.Some? ==> r.value.Valid() && r.value.size == Size(v) && BestDrawing(r.value, text, v, mask, penalty)
    ensures r.Some? ==> forall image: Image :: Sees(image, r.value) ==> Read(v, image) == Some(text)
  {
    r, v, mask := None, 0, 0;
    var picked := PickVersion(|text|);
    if picked.Some? {
      v := picked.value;
      EveryLayoutIsSound(v);
      var best;
      best, mask := EncodeAs(text, v, penalty);
      r := Some(best);
    }
  }

  /** Draws a text in a version that holds it. */
  method EncodeAs(text: seq<Byte>, v: nat, penalty: Symbol -> nat) returns (best: Canvas, mask: nat)
    requires Version(v) && LayoutOf(v).blocks > 0 && Fits(LayoutOf(v), |text|)
    ensures best.Valid() && best.size == Size(v) && BestDrawing(best, text, v, mask, penalty)
    ensures forall image: Image :: Sees(image, best) ==> Read(v, image) == Some(text)
  {
    EveryLayoutIsSound(v);
    var l := LayoutOf(v);
    var exp, log := BuildTables();
    var stream := QrEncoder.BitStream(exp, log, l, text);
    best, mask := BestSymbol(v, stream, penalty);
    forall image: Image | Sees(image, best)
      ensures Read(v, image) == Some(text)
    {
      SeenIsShown(image, best, SymbolOf(v, mask, stream));
      SymbolReads(image, v, mask, text, l, stream);
    }
  }
}
