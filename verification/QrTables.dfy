/** The versions of a QR symbol at correction level L and their tables
    (internal/qr/qr.go; sections 7.4.10 and 7.5.1 and annex E of ISO/IEC 18004:2015). */
module QrTables {
  import opened Options

  const MAX_VERSION := 40

  predicate Version(v: nat) {
    1 <= v <= MAX_VERSION
  }

  /** Codewords of a version. */
  function Total(v: nat): nat
    requires Version(v)
  {
    if v == 1 then 26 else if v == 2 then 44 else if v == 3 then 70 else if v == 4 then 100 else
    if v == 5 then 134 else if v == 6 then 172 else if v == 7 then 196 else if v == 8 then 242 else
    if v == 9 then 292 else if v == 10 then 346 else if v == 11 then 404 else if v == 12 then 466 else
    if v == 13 then 532 else if v == 14 then 581 else if v == 15 then 655 else if v == 16 then 733 else
    if v == 17 then 815 else if v == 18 then 901 else if v == 19 then 991 else if v == 20 then 1085 else
    if v == 21 then 1156 else if v == 22 then 1258 else if v == 23 then 1364 else if v == 24 then 1474 else
    if v == 25 then 1588 else if v == 26 then 1706 else if v == 27 then 1828 else if v == 28 then 1921 else
    if v == 29 then 2051 else if v == 30 then 2185 else if v == 31 then 2323 else if v == 32 then 2465 else
    if v == 33 then 2611 else if v == 34 then 2761 else if v == 35 then 2876 else if v == 36 then 3034 else
    if v == 37 then 3196 else if v == 38 then 3362 else if v == 39 then 3532 else 3706
  }

  /** Error-correction codewords of one block. */
  function EccPerBlock(v: nat): nat
    requires Version(v)
  {
    if v == 1 then 7 else if v == 2 then 10 else if v == 3 then 15 else if v == 4 then 20 else if v == 5 then 26 else
    if v == 6 then 18 else if v == 7 then 20 else if v == 8 then 24 else if v == 9 then 30 else
    if v == 10 then 18 else if v == 11 then 20 else if v == 12 then 24 else if v == 13 then 26 else
    if v == 14 then 30 else if v == 15 then 22 else if v == 16 then 24 else if v == 17 then 28 else
    if v == 18 then 30 else if v == 19 then 28 else if v == 20 then 28 else if v == 21 then 28 else
    if v == 22 then 28 else if v == 23 then 30 else if v == 24 then 30 else if v == 25 then 26 else
    if v == 26 then 28 else if v == 27 then 30 else if v == 28 then 30 else if v == 29 then 30 else
    if v == 30 then 30 else if v == 31 then 30 else if v == 32 then 30 else if v == 33 then 30 else
    if v == 34 then 30 else if v == 35 then 30 else if v == 36 then 30 else if v == 37 then 30 else
    if v == 38 then 30 else if v == 39 then 30 else 30
  }

  /** Blocks of a version. */
  function Blocks(v: nat): nat
    requires Version(v)
  {
    if v == 1 then 1 else if v == 2 then 1 else if v == 3 then 1 else if v == 4 then 1 else if v == 5 then 1 else
    if v == 6 then 2 else if v == 7 then 2 else if v == 8 then 2 else if v == 9 then 2 else if v == 10 then 4 else
    if v == 11 then 4 else if v == 12 then 4 else if v == 13 then 4 else if v == 14 then 4 else
    if v == 15 then 6 else if v == 16 then 6 else if v == 17 then 6 else if v == 18 then 6 else
    if v == 19 then 7 else if v == 20 then 8 else if v == 21 then 8 else if v == 22 then 9 else
    if v == 23 then 9 else if v == 24 then 10 else if v == 25 then 12 else if v == 26 then 12 else
    if v == 27 then 12 else if v == 28 then 13 else if v == 29 then 14 else if v == 30 then 15 else
    if v == 31 then 16 else if v == 32 then 17 else if v == 33 then 18 else if v == 34 then 19 else
    if v == 35 then 19 else if v == 36 then 20 else if v == 37 then 21 else if v == 38 then 22 else
    if v == 39 then 24 else 25
  }

  function TwoCenters(v: nat): seq<int>
    requires 2 <= v <= 6
  {
    if v == 2 then [6, 18] else if v == 3 then [6, 22] else if v == 4 then [6, 26] else if v == 5 then [6, 30] else
    [6, 34]
  }

  function ThreeCenters(v: nat): seq<int>
    requires 7 <= v <= 13
  {
    if v == 7 then [6, 22, 38] else if v == 8 then [6, 24, 42] else if v == 9 then [6, 26, 46] else
    if v == 10 then [6, 28, 50] else if v == 11 then [6, 30, 54] else if v == 12 then [6, 32, 58] else [6, 34, 62]
  }

  function FourCenters(v: nat): seq<int>
    requires 14 <= v <= 20
  {
    if v == 14 then [6, 26, 46, 66] else if v == 15 then [6, 26, 48, 70] else if v == 16 then [6, 26, 50, 74] else
    if v == 17 then [6, 30, 54, 78] else if v == 18 then [6, 30, 56, 82] else if v == 19 then [6, 30, 58, 86] else
    [6, 34, 62, 90]
  }

  function FiveCenters(v: nat): seq<int>
    requires 21 <= v <= 27
  {
    if v == 21 then [6, 28, 50, 72, 94] else if v == 22 then [6, 26, 50, 74, 98] else
    if v == 23 then [6, 30, 54, 78, 102] else if v == 24 then [6, 28, 54, 80, 106] else
    if v == 25 then [6, 32, 58, 84, 110] else if v == 26 then [6, 30, 58, 86, 114] else [6, 34, 62, 90, 118]
  }

  function SixCenters(v: nat): seq<int>
    requires 28 <= v <= 34
  {
    if v == 28 then [6, 26, 50, 74, 98, 122] else if v == 29 then [6, 30, 54, 78, 102, 126] else
    if v == 30 then [6, 26, 52, 78, 104, 130] else if v == 31 then [6, 30, 56, 82, 108, 134] else
    if v == 32 then [6, 34, 60, 86, 112, 138] else if v == 33 then [6, 30, 58, 86, 114, 142] else
    [6, 34, 62, 90, 118, 146]
  }

  function SevenCenters(v: nat): seq<int>
    requires 35 <= v <= 40
  {
    if v == 35 then [6, 30, 54, 78, 102, 126, 150] else if v == 36 then [6, 24, 50, 76, 102, 128, 154] else
    if v == 37 then [6, 28, 54, 80, 106, 132, 158] else if v == 38 then [6, 32, 58, 84, 110, 136, 162] else
    if v == 39 then [6, 26, 54, 82, 110, 138, 166] else [6, 30, 58, 86, 114, 142, 170]
  }

  /** Coordinates of the alignment patterns' centres. */
  function Align(v: nat): seq<int>
    requires Version(v)
  {
    if v == 1 then []
    else if v <= 6 then TwoCenters(v)
    else if v <= 13 then ThreeCenters(v)
    else if v <= 20 then FourCenters(v)
    else if v <= 27 then FiveCenters(v)
    else if v <= 34 then SixCenters(v)
    else SevenCenters(v)
  }

  /** Codewords of a version left for data. */
  function DataCodewords(v: nat): int
    requires Version(v)
  {
    Total(v) - EccPerBlock(v) * Blocks(v)
  }

  /** Width of the length field. */
  function CountBits(v: nat): nat {
    if v >= 10 then 16 else 8
  }

  /** What the bit stream of a version depends on. */
  datatype Layout = Layout(data: nat, ecc: nat, blocks: nat, countBits: nat)

  /** Properties of the tables that the stream relies on: there is a block, and the length field
      holds every length that fits. */
  predicate Sound(l: Layout) {
    l.blocks > 0 && l.ecc <= 30 && ((l.countBits == 8 && l.data <= 256) || (l.countBits == 16 && l.data <= 4000))
  }

  predicate Fits(l: Layout, length: nat) {
    4 + l.countBits + 8 * length <= 8 * l.data
  }

  function LayoutOf(v: nat): (l: Layout)
    requires Version(v)
  {
    Layout(if DataCodewords(v) > 0 then DataCodewords(v) else 0, EccPerBlock(v), Blocks(v), CountBits(v))
  }

  lemma {:induction false} EveryLayoutIsSound(v: nat)
    requires Version(v)
    ensures Sound(LayoutOf(v)) && LayoutOf(v).data == DataCodewords(v)
  {
  }

  lemma {:induction false} LastVersionHolds(length: nat)
    ensures Fits(LayoutOf(MAX_VERSION), length) <==> length <= 2953
  {
  }

  lemma {:induction false} NoVersionHoldsMore(v: nat, length: nat)
    requires Version(v) && Fits(LayoutOf(v), length)
    ensures length <= 2953
  {
  }

  /** The smallest version that holds `length` bytes, and none exactly when there are more than 2953. */
  method PickVersion(length: nat) returns (r: Option<nat>)
    ensures r.Some? ==> Version(r.value) && Fits(LayoutOf(r.value), length)
    ensures r.Some? ==> forall v :: 1 <= v < r.value ==> !Fits(LayoutOf(v), length)
    ensures r.None? <==> length > 2953
  {
    var v: nat := 1;
    while v <= MAX_VERSION
      invariant 1 <= v <= MAX_VERSION + 1
      invariant forall w :: 1 <= w < v ==> !Fits(LayoutOf(w), length)
    {
      EveryLayoutIsSound(v);
      var countBits := 8;
      if v >= 10 {
        countBits := 16;
      }
      if 4 + countBits + 8 * length <= DataCodewords(v) * 8 {
        NoVersionHoldsMore(v, length);
        return Some(v);
      }
      v := v + 1;
    }
    LastVersionHolds(length);
    return None;
  }
}
