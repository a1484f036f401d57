/** The BCH words of the format and version fields, as divisions over GF(2)
    (internal/qr/qr.go; annexes C and D of ISO/IEC 18004:2015). Words are written from the
    highest bit down. */
module QrBch {
  import opened Basics
  import opened Polynomials

  const F2 := Ring(false, true, (a, b) => a != b, (a, b) => a && b)

  /** 0x537 and 0x1f25. */
  const FORMAT_POLY := [true, false, true, false, false, true, true, false, true, true, true]
  const VERSION_POLY := [true, true, true, true, true, false, false, true, false, false, true, false, true]

  /** 0x5412. */
  const FORMAT_MASK := [true, false, true, false, true, false, false, false, false, false, true, false, false, true, false]

  lemma {:induction false} F2Lawful()
    ensures Lawful(F2)
  {
    forall a, b, c
      ensures Law(F2, a, b, c)
    {
    }
  }

  /** The lowest `n` bits of a number. */
  function Digits(v: nat, n: nat): (bits: seq<bool>)
    ensures |bits| == n
    decreases n
  {
    if n == 0 then [] else Digits(v / 2, n - 1) + [v % 2 == 1]
  }

  function Number(bits: seq<bool>): nat {
    if |bits| == 0 then 0
    else 2 * Number(bits[..|bits| - 1]) + (if bits[|bits| - 1] then 1 else 0)
  }

  /** The lowest n bits of a number below 2^n are that number. */
  lemma {:induction false} DigitsNumber(v: nat, n: nat)
    requires v < Pow2(n)
    ensures Number(Digits(v, n)) == v
    decreases n
  {
    if n > 0 {
      DigitsNumber(v / 2, n - 1);
      assert Digits(v, n)[..n - 1] == Digits(v / 2, n - 1);
    }
  }

  /** And bits are the digits of the number they form. */
  lemma {:induction false} NumberDigits(bits: seq<bool>)
    ensures Digits(Number(bits), |bits|) == bits
    decreases |bits|
  {
    if |bits| > 0 {
      NumberDigits(bits[..|bits| - 1]);
      assert bits == bits[..|bits| - 1] + [bits[|bits| - 1]];
    }
  }

  lemma {:induction false} NumberSnoc(bits: seq<bool>, on: bool)
    ensures Number(bits + [on]) == 2 * Number(bits) + (if on then 1 else 0)
  {
    assert (bits + [on])[..|bits|] == bits;
  }

  /** The number without its lowest `i` bits. */
  function Shift(v: nat, i: nat): nat {
    if i == 0 then v else Shift(v / 2, i - 1)
  }

  lemma {:induction false} ShiftMore(v: nat, i: nat)
    ensures Shift(v, i) / 2 == Shift(v, i + 1)
    decreases i
  {
    if i > 0 {
      ShiftMore(v / 2, i - 1);
    }
  }

  lemma {:induction false} DigitsSnoc(v: nat, i: nat, k: nat)
    ensures Digits(Shift(v, i), k + 1) == Digits(Shift(v, i + 1), k) + [Shift(v, i) % 2 == 1]
  {
    ShiftMore(v, i);
  }

  /** Appends the lowest `length` bits of a number, the highest of them first. */
  method Push(bits: seq<bool>, value: nat, length: nat) returns (out: seq<bool>)
    ensures out == bits + Digits(value, length)
  {
    out := bits;
    var i: nat := length;
    while i > 0
      invariant i <= length && out == bits + Digits(Shift(value, i), length - i)
    {
      DigitsSnoc(value, i - 1, length - i);
      out := out + [Shift(value, i - 1) % 2 == 1];
      i := i - 1;
    }
  }

  /** The word `data` followed by what its division by `poly` leaves. */
  function Word(data: seq<bool>, poly: seq<bool>): (w: seq<bool>)
    requires |poly| > 0
    ensures |w| == |data| + |poly| - 1
  {
    data + Rest(F2, data, poly)
  }

  /** A BCH word is a multiple of its polynomial. */
  lemma {:induction false} WordDivides(data: seq<bool>, poly: seq<bool>) returns (q: seq<bool>)
    requires |poly| > 0 && poly[0]
    ensures |q| == |data| && Word(data, poly) == Product(F2, q, poly)
  {
    F2Lawful();
    DataAndRest(F2, data, poly);
    q := Quotient(F2, data + Zeros(F2, |poly| - 1), poly, |data|);
  }

  /** `d` after the first `j` bits of the polynomial have been added from position `k` on. */
  function Part(d: seq<bool>, poly: seq<bool>, k: nat, j: nat): (r: seq<bool>)
    requires k + |poly| <= |d| && j <= |poly|
    ensures |r| == |d|
  {
    AddAt(F2, d, poly[..j], k)
  }

  lemma {:induction false} PartStep(d: seq<bool>, poly: seq<bool>, k: nat, j: nat)
    requires k + |poly| <= |d| && j < |poly|
    ensures Part(d, poly, k, j)[k + j] == d[k + j]
    ensures Part(d, poly, k, j + 1) == Part(d, poly, k, j)[k + j := d[k + j] != poly[j]]
  {
    assert poly[..j + 1] == poly[..j] + [poly[j]];
    AddAtSnoc(F2, d, poly[..j], poly[j], k);
  }

  lemma {:induction false} PartEnds(d: seq<bool>, poly: seq<bool>, k: nat)
    requires k + |poly| <= |d|
    ensures Part(d, poly, k, 0) == d && Part(d, poly, k, |poly|) == AddAt(F2, d, poly, k)
  {
    assert poly[..|poly|] == poly;
  }

  /** Adds the polynomial from position `k` on. */
  method AddPoly(d: array<bool>, poly: seq<bool>, k: nat)
    requires k + |poly| <= d.Length
    modifies d
    ensures d[..] == AddAt(F2, old(d[..]), poly, k)
  {
    ghost var start := d[..];
    var j: nat := 0;
    PartEnds(start, poly, k);
    while j < |poly|
      invariant j <= |poly| && d[..] == Part(start, poly, k, j)
    {
      PartStep(start, poly, k, j);
      ghost var before := d[..];
      var bit := d[k + j] != poly[j];
      d[k + j] := bit;
      assert d[..] == before[k + j := bit];
      j := j + 1;
    }
  }

  lemma {:induction false} ScaleByBit(poly: seq<bool>, on: bool, d: seq<bool>, k: nat)
    requires k + |poly| <= |d|
    ensures AddAt(F2, d, Scale(F2, poly, on), k) == if on then AddAt(F2, d, poly, k) else d
  {
    if on {
      assert Scale(F2, poly, on) == poly;
    } else {
      assert AddAt(F2, d, Scale(F2, poly, on), k) == d;
    }
  }

  /** One step of the division, which an unset bit skips. */
  method BchStep(d: array<bool>, poly: seq<bool>, i: nat)
    requires i < d.Length && i + |poly| <= d.Length
    modifies d
    ensures d[..] == AddAt(F2, old(d[..]), Scale(F2, poly, old(d[i])), i)
  {
    ScaleByBit(poly, d[i], d[..], i);
    if d[i] {
      AddPoly(d, poly, i);
    }
  }

  /** The division leaves nothing of the leading bits, so that joining it to the data by OR adds the rest. */
  lemma {:induction false} OrIsWord(data: seq<bool>, poly: seq<bool>, start: seq<bool>, d: seq<bool>, word: seq<bool>)
    requires |poly| > 0 && poly[0] && start == data + Zeros(F2, |poly| - 1) && d == Cancelled(F2, start, poly, |data|)
    requires |word| == |start| && forall i :: 0 <= i < |word| ==> word[i] == (start[i] || d[i])
    ensures word == Word(data, poly)
  {
    F2Lawful();
    LeadCancelled(F2, start, poly, |data|);
    assert d[|data|..] == Rest(F2, data, poly);
    forall i | 0 <= i < |word|
      ensures word[i] == (data + d[|data|..])[i]
    {
      if i < |data| {
        assert d[..|data|][i] == Zeros(F2, |data|)[i];
      }
    }
  }

  /** Subtracts the polynomial wherever a leading bit is set. */
  method Divide(data: seq<bool>, poly: seq<bool>, ghost start: seq<bool>) returns (d: array<bool>)
    requires |poly| > 0 && start == data + Zeros(F2, |poly| - 1)
    ensures fresh(d) && d[..] == Cancelled(F2, start, poly, |data|)
  {
    var n := |data| + |poly| - 1;
    d := new bool[n](i requires 0 <= i < n => i < |data| && data[i]);
    assert d[..] == start;
    var i: nat := 0;
    while i < |data|
      invariant i <= |data| && d[..] == Cancelled(F2, start, poly, i)
    {
      CancelNext(F2, start, poly, i, d[..]);
      BchStep(d, poly, i);
      i := i + 1;
    }
  }

  /** A BCH word: the shifted data, joined by OR to what the division leaves of it. */
  method Bch(data: seq<bool>, poly: seq<bool>) returns (word: seq<bool>)
    requires |poly| > 0 && poly[0]
    ensures word == Word(data, poly)
  {
    ghost var start := data + Zeros(F2, |poly| - 1);
    var d := Divide(data, poly, start);
    var n := |data|;
    word := seq(d.Length, i requires 0 <= i < d.Length reads d => (i < n && data[i]) || d[i]);
    OrIsWord(data, poly, start, d[..], word);
  }

  // ---------------------------------------------------------------- the two fields

  /** Correction level L is 01, the mask follows. */
  function FormatData(mask: nat): seq<bool> {
    [false, true] + Digits(mask, 3)
  }

  /** The 15 bits of the format field. */
  function FormatWord(mask: nat): (w: seq<bool>)
    ensures |w| == 15
  {
    Add(F2, Word(FormatData(mask), FORMAT_POLY), FORMAT_MASK)
  }

  /** The 18 bits of the version field. */
  function VersionWord(v: nat): (w: seq<bool>)
    ensures |w| == 18
  {
    Word(Digits(v, 6), VERSION_POLY)
  }

  /** The mask by the format field: 3 bits after the correction level. */
  function MaskOf(format: seq<bool>): nat
    requires |format| == 15
  {
    Number(Add(F2, format, FORMAT_MASK)[2..5])
  }

  lemma {:induction false} AddTwice(w: seq<bool>, f: seq<bool>)
    requires |w| == |f|
    ensures Add(F2, Add(F2, w, f), f) == w
  {
  }

  /** The format field names its mask. */
  lemma {:induction false} MaskIsRead(mask: nat)
    requires mask < 8
    ensures MaskOf(FormatWord(mask)) == mask
  {
    assert Pow2(3) == 8;
    DigitsNumber(mask, 3);
    var w := Word(FormatData(mask), FORMAT_POLY);
    AddTwice(w, FORMAT_MASK);
    assert w[2..5] == Digits(mask, 3);
  }

  /** The version field names its version: its first 6 bits. */
  lemma {:induction false} VersionIsRead(v: nat)
    requires v < 64
    ensures Number(VersionWord(v)[..6]) == v
  {
    assert Pow2(6) == 64;
    DigitsNumber(v, 6);
    assert VersionWord(v)[..6] == Digits(v, 6);
  }

  method BchFormat(mask: nat) returns (word: seq<bool>)
    ensures word == FormatWord(mask)
  {
    var data := Push([false, true], mask, 3);
    var bch := Bch(data, FORMAT_POLY);
    word := seq(15, i requires 0 <= i < 15 => bch[i] != FORMAT_MASK[i]);
    assert word == Add(F2, bch, FORMAT_MASK);
  }

  method BchVersion(v: nat) returns (word: seq<bool>)
    ensures word == VersionWord(v)
  {
    var data := Push([], v, 6);
    assert data == Digits(v, 6);
    word := Bch(data, VERSION_POLY);
  }
}
