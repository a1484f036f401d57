/** The loops that build the bit stream of a text (internal/qr/qr.go). */
module QrEncoder {
  import opened QrField
  import opened QrReedSolomon
  import opened QrTables
  import QrBch
  import opened QrBits
  import opened QrBlocks
  import opened QrStream

  // ---------------------------------------------------------------- header and text

  lemma {:induction false} NumberPair(x: seq<bool>, p: bool, q: bool)
    ensures QrBch.Number(x + [p, q]) == 4 * QrBch.Number(x) + BitValue(p, 2) + BitValue(q, 1)
  {
    QrBch.NumberSnoc(x, p);
    QrBch.NumberSnoc(x + [p], q);
    assert x + [p, q] == (x + [p]) + [q];
  }

  function Quad(p: bool, q: bool, r: bool, s: bool): nat {
    BitValue(p, 8) + BitValue(q, 4) + BitValue(r, 2) + BitValue(s, 1)
  }

  lemma {:induction false} NumberQuad(x: seq<bool>, p: bool, q: bool, r: bool, s: bool)
    ensures QrBch.Number(x + [p, q, r, s]) ==
      16 * QrBch.Number(x) + Quad(p, q, r, s)
  {
    NumberPair(x, p, q);
    NumberPair(x + [p, q], r, s);
    assert x + [p, q, r, s] == (x + [p, q]) + [r, s];
  }

  lemma {:induction false} ValueIsQuads(b: Byte)
    ensures Value(b) == 16 * Quad(b.b7, b.b6, b.b5, b.b4) + Quad(b.b3, b.b2, b.b1, b.b0)
  {
  }

  lemma {:induction false} ValueIsNumber(b: Byte)
    ensures Value(b) == QrBch.Number(BitsOf(b))
  {
    var none: seq<bool> := [];
    var high := none + [b.b7, b.b6, b.b5, b.b4];
    NumberQuad(none, b.b7, b.b6, b.b5, b.b4);
    NumberQuad(high, b.b3, b.b2, b.b1, b.b0);
    ValueIsQuads(b);
    assert BitsOf(b) == high + [b.b3, b.b2, b.b1, b.b0];
  }

  /** The lowest 8 bits of a byte's value are its bits. */
  lemma {:induction false} ByteDigits(b: Byte)
    ensures QrBch.Digits(Value(b), 8) == BitsOf(b)
  {
    ValueIsNumber(b);
    QrBch.NumberDigits(BitsOf(b));
  }

  method AppendText(start: seq<bool>, text: seq<Byte>) returns (out: seq<bool>)
    ensures out == start + Expand(text)
  {
    out := start;
    var i: nat := 0;
    while i < |text|
      invariant i <= |text| && out == start + Expand(text[..i])
    {
      ByteDigits(text[i]);
      ExpandSnoc(text[..i], text[i]);
      assert text[..i + 1] == text[..i] + [text[i]];
      ConcatAssociates(start, Expand(text[..i]), BitsOf(text[i]));
      out := QrBch.Push(out, Value(text[i]), 8);
      i := i + 1;
    }
    assert text[..i] == text;
  }

  method HeaderBits(l: Layout, text: seq<Byte>) returns (bits: seq<bool>)
    ensures bits == Header(l, text)
  {
    bits := QrBch.Push([], 4, 4);
    bits := QrBch.Push(bits, |text|, l.countBits);
    bits := AppendText(bits, text);
    assert [] + QrBch.Digits(4, 4) == QrBch.Digits(4, 4);
  }

  /** Up to four zeros while the data field has room, then zeros up to a whole byte. */
  method Terminate(l: Layout, bits: seq<bool>) returns (out: seq<bool>)
    requires |bits| <= 8 * l.data
    ensures out == bits + Nils(8 * Filled(l, |bits|) - |bits|)
  {
    out := bits;
    var i: nat := 0;
    while i < 4 && |out| < 8 * l.data
      invariant i <= 4 && |out| <= 8 * l.data && out == bits + Nils(i)
      decreases 4 - i
    {
      out := out + [false];
      i := i + 1;
    }
    ghost var m := Filled(l, |bits|);
    while |out| % 8 != 0
      invariant |bits| <= |out| <= 8 * m && out == bits + Nils(|out| - |bits|)
      invariant 8 * m < |out| + 8
      decreases 8 * m - |out|
    {
      out := out + [false];
    }
  }

  /** A byte shifted left by one with a bit shifted in. */
  function ShiftIn(v: Byte, on: bool): Byte {
    Byte(v.b6, v.b5, v.b4, v.b3, v.b2, v.b1, v.b0, on)
  }

  lemma {:induction false} ShiftInBits(bits: seq<bool>, j: nat)
    requires |bits| == 8 && j < 8
    ensures ShiftIn(ByteOf(Nils(8 - j) + bits[..j]), bits[j]) == ByteOf(Nils(8 - (j + 1)) + bits[..j + 1])
  {
  }

  method GatherByte(bits: seq<bool>) returns (v: Byte)
    requires |bits| == 8
    ensures v == ByteOf(bits)
  {
    v := ZERO;
    var j: nat := 0;
    while j < 8
      invariant j <= 8 && v == ByteOf(Nils(8 - j) + bits[..j])
    {
      ShiftInBits(bits, j);
      v := ShiftIn(v, bits[j]);
      j := j + 1;
    }
    assert Nils(0) + bits[..8] == bits;
  }

  method GatherBytes(bits: seq<bool>, n: nat) returns (cw: seq<Byte>)
    requires |bits| == 8 * n
    ensures cw == Pack(bits, n)
  {
    cw := [];
    var i: nat := 0;
    while i < n
      invariant i <= n && cw == Pack(bits[..8 * i], i)
    {
      var last := bits[8 * i..8 * i + 8];
      PackSnoc(bits[..8 * i], last, i);
      TakeNext(bits, i);
      var v := GatherByte(last);
      cw := cw + [v];
      i := i + 1;
    }
    assert bits[..8 * i] == bits;
  }

  lemma {:induction false} PaddingSnoc(i: nat)
    ensures Padding(i + 1) == Padding(i) + [if i % 2 == 0 then PAD_0 else PAD_1]
  {
  }

  method PadTo(whole: seq<Byte>, n: nat) returns (cw: seq<Byte>)
    requires |whole| <= n
    ensures cw == whole + Padding(n - |whole|)
  {
    cw := whole;
    var i: nat := 0;
    while |cw| < n
      invariant |cw| == |whole| + i <= n && cw == whole + Padding(i)
      decreases n - |cw|
    {
      PaddingSnoc(i);
      cw := cw + [if i % 2 == 0 then PAD_0 else PAD_1];
      i := i + 1;
    }
  }

  lemma {:induction false} EightTimes(m: nat, n: nat)
    requires n == 8 * m
    ensures n / 8 == m
  {
  }

  method WholeBytes(l: Layout, header: seq<bool>) returns (cw: seq<Byte>)
    requires |header| <= 8 * l.data
    ensures cw == Whole(l, header)
  {
    var bits := Terminate(l, header);
    var n := |bits| / 8;
    EightTimes(Filled(l, |header|), |bits|);
    cw := GatherBytes(bits, n);
  }

  /** The data codewords of a text that fits. */
  method DataCodewordsOf(l: Layout, text: seq<Byte>) returns (cw: seq<Byte>)
    requires Fits(l, |text|)
    ensures cw == Codewords(l, text)
  {
    var header := HeaderBits(l, text);
    cw := WholeBytes(l, header);
    cw := PadTo(cw, l.data);
  }

  // ---------------------------------------------------------------- blocks

  lemma {:induction false} SumPrefix(lens: seq<nat>, i: nat)
    requires i <= |lens|
    ensures Sum(lens[..i]) <= Sum(lens)
    decreases |lens| - i
  {
    if i == |lens| {
      assert lens[..i] == lens;
    } else {
      SumPrefix(lens, i + 1);
      assert lens[..i + 1][..i] == lens[..i];
    }
  }

  lemma {:induction false} SplitNext(cw: seq<Byte>, lens: seq<nat>, i: nat)
    requires i < |lens| && Sum(lens) == |cw|
    ensures var off := Sum(lens[..i]); off + lens[i] <= |cw| && Sum(lens[..i + 1]) == off + lens[i]
    ensures var off := Sum(lens[..i]);
      Split(cw[..off + lens[i]], lens[..i + 1]) == Split(cw[..off], lens[..i]) + [cw[off..off + lens[i]]]
  {
    SumPrefix(lens, i + 1);
    assert lens[..i + 1] == lens[..i] + [lens[i]];
    assert lens[..i + 1][..i] == lens[..i];
    var off := Sum(lens[..i]);
    SplitSnoc(cw[..off], lens[..i], cw[off..off + lens[i]]);
    assert cw[..off + lens[i]] == cw[..off] + cw[off..off + lens[i]];
  }

  lemma {:induction false} RemaindersSnoc(blocks: seq<seq<Byte>>, block: seq<Byte>, n: nat)
    ensures Remainders(blocks + [block], n) == Remainders(blocks, n) + [Remainder(block, n)]
  {
  }

  /** The first `i` blocks and their error-correction words. */
  ghost predicate Cut(cw: seq<Byte>, lens: seq<nat>, n: nat, i: nat, off: nat, blocks: seq<seq<Byte>>, ecs: seq<seq<Byte>>) {
    && i <= |lens| && off == Sum(lens[..i]) <= |cw|
    && blocks == Split(cw[..off], lens[..i]) && ecs == Remainders(blocks, n)
  }

  lemma {:induction false} CutNext(cw: seq<Byte>, lens: seq<nat>, n: nat, i: nat, off: nat,
      blocks: seq<seq<Byte>>, ecs: seq<seq<Byte>>)
    requires Sum(lens) == |cw| && i < |lens| && Cut(cw, lens, n, i, off, blocks, ecs)
    ensures off + lens[i] <= |cw|
    ensures var block := cw[off..off + lens[i]];
      Cut(cw, lens, n, i + 1, off + lens[i], blocks + [block], ecs + [Remainder(block, n)])
  {
    SplitNext(cw, lens, i);
    RemaindersSnoc(blocks, cw[off..off + lens[i]], n);
  }

  lemma {:induction false} CutAll(cw: seq<Byte>, lens: seq<nat>, n: nat, off: nat,
      blocks: seq<seq<Byte>>, ecs: seq<seq<Byte>>)
    requires Sum(lens) == |cw| && Cut(cw, lens, n, |lens|, off, blocks, ecs)
    ensures blocks == Split(cw, lens) && ecs == Remainders(blocks, n)
  {
    assert lens[..|lens|] == lens && cw[..off] == cw;
  }

  /** Cuts one more block. */
  method CutOne(exp: array<Byte>, log: array<nat>, cw: seq<Byte>, ghost lens: seq<nat>, n: nat, ghost i: nat,
      off: nat, length: nat, blocks: seq<seq<Byte>>, ecs: seq<seq<Byte>>)
    returns (moreBlocks: seq<seq<Byte>>, moreEcs: seq<seq<Byte>>)
    requires Tables(exp, log) && n <= 512
    requires Sum(lens) == |cw| && i < |lens| && length == lens[i] && Cut(cw, lens, n, i, off, blocks, ecs)
    ensures Cut(cw, lens, n, i + 1, off + length, moreBlocks, moreEcs)
  {
    CutNext(cw, lens, n, i, off, blocks, ecs);
    var block := cw[off..off + length];
    var ec := RsRemainder(exp, log, block, n);
    moreBlocks, moreEcs := blocks + [block], ecs + [ec];
  }

  ghost predicate Uneven(lens: seq<nat>, short: nat, long: nat) {
    forall i :: 0 <= i < |lens| ==> lens[i] == if i >= |lens| - long then short + 1 else short
  }

  /** Cuts the codewords into `k` blocks, the last `long` of them longer by one. */
  method CutBlocks(exp: array<Byte>, log: array<nat>, cw: seq<Byte>, n: nat, k: nat, short: nat, long: nat, ghost lens: seq<nat>)
    returns (blocks: seq<seq<Byte>>, ecs: seq<seq<Byte>>)
    requires Tables(exp, log) && n <= 512 && k == |lens| && Sum(lens) == |cw| && Uneven(lens, short, long)
    ensures blocks == Split(cw, lens) && ecs == Remainders(blocks, n)
  {
    blocks, ecs := [], [];
    var off: nat, i: nat := 0, 0;
    while i < k
      invariant Cut(cw, lens, n, i, off, blocks, ecs)
    {
      var length := short;
      if i >= k - long {
        length := length + 1;
      }
      blocks, ecs := CutOne(exp, log, cw, lens, n, i, off, length, blocks, ecs);
      off, i := off + length, i + 1;
    }
    CutAll(cw, lens, n, off, blocks, ecs);
  }

  // ---------------------------------------------------------------- the stream

  method ToBits(cw: seq<Byte>) returns (bits: seq<bool>)
    ensures bits == Expand(cw)
  {
    bits := [];
    var i: nat := 0;
    while i < |cw|
      invariant i <= |cw| && bits == Expand(cw[..i])
    {
      ExpandSnoc(cw[..i], cw[i]);
      assert cw[..i + 1] == cw[..i] + [cw[i]];
      ByteDigits(cw[i]);
      bits := QrBch.Push(bits, Value(cw[i]), 8);
      i := i + 1;
    }
    assert cw[..i] == cw;
  }

  /** The blocks of the data codewords and their error-correction words. */
  method BlocksOf(exp: array<Byte>, log: array<nat>, l: Layout, cw: seq<Byte>)
    returns (blocks: seq<seq<Byte>>, ecs: seq<seq<Byte>>)
    requires Tables(exp, log) && Sound(l) && |cw| == l.data
    ensures Sum(BlockLens(l.data, l.blocks)) == |cw| && blocks == Split(cw, BlockLens(l.data, l.blocks))
    ensures ecs == Remainders(blocks, l.ecc)
  {
    LensSum(l.data, l.blocks);
    var short, long := l.data / l.blocks, l.data % l.blocks;
    blocks, ecs := CutBlocks(exp, log, cw, l.ecc, l.blocks, short, long, BlockLens(l.data, l.blocks));
  }

  method MessageOf(exp: array<Byte>, log: array<nat>, l: Layout, text: seq<Byte>) returns (cw: seq<Byte>)
    requires Tables(exp, log) && Sound(l) && Fits(l, |text|)
    ensures cw == Message(l, text)
  {
    cw := DataCodewordsOf(l, text);
    var blocks, ecs := BlocksOf(exp, log, l, cw);
    var data := InterleaveColumns(blocks, l.data / l.blocks + 1);
    var ecc := InterleaveColumns(ecs, l.ecc);
    cw := data + ecc;
  }

  /** The bit stream of a text that fits. */
  method BitStream(exp: array<Byte>, log: array<nat>, l: Layout, text: seq<Byte>) returns (bits: seq<bool>)
    requires Tables(exp, log) && Sound(l) && Fits(l, |text|)
    ensures bits == Stream(l, text)
  {
    var cw := MessageOf(exp, log, l, text);
    bits := ToBits(cw);
  }
}
