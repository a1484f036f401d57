/** The bit stream of a text: header, padding, error correction and interleaving, and a reader
    that undoes it (internal/qr/qr.go; sections 7.4 to 7.6 of ISO/IEC 18004:2015). */
module QrStream {
  import opened Basics
  import opened Options
  import opened QrField
  import opened Polynomials
  import opened QrReedSolomon
  import opened QrTables
  import QrBch
  import opened QrBits
  import opened QrBlocks

  // ---------------------------------------------------------------- the data codewords

  function Nils(n: nat): (bits: seq<bool>)
    ensures |bits| == n && forall i :: 0 <= i < n ==> !bits[i]
  {
    seq(n, i => false)
  }

  /** Mode indicator of byte mode, the length and the text. */
  function Header(l: Layout, text: seq<Byte>): (bits: seq<bool>)
    ensures |bits| == 4 + l.countBits + 8 * |text|
  {
    QrBch.Digits(4, 4) + QrBch.Digits(|text|, l.countBits) + Expand(text)
  }

  /** Whole bytes of `n` bits, a terminator of up to four zeros within the data field, and zeros up to a whole byte. */
  function Filled(l: Layout, n: nat): (m: nat)
    requires n <= 8 * l.data
    ensures n <= 8 * m && m <= l.data
  {
    var t := n + Least(4, 8 * l.data - n);
    (t + 7) / 8
  }

  const PAD_0 := Byte(true, true, true, false, true, true, false, false)
  const PAD_1 := Byte(false, false, false, true, false, false, false, true)

  /** 0xec and 0x11 in turns. */
  function Padding(n: nat): (cw: seq<Byte>)
    ensures |cw| == n
  {
    seq(n, i => if i % 2 == 0 then PAD_0 else PAD_1)
  }

  /** The header with its terminator, as whole bytes. */
  function Whole(l: Layout, bits: seq<bool>): (cw: seq<Byte>)
    requires |bits| <= 8 * l.data
    ensures |cw| == Filled(l, |bits|)
  {
    Pack(bits + Nils(8 * Filled(l, |bits|) - |bits|), Filled(l, |bits|))
  }

  /** The data codewords of a text. */
  function Codewords(l: Layout, text: seq<Byte>): (cw: seq<Byte>)
    requires Fits(l, |text|)
    ensures |cw| == l.data
  {
    var whole := Whole(l, Header(l, text));
    whole + Padding(l.data - |whole|)
  }

  /** The text by its data field. */
  function ReadText(l: Layout, bits: seq<bool>): Option<seq<Byte>> {
    if |bits| < 4 + l.countBits || bits[..4] != QrBch.Digits(4, 4) then None
    else
      var n, start := QrBch.Number(bits[4..4 + l.countBits]), 4 + l.countBits;
      if |bits| < start + 8 * n then None else Some(Pack(bits[start..start + 8 * n], n))
  }

  lemma {:induction false} LengthIsHeld(l: Layout, n: nat)
    requires Sound(l) && Fits(l, n)
    ensures n < Pow2(l.countBits)
  {
    assert Pow2(4) == 16;
    assert Pow2(8) == 256;
    assert Pow2(12) == 4096;
    assert Pow2(16) == 65536;
  }

  /** Reading goes by three fields. */
  lemma {:induction false} ReadFields(l: Layout, bits: seq<bool>, n: nat, text: seq<Byte>)
    requires |bits| >= 4 + l.countBits + 8 * n && bits[..4] == QrBch.Digits(4, 4)
    requires QrBch.Number(bits[4..4 + l.countBits]) == n
    requires Pack(bits[4 + l.countBits..4 + l.countBits + 8 * n], n) == text
    ensures ReadText(l, bits) == Some(text)
  {
  }

  lemma {:induction false} ReadHeader(l: Layout, text: seq<Byte>, rest: seq<bool>)
    requires Sound(l) && Fits(l, |text|)
    ensures ReadText(l, Header(l, text) + rest) == Some(text)
  {
    var mode, count, body := QrBch.Digits(4, 4), QrBch.Digits(|text|, l.countBits), Expand(text);
    FourParts(mode, count, body, rest);
    LengthIsHeld(l, |text|);
    QrBch.DigitsNumber(|text|, l.countBits);
    PackOfExpand(text, |text|);
    ReadFields(l, mode + count + body + rest, |text|, text);
  }

  lemma {:induction false} WholeExpands(l: Layout, bits: seq<bool>)
    requires |bits| <= 8 * l.data
    ensures Expand(Whole(l, bits)) == bits + Nils(8 * Filled(l, |bits|) - |bits|)
  {
    ExpandPack(bits + Nils(8 * Filled(l, |bits|) - |bits|), Filled(l, |bits|));
  }

  /** The data codewords hold the text. */
  lemma {:induction false} CodewordsRead(l: Layout, text: seq<Byte>)
    requires Sound(l) && Fits(l, |text|)
    ensures ReadText(l, Expand(Codewords(l, text))) == Some(text)
  {
    var bits := Header(l, text);
    var whole := Whole(l, bits);
    var nils := Nils(8 * |whole| - |bits|);
    var pads := Padding(l.data - |whole|);
    ExpandConcat(whole, pads);
    WholeExpands(l, bits);
    ConcatAssociates(bits, nils, Expand(pads));
    ReadHeader(l, text, nils + Expand(pads));
  }

  // ---------------------------------------------------------------- error correction

  function Remainders(blocks: seq<seq<Byte>>, n: nat): (ecs: seq<seq<Byte>>)
    ensures |ecs| == |blocks| && forall i :: 0 <= i < |ecs| ==> |ecs[i]| == n && ecs[i] == Remainder(blocks[i], n)
  {
    seq(|blocks|, i requires 0 <= i < |blocks| => Remainder(blocks[i], n))
  }

  predicate AllClean(blocks: seq<seq<Byte>>, ecs: seq<seq<Byte>>, n: nat)
    requires |blocks| == |ecs|
  {
    forall i :: 0 <= i < |blocks| ==> Clean(blocks[i] + ecs[i], n)
  }

  lemma {:induction false} RemaindersClean(blocks: seq<seq<Byte>>, n: nat)
    ensures AllClean(blocks, Remainders(blocks, n), n)
  {
    forall i | 0 <= i < |blocks|
      ensures Clean(blocks[i] + Remainders(blocks, n)[i], n)
    {
      CodewordIsClean(blocks[i], n);
    }
  }

  // ---------------------------------------------------------------- the stream

  function EccLens(l: Layout): (lens: seq<nat>)
    ensures |lens| == l.blocks && AllWithin(lens, l.ecc)
  {
    seq(l.blocks, i => l.ecc)
  }

  function DataBlocks(l: Layout, text: seq<Byte>): (blocks: seq<seq<Byte>>)
    requires l.blocks > 0 && Fits(l, |text|)
    ensures |blocks| == l.blocks
  {
    LensSum(l.data, l.blocks);
    Split(Codewords(l, text), BlockLens(l.data, l.blocks))
  }

  /** The codewords in the order they are drawn. */
  function Message(l: Layout, text: seq<Byte>): seq<Byte>
    requires l.blocks > 0 && Fits(l, |text|)
  {
    var blocks := DataBlocks(l, text);
    Interleave(blocks, l.data / l.blocks + 1) + Interleave(Remainders(blocks, l.ecc), l.ecc)
  }

  function Stream(l: Layout, text: seq<Byte>): seq<bool>
    requires l.blocks > 0 && Fits(l, |text|)
  {
    Expand(Message(l, text))
  }

  /** Bits of a stream. */
  function Width(l: Layout): nat {
    8 * (l.data + Sum(EccLens(l)))
  }

  lemma {:induction false} WidthSum(l: Layout, total: int)
    requires l.data == total - l.ecc * l.blocks
    ensures Width(l) == 8 * total
  {
    SumOfEqual(EccLens(l), l.ecc);
  }

  /** The text of a message whose blocks all are codewords. */
  function ReadMessage(l: Layout, cw: seq<Byte>): Option<seq<Byte>>
    requires l.blocks > 0 && |cw| == l.data + Sum(EccLens(l))
  {
    LensSum(l.data, l.blocks);
    CountsAll(BlockLens(l.data, l.blocks), l.data / l.blocks + 1);
    CountsAll(EccLens(l), l.ecc);
    var blocks := Deal(cw[..l.data], BlockLens(l.data, l.blocks), l.data / l.blocks + 1);
    var ecs := Deal(cw[l.data..], EccLens(l), l.ecc);
    if !AllClean(blocks, ecs, l.ecc) then None else ReadText(l, Expand(Concat(blocks)))
  }

  /** The text of a bit stream. */
  function Decode(l: Layout, bits: seq<bool>): Option<seq<Byte>>
    requires l.blocks > 0
  {
    if |bits| != Width(l) then None else ReadMessage(l, Pack(bits, l.data + Sum(EccLens(l))))
  }

  lemma {:induction false} BlocksDealt(l: Layout, cw: seq<Byte>, lens: seq<nat>, n: nat)
    requires l.blocks > 0 && |cw| == l.data && lens == BlockLens(l.data, l.blocks) && n == l.data / l.blocks + 1
    ensures Sum(lens) == |cw| && Lens(Split(cw, lens)) == lens && Concat(Split(cw, lens)) == cw
    ensures |Interleave(Split(cw, lens), n)| == l.data == Counts(lens, n)
    ensures Deal(Interleave(Split(cw, lens), n), lens, n) == Split(cw, lens)
  {
    LensSum(l.data, l.blocks);
    CountsAll(lens, n);
    SplitLens(cw, lens);
    DealRestores(Split(cw, lens), n);
  }

  lemma {:induction false} EccDealt(l: Layout, blocks: seq<seq<Byte>>)
    requires |blocks| == l.blocks
    ensures var ecs := Remainders(blocks, l.ecc);
      |Interleave(ecs, l.ecc)| == Sum(EccLens(l)) == Counts(EccLens(l), l.ecc) &&
      Deal(Interleave(ecs, l.ecc), EccLens(l), l.ecc) == ecs
  {
    var ecs := Remainders(blocks, l.ecc);
    assert Lens(ecs) == EccLens(l);
    CountsAll(EccLens(l), l.ecc);
    DealRestores(ecs, l.ecc);
  }

  lemma {:induction false} MessageReads(l: Layout, text: seq<Byte>)
    requires Sound(l) && Fits(l, |text|)
    ensures |Message(l, text)| == l.data + Sum(EccLens(l)) && ReadMessage(l, Message(l, text)) == Some(text)
  {
    var blocks, n := DataBlocks(l, text), l.data / l.blocks + 1;
    var ecs := Remainders(blocks, l.ecc);
    var first, second := Interleave(blocks, n), Interleave(ecs, l.ecc);
    BlocksDealt(l, Codewords(l, text), BlockLens(l.data, l.blocks), n);
    EccDealt(l, blocks);
    assert (first + second)[..l.data] == first && (first + second)[l.data..] == second;
    RemaindersClean(blocks, l.ecc);
    CodewordsRead(l, text);
  }

  lemma {:induction false} DecodeIs(l: Layout, bits: seq<bool>, cw: seq<Byte>, n: nat)
    requires l.blocks > 0 && n == |cw| == l.data + Sum(EccLens(l)) && |bits| == 8 * n && Pack(bits, n) == cw
    ensures Decode(l, bits) == ReadMessage(l, cw)
  {
  }

  lemma {:induction false} DecodeExpanded(l: Layout, cw: seq<Byte>)
    requires l.blocks > 0 && |cw| == l.data + Sum(EccLens(l))
    ensures |Expand(cw)| == Width(l) && Decode(l, Expand(cw)) == ReadMessage(l, cw)
  {
    PackOfExpand(cw, |cw|);
    DecodeIs(l, Expand(cw), cw, |cw|);
  }

  /** Reading the stream of a text finds every block to be a codeword and returns the text. */
  lemma {:induction false} StreamDecodes(l: Layout, text: seq<Byte>)
    requires Sound(l) && Fits(l, |text|)
    ensures |Stream(l, text)| == Width(l) && Decode(l, Stream(l, text)) == Some(text)
  {
    MessageReads(l, text);
    DecodeExpanded(l, Message(l, text));
  }
}
