/** Splitting codewords into blocks and interleaving them (internal/qr/qr.go;
    sections 7.5.1 and 7.6 of ISO/IEC 18004:2015). */
module QrBlocks {

  function Sum(lens: seq<nat>): nat {
    if lens == [] then 0 else Sum(lens[..|lens| - 1]) + lens[|lens| - 1]
  }

  function Lens<T>(blocks: seq<seq<T>>): (lens: seq<nat>)
    ensures |lens| == |blocks| && forall i :: 0 <= i < |blocks| ==> lens[i] == |blocks[i]|
  {
    seq(|blocks|, i requires 0 <= i < |blocks| => |blocks[i]|)
  }

  function Concat<T>(blocks: seq<seq<T>>): seq<T> {
    if |blocks| == 0 then [] else Concat(blocks[..|blocks| - 1]) + blocks[|blocks| - 1]
  }

  /** Consecutive blocks of the given lengths. */
  function Split<T>(cw: seq<T>, lens: seq<nat>): (blocks: seq<seq<T>>)
    requires Sum(lens) == |cw|
    ensures |blocks| == |lens|
    decreases |lens|
  {
    if lens == [] then []
    else
      var n := lens[|lens| - 1];
      Split(cw[..|cw| - n], lens[..|lens| - 1]) + [cw[|cw| - n..]]
  }

  lemma {:induction false} SplitLens<T>(cw: seq<T>, lens: seq<nat>)
    requires Sum(lens) == |cw|
    ensures Lens(Split(cw, lens)) == lens && Concat(Split(cw, lens)) == cw
    decreases |lens|
  {
    if lens != [] {
      var k := |lens| - 1;
      var n := lens[k];
      SplitLens(cw[..|cw| - n], lens[..k]);
      var blocks := Split(cw, lens);
      assert blocks[..k] == Split(cw[..|cw| - n], lens[..k]);
      assert Lens(blocks) == Lens(blocks[..k]) + [n];
      assert lens == lens[..k] + [n];
    }
  }

  lemma {:induction false} SplitSnoc<T>(cw: seq<T>, lens: seq<nat>, block: seq<T>)
    requires Sum(lens) == |cw|
    ensures Sum(lens + [|block|]) == |cw + block|
    ensures Split(cw + block, lens + [|block|]) == Split(cw, lens) + [block]
  {
    var more := lens + [|block|];
    assert more[..|more| - 1] == lens;
    assert (cw + block)[..|cw|] == cw && (cw + block)[|cw|..] == block;
  }

  // ---------------------------------------------------------------- interleaving

  /** The i-th elements of the blocks that have one. */
  function Column<T>(blocks: seq<seq<T>>, i: nat): (col: seq<T>)
    ensures |col| == Count(Lens(blocks), i)
  {
    if |blocks| == 0 then []
    else
      var k := |blocks| - 1;
      assert Lens(blocks)[..k] == Lens(blocks[..k]);
      Column(blocks[..k], i) + (if i < |blocks[k]| then [blocks[k][i]] else [])
  }

  function Interleave<T>(blocks: seq<seq<T>>, n: nat): (s: seq<T>)
    ensures |s| == Counts(Lens(blocks), n)
  {
    if n == 0 then [] else Interleave(blocks, n - 1) + Column(blocks, n - 1)
  }

  /** How many blocks have an i-th element. */
  function Count(lens: seq<nat>, i: nat): nat {
    if lens == [] then 0 else Count(lens[..|lens| - 1], i) + (if i < lens[|lens| - 1] then 1 else 0)
  }

  function Counts(lens: seq<nat>, n: nat): nat {
    if n == 0 then 0 else Counts(lens, n - 1) + Count(lens, n - 1)
  }

  function Least(a: nat, b: nat): nat {
    if a < b then a else b
  }

  lemma {:induction false} CountsSnoc(lens: seq<nat>, x: nat, n: nat)
    ensures Counts(lens + [x], n) == Counts(lens, n) + Least(n, x)
    decreases n
  {
    if n > 0 {
      CountsSnoc(lens, x, n - 1);
      assert (lens + [x])[..|lens|] == lens;
    }
  }

  lemma {:induction false} CountsNothing(n: nat)
    ensures Counts([], n) == 0
    decreases n
  {
    if n > 0 {
      CountsNothing(n - 1);
    }
  }

  /** `n` blocks of one length. */
  lemma {:induction false} SumOfEqual(lens: seq<nat>, n: nat)
    requires forall i :: 0 <= i < |lens| ==> lens[i] == n
    ensures Sum(lens) == |lens| * n
    decreases |lens|
  {
    if lens != [] {
      var k := |lens| - 1;
      SumOfEqual(lens[..k], n);
      assert (k + 1) * n == k * n + n;
    }
  }

  predicate AllWithin(lens: seq<nat>, n: nat) {
    forall i :: 0 <= i < |lens| ==> lens[i] <= n
  }

  /** As many columns as the longest block has elements take up every element. */
  lemma {:induction false} CountsAll(lens: seq<nat>, n: nat)
    requires AllWithin(lens, n)
    ensures Counts(lens, n) == Sum(lens)
    decreases |lens|
  {
    if lens == [] {
      CountsNothing(n);
    } else {
      var k := |lens| - 1;
      CountsAll(lens[..k], n);
      CountsSnoc(lens[..k], lens[k], n);
      assert lens == lens[..k] + [lens[k]];
    }
  }

  // ---------------------------------------------------------------- reading an interleaved sequence

  /** Hands the elements of the i-th column to the blocks long enough for one. */
  function DealColumn<T>(col: seq<T>, lens: seq<nat>, parts: seq<seq<T>>, i: nat): (r: seq<seq<T>>)
    requires |col| == Count(lens, i) && |parts| == |lens|
    ensures |r| == |lens|
    decreases |lens|
  {
    if lens == [] then []
    else
      var k := |lens| - 1;
      if i < lens[k] then
        DealColumn(col[..|col| - 1], lens[..k], parts[..k], i) + [parts[k] + [col[|col| - 1]]]
      else
        DealColumn(col, lens[..k], parts[..k], i) + [parts[k]]
  }

  /** Blocks of the given lengths from their interleaved elements. */
  function Deal<T>(s: seq<T>, lens: seq<nat>, n: nat): (blocks: seq<seq<T>>)
    requires |s| == Counts(lens, n)
    ensures |blocks| == |lens|
    decreases n
  {
    if n == 0 then seq(|lens|, i => [])
    else
      var c := |s| - Count(lens, n - 1);
      DealColumn(s[c..], lens, Deal(s[..c], lens, n - 1), n - 1)
  }

  /** The first `n` elements of every block. */
  function Heads<T>(blocks: seq<seq<T>>, n: nat): (r: seq<seq<T>>)
    ensures |r| == |blocks|
  {
    seq(|blocks|, i requires 0 <= i < |blocks| => blocks[i][..Least(n, |blocks[i]|)])
  }

  lemma {:induction false} LensSnoc<T>(blocks: seq<seq<T>>, block: seq<T>)
    ensures Lens(blocks + [block]) == Lens(blocks) + [|block|]
  {
  }

  lemma {:induction false} HeadsSnoc<T>(blocks: seq<seq<T>>, block: seq<T>, i: nat)
    ensures Heads(blocks + [block], i) == Heads(blocks, i) + [Head(block, i)]
  {
  }

  lemma {:induction false} ColumnSnoc<T>(blocks: seq<seq<T>>, block: seq<T>, i: nat)
    ensures Column(blocks + [block], i) == Column(blocks, i) + Tip(block, i)
  {
    var more := blocks + [block];
    assert more[..|more| - 1] == blocks && more[|more| - 1] == block;
  }

  lemma {:induction false} DealColumnSnoc<T>(col: seq<T>, lens: seq<nat>, parts: seq<seq<T>>, i: nat, part: seq<T>, len: nat, last: seq<T>)
    requires |col| == Count(lens, i) && |parts| == |lens| && |last| == (if i < len then 1 else 0)
    ensures |col + last| == Count(lens + [len], i)
    ensures DealColumn(col + last, lens + [len], parts + [part], i) == DealColumn(col, lens, parts, i) + [part + last]
  {
    assert (lens + [len])[..|lens|] == lens && (parts + [part])[..|parts|] == parts;
    if i < len {
      assert (col + last)[..|col|] == col && [(col + last)[|col|]] == last;
    } else {
      assert col + last == col && part + last == part;
    }
  }

  /** The i-th column extends the first `i` elements of every block. */
  predicate ColumnDealt<T(==)>(blocks: seq<seq<T>>, i: nat) {
    DealColumn(Column(blocks, i), Lens(blocks), Heads(blocks, i), i) == Heads(blocks, i + 1)
  }

  /** The column of one more block. */
  function Tip<T>(block: seq<T>, i: nat): (last: seq<T>)
    ensures |last| == (if i < |block| then 1 else 0)
  {
    if i < |block| then [block[i]] else []
  }

  function Head<T>(block: seq<T>, i: nat): seq<T> {
    block[..Least(i, |block|)]
  }

  lemma {:induction false} TipExtends<T>(block: seq<T>, i: nat)
    ensures Head(block, i) + Tip(block, i) == Head(block, i + 1)
  {
  }

  lemma {:induction false} DealtTogether<T>(blocks: seq<seq<T>>, i: nat, block: seq<T>, col: seq<T>, lens: seq<nat>, parts: seq<seq<T>>)
    requires |col| == Count(lens, i) && |parts| == |lens| && DealColumn(col, lens, parts, i) == Heads(blocks, i + 1)
    ensures |col + Tip(block, i)| == Count(lens + [|block|], i)
    ensures DealColumn(col + Tip(block, i), lens + [|block|], parts + [Head(block, i)], i) == Heads(blocks, i + 1) + [Head(block, i + 1)]
  {
    DealColumnSnoc(col, lens, parts, i, Head(block, i), |block|, Tip(block, i));
    TipExtends(block, i);
  }

  lemma {:induction false} OneMoreBlock<T>(blocks: seq<seq<T>>, block: seq<T>, i: nat)
    requires ColumnDealt(blocks, i)
    ensures ColumnDealt(blocks + [block], i)
  {
    LensSnoc(blocks, block);
    ColumnSnoc(blocks, block, i);
    HeadsSnoc(blocks, block, i);
    HeadsSnoc(blocks, block, i + 1);
    DealtTogether(blocks, i, block, Column(blocks, i), Lens(blocks), Heads(blocks, i));
  }

  lemma {:induction false} DealOneColumn<T>(blocks: seq<seq<T>>, i: nat)
    ensures ColumnDealt(blocks, i)
  {
    var k: nat := 0;
    while k < |blocks|
      invariant k <= |blocks| && ColumnDealt(blocks[..k], i)
    {
      OneMoreBlock(blocks[..k], blocks[k], i);
      assert blocks[..k + 1] == blocks[..k] + [blocks[k]];
      k := k + 1;
    }
    assert blocks[..k] == blocks;
  }

  lemma {:induction false} DealSnoc<T>(s: seq<T>, col: seq<T>, lens: seq<nat>, m: nat)
    requires |s| == Counts(lens, m) && |col| == Count(lens, m)
    ensures |s + col| == Counts(lens, m + 1)
    ensures Deal(s + col, lens, m + 1) == DealColumn(col, lens, Deal(s, lens, m), m)
  {
    assert (s + col)[..|s|] == s && (s + col)[|s|..] == col;
  }

  lemma {:induction false} NothingDealt<T>(blocks: seq<seq<T>>)
    ensures Deal(Interleave(blocks, 0), Lens(blocks), 0) == Heads(blocks, 0)
  {
    assert Heads(blocks, 0) == seq(|blocks|, i => []);
  }

  predicate Dealt<T(==)>(blocks: seq<seq<T>>, n: nat) {
    Deal(Interleave(blocks, n), Lens(blocks), n) == Heads(blocks, n)
  }

  lemma {:induction false} NextColumn<T>(blocks: seq<seq<T>>, m: nat)
    requires Dealt(blocks, m)
    ensures Dealt(blocks, m + 1)
  {
    DealSnoc(Interleave(blocks, m), Column(blocks, m), Lens(blocks), m);
    DealOneColumn(blocks, m);
    assert Interleave(blocks, m + 1) == Interleave(blocks, m) + Column(blocks, m);
  }

  lemma {:induction false} DealInterleaved<T>(blocks: seq<seq<T>>, n: nat)
    ensures Dealt(blocks, n)
  {
    NothingDealt(blocks);
    var m: nat := 0;
    while m < n
      invariant m <= n && Dealt(blocks, m)
    {
      NextColumn(blocks, m);
      m := m + 1;
    }
  }

  /** Interleaving loses nothing: dealing the columns out again restores the blocks. */
  lemma {:induction false} DealRestores<T>(blocks: seq<seq<T>>, n: nat)
    requires AllWithin(Lens(blocks), n)
    ensures Deal(Interleave(blocks, n), Lens(blocks), n) == blocks
  {
    DealInterleaved(blocks, n);
    forall i | 0 <= i < |blocks|
      ensures Heads(blocks, n)[i] == blocks[i]
    {
      assert Lens(blocks)[i] <= n;
      assert blocks[i][..|blocks[i]|] == blocks[i];
    }
  }

  // ---------------------------------------------------------------- the loop

  method AppendColumn<T>(start: seq<T>, blocks: seq<seq<T>>, i: nat) returns (out: seq<T>)
    ensures out == start + Column(blocks, i)
  {
    out := start;
    var k: nat := 0;
    while k < |blocks|
      invariant k <= |blocks| && out == start + Column(blocks[..k], i)
    {
      assert blocks[..k + 1][..k] == blocks[..k];
      if i < |blocks[k]| {
        out := out + [blocks[k][i]];
      }
      k := k + 1;
    }
    assert blocks[..k] == blocks;
  }

  /** Takes the blocks' first elements, then their second ones, and so on; a block that has ended is skipped. */
  method InterleaveColumns<T>(blocks: seq<seq<T>>, n: nat) returns (out: seq<T>)
    ensures out == Interleave(blocks, n)
  {
    out := [];
    var i: nat := 0;
    while i < n
      invariant i <= n && out == Interleave(blocks, i)
    {
      out := AppendColumn(out, blocks, i);
      i := i + 1;
    }
  }

  // ---------------------------------------------------------------- lengths of the blocks

  /** `n` codewords in `k` blocks as equal as possible, longer ones last. */
  function BlockLens(n: nat, k: nat): (lens: seq<nat>)
    requires k > 0
    ensures |lens| == k
  {
    seq(k, i requires 0 <= i < k => if i >= k - n % k then n / k + 1 else n / k)
  }

  /** Elements in the first i blocks, of which the last ones have one more. */
  function FirstLens(n: nat, k: nat, i: nat): int
    requires 0 < k
  {
    i * (n / k) + if i > k - n % k then i - (k - n % k) else 0
  }

  lemma {:induction false} FirstLensStep(n: nat, k: nat, i: nat)
    requires 0 < k && i < k
    ensures FirstLens(n, k, i + 1) == FirstLens(n, k, i) + n / k + if i >= k - n % k then 1 else 0
  {
    assert (i + 1) * (n / k) == i * (n / k) + n / k;
  }

  lemma {:induction false} SumOfLens(n: nat, k: nat, i: nat)
    requires 0 < k && i <= k
    ensures Sum(BlockLens(n, k)[..i]) == FirstLens(n, k, i)
    decreases i
  {
    if i > 0 {
      var lens := BlockLens(n, k);
      SumOfLens(n, k, i - 1);
      FirstLensStep(n, k, i - 1);
      assert lens[..i][..i - 1] == lens[..i - 1];
    }
  }

  /** The blocks take up all codewords. */
  lemma {:induction false} LensSum(n: nat, k: nat)
    requires k > 0
    ensures Sum(BlockLens(n, k)) == n && AllWithin(BlockLens(n, k), n / k + 1)
  {
    SumOfLens(n, k, k);
    assert BlockLens(n, k)[..k] == BlockLens(n, k);
    assert n == k * (n / k) + n % k;
  }
}
