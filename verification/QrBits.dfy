/** Codewords as bits, the highest bit of each first. */
module QrBits {
  import opened QrField

  /** The bits of a byte, the highest first. */
  function BitsOf(b: Byte): (bits: seq<bool>)
    ensures |bits| == 8
  {
    [b.b7, b.b6, b.b5, b.b4, b.b3, b.b2, b.b1, b.b0]
  }

  function ByteOf(bits: seq<bool>): Byte
    requires |bits| == 8
  {
    Byte(bits[0], bits[1], bits[2], bits[3], bits[4], bits[5], bits[6], bits[7])
  }

  function Expand(cw: seq<Byte>): (bits: seq<bool>)
    ensures |bits| == 8 * |cw|
  {
    if |cw| == 0 then [] else Expand(cw[..|cw| - 1]) + BitsOf(cw[|cw| - 1])
  }

  /** The bytes of 8n bits. */
  function Pack(bits: seq<bool>, n: nat): (cw: seq<Byte>)
    requires |bits| == 8 * n
    ensures |cw| == n
    decreases n
  {
    if n == 0 then [] else Pack(bits[..|bits| - 8], n - 1) + [ByteOf(bits[|bits| - 8..])]
  }

  lemma {:induction false} ByteBits(b: Byte)
    ensures ByteOf(BitsOf(b)) == b
  {
  }

  lemma {:induction false} BitsByte(bits: seq<bool>)
    requires |bits| == 8
    ensures BitsOf(ByteOf(bits)) == bits
  {
  }

  lemma {:induction false} PackSnoc(bits: seq<bool>, last: seq<bool>, n: nat)
    requires |bits| == 8 * n && |last| == 8
    ensures Pack(bits + last, n + 1) == Pack(bits, n) + [ByteOf(last)]
  {
    assert (bits + last)[..|bits|] == bits && (bits + last)[|bits|..] == last;
  }

  lemma {:induction false} ExpandSnoc(cw: seq<Byte>, b: Byte)
    ensures Expand(cw + [b]) == Expand(cw) + BitsOf(b)
  {
    assert (cw + [b])[..|cw|] == cw;
  }

  predicate Packs(bits: seq<bool>, cw: seq<Byte>) {
    |bits| == 8 * |cw| && Pack(bits, |cw|) == cw && Expand(cw) == bits
  }

  lemma {:induction false} PacksSnoc(bits: seq<bool>, cw: seq<Byte>, last: seq<bool>, b: Byte)
    requires Packs(bits, cw) && |last| == 8 && ByteOf(last) == b && BitsOf(b) == last
    ensures Packs(bits + last, cw + [b])
  {
    ExpandSnoc(cw, b);
    PackSnoc(bits, last, |cw|);
  }

  lemma {:induction false} PackExpand(cw: seq<Byte>)
    ensures Packs(Expand(cw), cw)
  {
    var k: nat := 0;
    while k < |cw|
      invariant k <= |cw| && Packs(Expand(cw[..k]), cw[..k])
    {
      ByteBits(cw[k]);
      PacksSnoc(Expand(cw[..k]), cw[..k], BitsOf(cw[k]), cw[k]);
      ExpandSnoc(cw[..k], cw[k]);
      assert cw[..k + 1] == cw[..k] + [cw[k]];
      k := k + 1;
    }
    assert cw[..k] == cw;
  }

  lemma {:induction false} TakeNext(bits: seq<bool>, k: nat)
    requires 8 * k + 8 <= |bits|
    ensures bits[..8 * (k + 1)] == bits[..8 * k] + bits[8 * k..8 * k + 8]
  {
  }

  lemma {:induction false} ExpandPack(bits: seq<bool>, n: nat)
    requires |bits| == 8 * n
    ensures Packs(bits, Pack(bits, n))
  {
    var k: nat := 0;
    while k < n
      invariant k <= n && Packs(bits[..8 * k], Pack(bits[..8 * k], k))
    {
      var last := bits[8 * k..8 * k + 8];
      BitsByte(last);
      PacksSnoc(bits[..8 * k], Pack(bits[..8 * k], k), last, ByteOf(last));
      PackSnoc(bits[..8 * k], last, k);
      TakeNext(bits, k);
      k := k + 1;
    }
    assert bits[..8 * k] == bits;
  }

  lemma {:induction false} ConcatAssociates<T>(a: seq<T>, b: seq<T>, c: seq<T>)
    ensures (a + b) + c == a + (b + c)
  {
  }

  lemma {:induction false} FourParts<T>(a: seq<T>, b: seq<T>, c: seq<T>, d: seq<T>)
    ensures var s := a + b + c + d;
      s[..|a|] == a && s[|a|..|a| + |b|] == b && s[|a| + |b|..|a| + |b| + |c|] == c
  {
  }

  lemma {:induction false} PackOfExpand(cw: seq<Byte>, n: nat)
    requires n == |cw|
    ensures |Expand(cw)| == 8 * n && Pack(Expand(cw), n) == cw
  {
    PackExpand(cw);
  }

  lemma {:induction false} ExpandConcatSnoc(a: seq<Byte>, b: seq<Byte>, c: Byte)
    requires Expand(a + b) == Expand(a) + Expand(b)
    ensures Expand(a + (b + [c])) == Expand(a) + Expand(b + [c])
  {
    ConcatAssociates(a, b, [c]);
    ExpandSnoc(a + b, c);
    ExpandSnoc(b, c);
    ConcatAssociates(Expand(a), Expand(b), BitsOf(c));
  }

  lemma {:induction false} ExpandConcat(a: seq<Byte>, b: seq<Byte>)
    ensures Expand(a + b) == Expand(a) + Expand(b)
  {
    var k: nat := 0;
    assert a + b[..0] == a;
    while k < |b|
      invariant k <= |b| && Expand(a + b[..k]) == Expand(a) + Expand(b[..k])
    {
      ExpandConcatSnoc(a, b[..k], b[k]);
      assert b[..k + 1] == b[..k] + [b[k]];
      k := k + 1;
    }
    assert b[..k] == b;
  }
}
