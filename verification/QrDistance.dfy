/** What the error-correction words are for: a block damaged in up to n places never passes for a clean one
    (internal/qr/qr.go; section 7.5 of ISO/IEC 18004:2015). */
module QrDistance {
  import opened QrField
  import Polynomials
  import opened PowerSums
  import RingPowers
  import opened QrReedSolomon
  import opened QrTables

  lemma {:induction false} PowersMultiply(i: nat, j: nat)
    ensures Mul(Pow(i), Pow(j)) != ZERO
  {
    PowAdd(i, j);
    PowNotZero(i + j);
  }

  /** GF(256) has no zero divisors. */
  lemma {:induction false} NonZeroBytes(a: Byte, b: Byte)
    requires a != ZERO && b != ZERO
    ensures Mul(a, b) != ZERO
  {
    var i := EveryByteIsPower(a, ORDER);
    var j := EveryByteIsPower(b, ORDER);
    PowersMultiply(i, j);
  }

  lemma {:induction false} GfHasNoZeroDivisors()
    ensures NoZeroDivisors(GF)
  {
    forall a, b
      ensures NonZeroProduct(GF, a, b)
    {
      if a != ZERO && b != ZERO {
        NonZeroBytes(a, b);
        GfIs(a, b);
      }
    }
  }

  lemma {:induction false} GfPowersDiffer(n: nat)
    requires n <= ORDER
    ensures PowersDiffer(GF, X, n)
  {
    forall j, k | 0 <= j < k < n
      ensures RingPowers.Raise(GF, X, j) != RingPowers.Raise(GF, X, k)
    {
      RaiseIsPow(j);
      RaiseIsPow(k);
      PowInjective(j, k);
    }
  }

  /** Damage in up to n places is seen: a word of up to 255 bytes of which between 1 and n are not zero is never clean. */
  lemma {:induction false} DamageIsSeen(word: seq<Byte>, n: nat)
    requires |word| <= ORDER && 0 < Weight(GF, word) <= n
    ensures !Clean(word, n)
  {
    GfLawful();
    GfHasNoZeroDivisors();
    GfPowersDiffer(|word|);
    var i := DamageShows(GF, X, word, n);
    RaiseIsPow(i);
    assert Polynomials.Eval(GF, word, Powers(n)[i]) != GF.zero;
  }

  /** Places in which two words differ. */
  function Distance(a: seq<Byte>, b: seq<Byte>): nat
    requires |a| == |b|
  {
    if |a| == 0 then 0
    else Distance(a[..|a| - 1], b[..|b| - 1]) + (if a[|a| - 1] == b[|b| - 1] then 0 else 1)
  }

  lemma {:induction false} XorIsZero(a: Byte, b: Byte)
    ensures Xor(a, b) == ZERO <==> a == b
  {
  }

  lemma {:induction false} SumSnocs(a: seq<Byte>, b: seq<Byte>, p: Byte, q: Byte)
    requires |a| == |b|
    ensures var s := Polynomials.Add(GF, a + [p], b + [q]);
      s[..|a|] == Polynomials.Add(GF, a, b) && (s[|a|] == ZERO <==> p == q)
  {
    XorIsZero(p, q);
    GfIs(p, q);
  }

  lemma {:induction false} DistanceIsWeight(a: seq<Byte>, b: seq<Byte>)
    requires |a| == |b|
    ensures Distance(a, b) == Weight(GF, Polynomials.Add(GF, a, b))
    decreases |a|
  {
    if |a| > 0 {
      var m := |a| - 1;
      DistanceIsWeight(a[..m], b[..m]);
      SumSnocs(a[..m], b[..m], a[m], b[m]);
      assert a == a[..m] + [a[m]] && b == b[..m] + [b[m]];
    }
  }

  lemma {:induction false} NoDistance(a: seq<Byte>, b: seq<Byte>)
    requires |a| == |b| && Distance(a, b) == 0
    ensures a == b
    decreases |a|
  {
    if |a| > 0 {
      var m := |a| - 1;
      NoDistance(a[..m], b[..m]);
      assert a == a[..m] + [a[m]] && b == b[..m] + [b[m]];
    }
  }

  lemma {:induction false} SumIsClean(a: seq<Byte>, b: seq<Byte>, n: nat)
    requires |a| == |b| && Clean(a, n) && Clean(b, n)
    ensures Clean(Polynomials.Add(GF, a, b), n)
  {
    GfLawful();
    forall i | 0 <= i < n
      ensures Polynomials.Eval(GF, Polynomials.Add(GF, a, b), Powers(n)[i]) == GF.zero
    {
      Polynomials.EvalAdd(GF, a, b, Powers(n)[i]);
      Polynomials.PlusZero(GF, GF.zero);
    }
  }

  /** Two different clean words of up to 255 bytes differ in more than n places. */
  lemma {:induction false} CleanWordsAreFarApart(a: seq<Byte>, b: seq<Byte>, n: nat)
    requires |a| == |b| <= ORDER && Clean(a, n) && Clean(b, n) && a != b
    ensures Distance(a, b) > n
  {
    DistanceIsWeight(a, b);
    SumIsClean(a, b, n);
    if Distance(a, b) == 0 {
      NoDistance(a, b);
    }
    if Distance(a, b) <= n {
      DamageIsSeen(Polynomials.Add(GF, a, b), n);
    }
  }

  /** The codewords of two different blocks differ in more than n places. */
  lemma {:induction false} BlocksAreFarApart(a: seq<Byte>, b: seq<Byte>, n: nat)
    requires |a| == |b| && |a| + n <= ORDER && a != b
    ensures Distance(a + Remainder(a, n), b + Remainder(b, n)) > n
  {
    CodewordIsClean(a, n);
    CodewordIsClean(b, n);
    assert (a + Remainder(a, n))[..|a|] == a && (b + Remainder(b, n))[..|b|] == b;
    CleanWordsAreFarApart(a + Remainder(a, n), b + Remainder(b, n), n);
  }

  lemma {:induction false} QuotientBelow(n: nat, k: nat, m: int)
    requires k > 0 && n < k * m
    ensures n / k < m
  {
    var q := n / k;
    assert k * q <= n;
    ProductsGrow(k, m, q);
  }

  lemma {:induction false} ProductsGrow(k: nat, m: int, q: nat)
    ensures m <= q ==> k * m <= k * q
  {
  }

  lemma {:induction false} TotalIsShort(v: nat)
    requires Version(v)
    ensures Total(v) < 255 * Blocks(v)
  {
  }

  lemma {:induction false} Spread(data: int, total: int, blocks: nat, ecc: nat)
    requires data == total - ecc * blocks && total < 255 * blocks
    ensures data < blocks * (255 - ecc)
  {
    assert blocks * (255 - ecc) == 255 * blocks - ecc * blocks;
  }

  /** Every block of every version is short enough for that. */
  lemma {:induction false} EveryBlockIsShort(v: nat, l: Layout)
    requires Version(v) && l == LayoutOf(v)
    ensures l.blocks > 0 && l.data / l.blocks + 1 + l.ecc <= ORDER
  {
    EveryLayoutIsSound(v);
    TotalIsShort(v);
    Spread(l.data, Total(v), l.blocks, l.ecc);
    QuotientBelow(l.data, l.blocks, 255 - l.ecc);
  }
}
