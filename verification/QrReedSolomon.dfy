/** The generator polynomial and the division that yields the error-correction words
    (internal/qr/qr.go; section 7.5 of ISO/IEC 18004:2015). */
module QrReedSolomon {
  import opened QrField
  import opened Polynomials

  function Powers(n: nat): (roots: seq<Byte>)
    ensures |roots| == n && forall i :: 0 <= i < n ==> roots[i] == Pow(i)
  {
    seq(n, i requires 0 <= i < n => Pow(i))
  }

  /** (x - x^0)(x - x^1)...(x - x^(n-1)). */
  function Gen(n: nat): (g: seq<Byte>)
    ensures |g| == n + 1
  {
    WithRoots(GF, Powers(n))
  }

  function Remainder(data: seq<Byte>, n: nat): (ec: seq<Byte>)
    ensures |ec| == n
  {
    Rest(GF, data, Gen(n))
  }

  /** A block with its error-correction words is a multiple of the generator. */
  lemma {:induction false} CodewordDivides(data: seq<Byte>, n: nat) returns (q: seq<Byte>)
    ensures |q| == |data| && data + Remainder(data, n) == Product(GF, q, Gen(n))
  {
    GfLawful();
    Monic(GF, Powers(n));
    DataAndRest(GF, data, Gen(n));
    q := Quotient(GF, data + Zeros(GF, n), Gen(n), |data|);
  }

  /** Hence it vanishes at x^0 to x^(n-1). */
  lemma {:induction false} CodewordVanishes(data: seq<Byte>, n: nat, i: nat)
    requires i < n
    ensures Eval(GF, data + Remainder(data, n), Pow(i)) == ZERO
  {
    GfLawful();
    var q := CodewordDivides(data, n);
    EvalProduct(GF, q, Gen(n), Pow(i));
    VanishesAtRoots(GF, Powers(n), i);
    Polynomials.TimesZero(GF, Eval(GF, q, Pow(i)));
  }

  /** The word vanishes at the first `n` powers of x: no error is seen. */
  predicate Clean(word: seq<Byte>, n: nat) {
    forall i :: 0 <= i < n ==> Eval(GF, word, Powers(n)[i]) == GF.zero
  }

  lemma {:induction false} CodewordIsClean(data: seq<Byte>, n: nat)
    ensures Clean(data + Remainder(data, n), n)
  {
    forall i | 0 <= i < n
      ensures Eval(GF, data + Remainder(data, n), Powers(n)[i]) == GF.zero
    {
      CodewordVanishes(data, n, i);
    }
  }

  /** No other error-correction words complete the block to a multiple of the generator. */
  lemma {:induction false} RemainderIsUnique(data: seq<Byte>, n: nat, ec: seq<Byte>, q: seq<Byte>)
    requires |ec| == n && |q| == |data| && data + ec == Product(GF, q, Gen(n))
    ensures ec == Remainder(data, n)
  {
    GfLawful();
    Monic(GF, Powers(n));
    RestIsUnique(GF, data, Gen(n), ec, q);
  }

  // ---------------------------------------------------------------- the loops

  ghost predicate Tables(exp: array<Byte>, log: array<nat>)
    reads exp, log
  {
    exp.Length == 512 && ExpOk(exp[..], 512) && log.Length == 256 && LogOk(log[..], ORDER)
  }

  /** Multiplies the polynomial `p` by (x - a). */
  method MultiplyRoot(exp: array<Byte>, log: array<nat>, p: seq<Byte>, a: Byte) returns (r: array<Byte>)
    requires Tables(exp, log)
    ensures fresh(r) && r[..] == TimesRoot(GF, p, a)
  {
    GfLawful();
    r := new Byte[|p| + 1](_ => ZERO);
    var j: nat := 0;
    SpreadNothing(GF, p, a);
    assert r[..] == Spread(GF, p, a, 0);
    while j < |p|
      invariant j <= |p| && r[..] == Spread(GF, p, a, j) && r.Length == |p| + 1
    {
      SpreadStep(GF, p, a, j);
      ghost var before := r[..];
      GfIs(r[j], p[j]);
      r[j] := Xor(r[j], p[j]);
      var m := GfMul(exp, log, p[j], a);
      GfIs(r[j + 1], m);
      GfIs(p[j], a);
      r[j + 1] := Xor(r[j + 1], m);
      assert r[..] == before[j := GF.plus(before[j], p[j])][j + 1 := GF.plus(before[j + 1], m)];
      j := j + 1;
    }
    SpreadAll(GF, p, a);
  }

  lemma {:induction false} GenStep(n: nat)
    ensures Gen(n + 1) == TimesRoot(GF, Gen(n), Pow(n))
  {
    assert Powers(n + 1)[..n] == Powers(n);
  }

  /** The generator polynomial of degree `n`; the table of powers has 512 entries. */
  method GenPoly(exp: array<Byte>, log: array<nat>, n: nat) returns (g: seq<Byte>)
    requires Tables(exp, log) && n <= 512
    ensures g == Gen(n)
  {
    g := [ONE];
    var i: nat := 0;
    while i < n
      invariant i <= n && g == Gen(i)
    {
      GenStep(i);
      assert exp[..][i] == Pow(i);
      var r := MultiplyRoot(exp, log, g, exp[i]);
      g := r[..];
      i := i + 1;
    }
  }

  /** Adds `c` times the generator from position `i` on, which cancels a leading coefficient `c`. */
  method Cancel(exp: array<Byte>, log: array<nat>, res: array<Byte>, gen: seq<Byte>, i: nat, c: Byte)
    requires Tables(exp, log) && res != exp && i + |gen| <= res.Length
    modifies res
    ensures res[..] == AddAt(GF, old(res[..]), Scale(GF, gen, c), i)
  {
    ghost var start := res[..];
    PartlyNothing(GF, start, gen, c, i);
    var j: nat := 0;
    while j < |gen|
      invariant j <= |gen| && res[..] == Partly(GF, start, gen, c, i, j)
      invariant Tables(exp, log)
    {
      PartlyStep(GF, start, gen, c, i, j);
      ghost var before := res[..];
      var m := GfMul(exp, log, gen[j], c);
      GfIs(gen[j], c);
      GfIs(res[i + j], m);
      var sum := Xor(res[i + j], m);
      res[i + j] := sum;
      assert res[..] == before[i + j := sum];
      j := j + 1;
    }
    PartlyAll(GF, start, gen, c, i);
  }

  /** One step of the division, which a zero coefficient skips. */
  method Step(exp: array<Byte>, log: array<nat>, res: array<Byte>, gen: seq<Byte>, i: nat)
    requires Tables(exp, log) && res != exp && i < res.Length && i + |gen| <= res.Length
    modifies res
    ensures res[..] == AddAt(GF, old(res[..]), Scale(GF, gen, old(res[i])), i)
  {
    var c := res[i];
    if c == ZERO {
      GfLawful();
      NothingToCancel(GF, res[..], gen, i);
    } else {
      Cancel(exp, log, res, gen, i, c);
    }
  }

  /** The data followed by `n` zeros. */
  method Pad(data: seq<Byte>, n: nat) returns (res: array<Byte>)
    ensures fresh(res) && res[..] == data + Zeros(GF, n)
  {
    res := new Byte[|data| + n](_ => ZERO);
    var i: nat := 0;
    while i < |data|
      invariant i <= |data| && res.Length == |data| + n
      invariant res[..] == data[..i] + Zeros(GF, |data| + n - i)
    {
      ghost var before := res[..];
      res[i] := data[i];
      assert res[..] == before[i := data[i]];
      assert res[..] == data[..i + 1] + Zeros(GF, |data| + n - (i + 1));
      i := i + 1;
    }
  }

  /** Cancels the first `n` coefficients. */
  method Divide(exp: array<Byte>, log: array<nat>, res: array<Byte>, gen: seq<Byte>, n: nat)
    requires Tables(exp, log) && res != exp && |gen| > 0 && n + |gen| <= res.Length + 1
    modifies res
    ensures res[..] == Cancelled(GF, old(res[..]), gen, n)
  {
    ghost var word := res[..];
    var i: nat := 0;
    while i < n
      invariant i <= n && res[..] == Cancelled(GF, word, gen, i) && Tables(exp, log)
    {
      CancelNext(GF, word, gen, i, res[..]);
      Step(exp, log, res, gen, i);
      i := i + 1;
    }
  }

  /** The error-correction words of one block. */
  method RsRemainder(exp: array<Byte>, log: array<nat>, data: seq<Byte>, ecLen: nat) returns (ec: seq<Byte>)
    requires Tables(exp, log) && ecLen <= 512
    ensures ec == Remainder(data, ecLen)
  {
    var gen := GenPoly(exp, log, ecLen);
    var res := Pad(data, ecLen);
    Divide(exp, log, res, gen, |data|);
    ec := res[|data|..];
  }
}
