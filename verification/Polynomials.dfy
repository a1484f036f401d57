/** Polynomials over a commutative ring of characteristic two, written from the highest power down:
    values, products and the division by a monic polynomial. */
module Polynomials {

  datatype Ring<!T> = Ring(zero: T, one: T, plus: (T, T) -> T, times: (T, T) -> T)

  /** The laws of the ring for three of its elements. */
  ghost predicate Law<T>(f: Ring<T>, a: T, b: T, c: T) {
    && f.plus(f.plus(a, b), c) == f.plus(a, f.plus(b, c))
    && f.plus(a, b) == f.plus(b, a)
    && f.plus(a, f.zero) == a
    && f.plus(a, a) == f.zero
    && f.times(f.times(a, b), c) == f.times(a, f.times(b, c))
    && f.times(a, b) == f.times(b, a)
    && f.times(f.plus(a, b), c) == f.plus(f.times(a, c), f.times(b, c))
    && f.times(f.zero, a) == f.zero
    && f.times(f.one, a) == a
  }

  ghost predicate Lawful<T(!new)>(f: Ring<T>) {
    forall a, b, c :: Law(f, a, b, c)
  }

  function Zeros<T>(f: Ring<T>, n: nat): (p: seq<T>)
    ensures |p| == n && forall i :: 0 <= i < n ==> p[i] == f.zero
  {
    seq(n, i => f.zero)
  }

  function Scale<T>(f: Ring<T>, p: seq<T>, c: T): (r: seq<T>)
    ensures |r| == |p|
  {
    seq(|p|, i requires 0 <= i < |p| => f.times(p[i], c))
  }

  function Add<T>(f: Ring<T>, p: seq<T>, q: seq<T>): (r: seq<T>)
    requires |p| == |q|
    ensures |r| == |p|
  {
    seq(|p|, i requires 0 <= i < |p| => f.plus(p[i], q[i]))
  }

  /** Value of a polynomial at `x`. */
  function Eval<T>(f: Ring<T>, p: seq<T>, x: T): T {
    if |p| == 0 then f.zero else f.plus(f.times(Eval(f, p[..|p| - 1], x), x), p[|p| - 1])
  }

  /** The product of two polynomials. */
  function Product<T>(f: Ring<T>, q: seq<T>, g: seq<T>): (r: seq<T>)
    requires |g| > 0
    ensures |r| == |q| + |g| - 1
  {
    if |q| == 0 then Zeros(f, |g| - 1)
    else
      var k := |q| - 1;
      Add(f, Product(f, q[..k], g) + [f.zero], Zeros(f, k) + Scale(f, g, q[k]))
  }

  /** `p` times (x - a). */
  function TimesRoot<T>(f: Ring<T>, p: seq<T>, a: T): (r: seq<T>)
    ensures |r| == |p| + 1
  {
    Add(f, p + [f.zero], [f.zero] + Scale(f, p, a))
  }

  /** The product of (x - a) for all `roots`. */
  function WithRoots<T>(f: Ring<T>, roots: seq<T>): (g: seq<T>)
    ensures |g| == |roots| + 1
  {
    if |roots| == 0 then [f.one] else TimesRoot(f, WithRoots(f, roots[..|roots| - 1]), roots[|roots| - 1])
  }

  // ---------------------------------------------------------------- laws of the ring

  lemma {:induction false} PlusZero<T(!new)>(f: Ring<T>, a: T)
    requires Lawful(f)
    ensures f.plus(a, f.zero) == a && f.plus(f.zero, a) == a && f.plus(a, a) == f.zero
  {
    assert Law(f, a, f.zero, a);
  }

  lemma {:induction false} PlusFour<T(!new)>(f: Ring<T>, p: T, q: T, r: T, s: T)
    requires Lawful(f)
    ensures f.plus(f.plus(p, q), f.plus(r, s)) == f.plus(f.plus(p, r), f.plus(q, s))
  {
    assert Law(f, p, q, f.plus(r, s));
    assert Law(f, q, r, s);
    assert Law(f, r, q, s);
    assert Law(f, p, r, f.plus(q, s));
  }

  /** In characteristic two adding twice changes nothing. */
  lemma {:induction false} PlusTwice<T(!new)>(f: Ring<T>, a: T, b: T)
    requires Lawful(f)
    ensures f.plus(a, f.plus(a, b)) == b
  {
    assert Law(f, a, a, b);
    PlusZero(f, b);
  }

  lemma {:induction false} TimesZero<T(!new)>(f: Ring<T>, a: T)
    requires Lawful(f)
    ensures f.times(a, f.zero) == f.zero && f.times(f.zero, a) == f.zero
  {
    assert Law(f, a, f.zero, a);
  }

  lemma {:induction false} TimesOne<T(!new)>(f: Ring<T>, a: T)
    requires Lawful(f)
    ensures f.times(f.one, a) == a
  {
    assert Law(f, a, a, a);
  }

  lemma {:induction false} Distributes<T(!new)>(f: Ring<T>, a: T, b: T, c: T)
    requires Lawful(f)
    ensures f.times(f.plus(a, b), c) == f.plus(f.times(a, c), f.times(b, c))
  {
    assert Law(f, a, b, c);
  }

  lemma {:induction false} TimesSwaps<T(!new)>(f: Ring<T>, a: T, b: T, c: T)
    requires Lawful(f)
    ensures f.times(f.times(a, b), c) == f.times(f.times(a, c), b)
  {
    assert Law(f, a, b, c);
    assert Law(f, b, c, a);
    assert Law(f, a, c, b);
  }

  lemma {:induction false} TimesCommutes<T(!new)>(f: Ring<T>, a: T, b: T)
    requires Lawful(f)
    ensures f.times(a, b) == f.times(b, a)
  {
    assert Law(f, a, b, a);
  }

  // ---------------------------------------------------------------- evaluation

  lemma {:induction false} EvalSnoc<T>(f: Ring<T>, p: seq<T>, c: T, x: T)
    ensures Eval(f, p + [c], x) == f.plus(f.times(Eval(f, p, x), x), c)
  {
    assert (p + [c])[..|p|] == p;
  }

  lemma {:induction false} EvalAdd<T(!new)>(f: Ring<T>, p: seq<T>, q: seq<T>, x: T)
    requires Lawful(f) && |p| == |q|
    ensures Eval(f, Add(f, p, q), x) == f.plus(Eval(f, p, x), Eval(f, q, x))
    decreases |p|
  {
    if |p| == 0 {
      PlusZero(f, f.zero);
    } else {
      var k := |p| - 1;
      var v, w := Eval(f, p[..k], x), Eval(f, q[..k], x);
      EvalAdd(f, p[..k], q[..k], x);
      assert Add(f, p, q) == Add(f, p[..k], q[..k]) + [f.plus(p[k], q[k])];
      EvalSnoc(f, Add(f, p[..k], q[..k]), f.plus(p[k], q[k]), x);
      Distributes(f, v, w, x);
      PlusFour(f, f.times(v, x), f.times(w, x), p[k], q[k]);
    }
  }

  lemma {:induction false} EvalScale<T(!new)>(f: Ring<T>, p: seq<T>, c: T, x: T)
    requires Lawful(f)
    ensures Eval(f, Scale(f, p, c), x) == f.times(Eval(f, p, x), c)
    decreases |p|
  {
    if |p| == 0 {
      TimesZero(f, c);
    } else {
      var k := |p| - 1;
      var v := Eval(f, p[..k], x);
      EvalScale(f, p[..k], c, x);
      assert Scale(f, p, c) == Scale(f, p[..k], c) + [f.times(p[k], c)];
      EvalSnoc(f, Scale(f, p[..k], c), f.times(p[k], c), x);
      TimesSwaps(f, v, c, x);
      Distributes(f, f.times(v, x), p[k], c);
    }
  }

  lemma {:induction false} EvalLeadingZeros<T(!new)>(f: Ring<T>, k: nat, p: seq<T>, x: T)
    requires Lawful(f)
    ensures Eval(f, Zeros(f, k) + p, x) == Eval(f, p, x)
    decreases |p|, k
  {
    if |p| > 0 {
      var n := |p| - 1;
      EvalLeadingZeros(f, k, p[..n], x);
      assert Zeros(f, k) + p == (Zeros(f, k) + p[..n]) + [p[n]];
      EvalSnoc(f, Zeros(f, k) + p[..n], p[n], x);
    } else if k == 0 {
      assert Zeros(f, k) + p == p;
    } else {
      EvalLeadingZeros(f, k - 1, p, x);
      assert Zeros(f, k) + p == (Zeros(f, k - 1) + p) + [f.zero];
      EvalSnoc(f, Zeros(f, k - 1) + p, f.zero, x);
      TimesZero(f, x);
      PlusZero(f, f.zero);
    }
  }

  lemma {:induction false} EvalTimesRoot<T(!new)>(f: Ring<T>, p: seq<T>, a: T, x: T)
    requires Lawful(f)
    ensures Eval(f, TimesRoot(f, p, a), x) == f.times(Eval(f, p, x), f.plus(x, a))
  {
    var v := Eval(f, p, x);
    EvalAdd(f, p + [f.zero], [f.zero] + Scale(f, p, a), x);
    EvalSnoc(f, p, f.zero, x);
    assert Zeros(f, 1) + Scale(f, p, a) == [f.zero] + Scale(f, p, a);
    EvalLeadingZeros(f, 1, Scale(f, p, a), x);
    EvalScale(f, p, a, x);
    PlusZero(f, f.times(v, x));
    Distributes(f, x, a, v);
    TimesCommutes(f, v, x);
    TimesCommutes(f, v, a);
    TimesCommutes(f, v, f.plus(x, a));
  }

  lemma {:induction false} EvalNextRow<T(!new)>(f: Ring<T>, p: seq<T>, g: seq<T>, c: T, k: nat, x: T)
    requires Lawful(f) && |p| + 1 == k + |g|
    ensures Eval(f, Add(f, p + [f.zero], Zeros(f, k) + Scale(f, g, c)), x) ==
      f.plus(f.times(Eval(f, p, x), x), f.times(Eval(f, g, x), c))
  {
    EvalAdd(f, p + [f.zero], Zeros(f, k) + Scale(f, g, c), x);
    EvalSnoc(f, p, f.zero, x);
    EvalLeadingZeros(f, k, Scale(f, g, c), x);
    EvalScale(f, g, c, x);
    PlusZero(f, f.times(Eval(f, p, x), x));
  }

  lemma {:induction false} CollectFactor<T(!new)>(f: Ring<T>, v: T, w: T, x: T, c: T)
    requires Lawful(f)
    ensures f.plus(f.times(f.times(v, w), x), f.times(w, c)) == f.times(f.plus(f.times(v, x), c), w)
  {
    TimesSwaps(f, v, w, x);
    TimesCommutes(f, w, c);
    Distributes(f, f.times(v, x), c, w);
  }

  /** The value of a product is the product of the values. */
  lemma {:induction false} EvalProduct<T(!new)>(f: Ring<T>, q: seq<T>, g: seq<T>, x: T)
    requires Lawful(f) && |g| > 0
    ensures Eval(f, Product(f, q, g), x) == f.times(Eval(f, q, x), Eval(f, g, x))
    decreases |q|
  {
    if |q| == 0 {
      EvalLeadingZeros(f, |g| - 1, [], x);
      assert Zeros(f, |g| - 1) + [] == Zeros(f, |g| - 1);
      TimesZero(f, Eval(f, g, x));
    } else {
      var k := |q| - 1;
      EvalProduct(f, q[..k], g, x);
      EvalNextRow(f, Product(f, q[..k], g), g, q[k], k, x);
      CollectFactor(f, Eval(f, q[..k], x), Eval(f, g, x), x, q[k]);
    }
  }

  // ---------------------------------------------------------------- polynomials with given roots

  lemma {:induction false} VanishesAtRoots<T(!new)>(f: Ring<T>, roots: seq<T>, i: nat)
    requires Lawful(f) && i < |roots|
    ensures Eval(f, WithRoots(f, roots), roots[i]) == f.zero
    decreases |roots|
  {
    var m := |roots| - 1;
    var p, a, x := WithRoots(f, roots[..m]), roots[m], roots[i];
    EvalTimesRoot(f, p, a, x);
    if i == m {
      PlusZero(f, x);
      TimesZero(f, Eval(f, p, x));
    } else {
      VanishesAtRoots(f, roots[..m], i);
      assert roots[..m][i] == x;
      TimesZero(f, f.plus(x, a));
    }
  }

  lemma {:induction false} Monic<T(!new)>(f: Ring<T>, roots: seq<T>)
    requires Lawful(f)
    ensures WithRoots(f, roots)[0] == f.one
    decreases |roots|
  {
    if |roots| > 0 {
      Monic(f, roots[..|roots| - 1]);
      PlusZero(f, f.one);
    }
  }

  // ---------------------------------------------------------------- the division

  /** `res` with `p` added from position `k` on. */
  function AddAt<T>(f: Ring<T>, res: seq<T>, p: seq<T>, k: nat): (r: seq<T>)
    requires k + |p| <= |res|
    ensures |r| == |res|
  {
    res[..k] + Add(f, res[k..k + |p|], p) + res[k + |p|..]
  }

  /** `word` after its first `n` leading coefficients have been cancelled by multiples of `g`. */
  function Cancelled<T>(f: Ring<T>, word: seq<T>, g: seq<T>, n: nat): (r: seq<T>)
    requires |g| > 0 && n + |g| <= |word| + 1
    ensures |r| == |word|
    decreases n
  {
    if n == 0 then word
    else
      var before := Cancelled(f, word, g, n - 1);
      AddAt(f, before, Scale(f, g, before[n - 1]), n - 1)
  }

  lemma {:induction false} CancelNext<T>(f: Ring<T>, word: seq<T>, g: seq<T>, n: nat, before: seq<T>)
    requires |g| > 0 && n + |g| <= |word| && before == Cancelled(f, word, g, n)
    ensures AddAt(f, before, Scale(f, g, before[n]), n) == Cancelled(f, word, g, n + 1)
  {
  }

  /** The coefficients by which `g` was multiplied. */
  function Quotient<T>(f: Ring<T>, word: seq<T>, g: seq<T>, n: nat): (q: seq<T>)
    requires |g| > 0 && n + |g| <= |word| + 1
    ensures |q| == n
    decreases n
  {
    if n == 0 then [] else Quotient(f, word, g, n - 1) + [Cancelled(f, word, g, n - 1)[n - 1]]
  }

  /** What is left of `data` followed by zeros when multiples of `g` cancel `data`. */
  function Rest<T>(f: Ring<T>, data: seq<T>, g: seq<T>): (r: seq<T>)
    requires |g| > 0
    ensures |r| == |g| - 1
  {
    Cancelled(f, data + Zeros(f, |g| - 1), g, |data|)[|data|..]
  }

  lemma {:induction false} AddAtIsAdd<T(!new)>(f: Ring<T>, res: seq<T>, p: seq<T>, k: nat, tail: nat)
    requires Lawful(f) && k + |p| + tail == |res|
    ensures AddAt(f, res, p, k) == Add(f, res, Zeros(f, k) + p + Zeros(f, tail))
  {
    var padded := Zeros(f, k) + p + Zeros(f, tail);
    forall i | 0 <= i < |res|
      ensures AddAt(f, res, p, k)[i] == f.plus(res[i], padded[i])
    {
      PlusZero(f, res[i]);
    }
  }

  lemma {:induction false} AddThrice<T(!new)>(f: Ring<T>, a: seq<T>, b: seq<T>, c: seq<T>)
    requires Lawful(f) && |a| == |b| == |c|
    ensures Add(f, Add(f, a, b), c) == Add(f, a, Add(f, b, c))
  {
    forall i | 0 <= i < |a|
      ensures Add(f, Add(f, a, b), c)[i] == Add(f, a, Add(f, b, c))[i]
    {
      assert Law(f, a[i], b[i], c[i]);
    }
  }

  lemma {:induction false} PadAdd<T(!new)>(f: Ring<T>, a: seq<T>, b: seq<T>, z: nat)
    requires Lawful(f) && |a| == |b|
    ensures Add(f, a + Zeros(f, z), b + Zeros(f, z)) == Add(f, a, b) + Zeros(f, z)
  {
    PlusZero(f, f.zero);
  }

  lemma {:induction false} AddZeros<T(!new)>(f: Ring<T>, word: seq<T>)
    requires Lawful(f)
    ensures Add(f, word, Zeros(f, |word|)) == word
  {
    forall i | 0 <= i < |word|
      ensures Add(f, word, Zeros(f, |word|))[i] == word[i]
    {
      PlusZero(f, word[i]);
    }
  }

  /** One more cancelled coefficient is one more row of the product. */
  lemma {:induction false} CancelRow<T(!new)>(f: Ring<T>, word: seq<T>, p: seq<T>, g: seq<T>, c: T, m: nat, rest: nat)
    requires Lawful(f) && |p| + 1 == m + |g| && |word| == m + |g| + rest
    ensures AddAt(f, Add(f, word, p + Zeros(f, rest + 1)), Scale(f, g, c), m) ==
      Add(f, word, Add(f, p + [f.zero], Zeros(f, m) + Scale(f, g, c)) + Zeros(f, rest))
  {
    var row := Zeros(f, m) + Scale(f, g, c);
    assert p + Zeros(f, rest + 1) == (p + [f.zero]) + Zeros(f, rest);
    AddAtIsAdd(f, Add(f, word, p + Zeros(f, rest + 1)), Scale(f, g, c), m, rest);
    AddThrice(f, word, (p + [f.zero]) + Zeros(f, rest), row + Zeros(f, rest));
    PadAdd(f, p + [f.zero], row, rest);
  }

  lemma {:induction false} ProductSnoc<T>(f: Ring<T>, q: seq<T>, c: T, g: seq<T>)
    requires |g| > 0
    ensures Product(f, q + [c], g) == Add(f, Product(f, q, g) + [f.zero], Zeros(f, |q|) + Scale(f, g, c))
  {
    assert (q + [c])[..|q|] == q;
  }

  /** What has been added so far is the quotient so far times `g`. */
  /** After n steps of the division the word has lost the quotient so far times the divisor. */
  ghost predicate CancelledSoFar<T>(f: Ring<T>, word: seq<T>, g: seq<T>, n: nat)
    requires |g| > 0 && n + |g| <= |word| + 1
  {
    Cancelled(f, word, g, n) == Add(f, word, Removed(f, word, g, n, |word| + 1 - n - |g|))
  }

  function Removed<T>(f: Ring<T>, word: seq<T>, g: seq<T>, n: nat, rest: nat): (r: seq<T>)
    requires |g| > 0 && n + |g| + rest == |word| + 1
    ensures |r| == |word|
  {
    Product(f, Quotient(f, word, g, n), g) + Zeros(f, rest)
  }

  lemma {:induction false} NothingCancelled<T(!new)>(f: Ring<T>, word: seq<T>, g: seq<T>)
    requires Lawful(f) && 0 < |g| <= |word| + 1
    ensures CancelledSoFar(f, word, g, 0)
  {
    AddZeros(f, word);
    assert Zeros(f, |g| - 1) + Zeros(f, |word| + 1 - |g|) == Zeros(f, |word|);
  }

  lemma {:induction false} OneMoreCancelled<T(!new)>(f: Ring<T>, word: seq<T>, g: seq<T>, m: nat)
    requires Lawful(f) && |g| > 0 && m + 1 + |g| <= |word| + 1 && CancelledSoFar(f, word, g, m)
    ensures CancelledSoFar(f, word, g, m + 1)
  {
    var before, q := Cancelled(f, word, g, m), Quotient(f, word, g, m);
    ProductSnoc(f, q, before[m], g);
    CancelRow(f, word, Product(f, q, g), g, before[m], m, |word| - m - |g|);
  }

  lemma {:induction false} CancelledIs<T(!new)>(f: Ring<T>, word: seq<T>, g: seq<T>, n: nat)
    requires Lawful(f) && |g| > 0 && n + |g| <= |word| + 1
    ensures CancelledSoFar(f, word, g, n)
    decreases n
  {
    if n > 0 {
      CancelledIs(f, word, g, n - 1);
      OneMoreCancelled(f, word, g, n - 1);
      return;
    }
    NothingCancelled(f, word, g);
  }

  lemma {:induction false} LeadStep<T(!new)>(f: Ring<T>, res: seq<T>, g: seq<T>, m: nat)
    requires Lawful(f) && |g| > 0 && g[0] == f.one && m + |g| <= |res|
    ensures var r := AddAt(f, res, Scale(f, g, res[m]), m); r[m] == f.zero && r[..m] == res[..m]
  {
    TimesOne(f, res[m]);
    PlusZero(f, res[m]);
  }

  lemma {:induction false} LeadCancelled<T(!new)>(f: Ring<T>, word: seq<T>, g: seq<T>, n: nat)
    requires Lawful(f) && |g| > 0 && g[0] == f.one && n + |g| <= |word| + 1
    ensures Cancelled(f, word, g, n)[..n] == Zeros(f, n)
    decreases n
  {
    if n > 0 {
      var m := n - 1;
      LeadCancelled(f, word, g, m);
      LeadStep(f, Cancelled(f, word, g, m), g, m);
      var after := Cancelled(f, word, g, n);
      assert after[..n] == after[..m] + [after[m]];
    }
  }

  lemma {:induction false} SplitsInto<T(!new)>(f: Ring<T>, data: seq<T>, tail: nat, done: seq<T>, p: seq<T>)
    requires Lawful(f) && |done| == |p| == |data| + tail
    requires done == Add(f, data + Zeros(f, tail), p) && done[..|data|] == Zeros(f, |data|)
    ensures p == data + done[|data|..]
  {
    var word := data + Zeros(f, tail);
    forall i | 0 <= i < |p|
      ensures p[i] == (data + done[|data|..])[i]
    {
      PlusTwice(f, word[i], p[i]);
      assert done[i] == f.plus(word[i], p[i]);
      PlusZero(f, word[i]);
      PlusZero(f, p[i]);
      if i < |data| {
        assert done[..|data|][i] == f.zero;
      } else {
        assert word[i] == f.zero;
      }
    }
  }

  /** `data` followed by the rest of its division is a multiple of the monic `g`. */
  lemma {:induction false} DataAndRest<T(!new)>(f: Ring<T>, data: seq<T>, g: seq<T>)
    requires Lawful(f) && |g| > 0 && g[0] == f.one
    ensures data + Rest(f, data, g) == Product(f, Quotient(f, data + Zeros(f, |g| - 1), g, |data|), g)
  {
    var word, k := data + Zeros(f, |g| - 1), |data|;
    var q := Quotient(f, word, g, k);
    CancelledIs(f, word, g, k);
    LeadCancelled(f, word, g, k);
    assert Product(f, q, g) + Zeros(f, 0) == Product(f, q, g);
    SplitsInto(f, data, |g| - 1, Cancelled(f, word, g, k), Product(f, q, g));
  }

  lemma {:induction false} LeadOfProduct<T(!new)>(f: Ring<T>, q: seq<T>, g: seq<T>)
    requires Lawful(f) && |g| > 0 && g[0] == f.one && |q| > 0
    ensures var k := |q| - 1;
      Product(f, q, g)[..k] == Product(f, q[..k], g)[..k] &&
      Product(f, q, g)[k] == f.plus((Product(f, q[..k], g) + [f.zero])[k], q[k])
  {
    var k := |q| - 1;
    var p := Product(f, q[..k], g);
    forall i | 0 <= i < k
      ensures Product(f, q, g)[i] == p[i]
    {
      PlusZero(f, p[i]);
    }
    TimesOne(f, q[k]);
  }

  lemma {:induction false} PlusCancels<T(!new)>(f: Ring<T>, t: T, a: T, b: T)
    requires Lawful(f) && f.plus(t, a) == f.plus(t, b)
    ensures a == b
  {
    PlusTwice(f, t, a);
    PlusTwice(f, t, b);
  }

  /** The first |q| coefficients of a multiple of a monic polynomial determine the factor. */
  lemma {:induction false} PrefixesAgree<T>(p: seq<T>, s: seq<T>, k: nat)
    requires k < |p| && k < |s| && p[..k + 1] == s[..k + 1]
    ensures p[..k] == s[..k] && p[k] == s[k]
  {
    assert p[..k] == p[..k + 1][..k] && s[..k] == s[..k + 1][..k];
    assert p[k] == p[..k + 1][k] && s[k] == s[..k + 1][k];
  }

  lemma {:induction false} FactorIsDetermined<T(!new)>(f: Ring<T>, q: seq<T>, r: seq<T>, g: seq<T>)
    requires Lawful(f) && |g| > 0 && g[0] == f.one && |q| == |r|
    requires Product(f, q, g)[..|q|] == Product(f, r, g)[..|q|]
    ensures q == r
    decreases |q|
  {
    if |q| > 0 {
      var k := |q| - 1;
      LeadOfProduct(f, q, g);
      LeadOfProduct(f, r, g);
      PrefixesAgree(Product(f, q, g), Product(f, r, g), k);
      FactorIsDetermined(f, q[..k], r[..k], g);
      PlusCancels(f, (Product(f, q[..k], g) + [f.zero])[k], q[k], r[k]);
      assert q == q[..k] + [q[k]] && r == r[..k] + [r[k]];
    }
  }

  /** The rest is the only tail that completes `data` to a multiple of `g`. */
  lemma {:induction false} RestIsUnique<T(!new)>(f: Ring<T>, data: seq<T>, g: seq<T>, rest: seq<T>, q: seq<T>)
    requires Lawful(f) && |g| > 0 && g[0] == f.one && |rest| + 1 == |g| && |q| == |data|
    requires data + rest == Product(f, q, g)
    ensures rest == Rest(f, data, g)
  {
    var r := Quotient(f, data + Zeros(f, |g| - 1), g, |data|);
    DataAndRest(f, data, g);
    assert Product(f, q, g)[..|data|] == data == Product(f, r, g)[..|data|];
    FactorIsDetermined(f, q, r, g);
    assert rest == (data + rest)[|data|..] == (data + Rest(f, data, g))[|data|..];
  }

  // ---------------------------------------------------------------- the same, coefficient by coefficient

  /** TimesRoot after its first `j` coefficients have been spread. */
  function Spread<T>(f: Ring<T>, p: seq<T>, a: T, j: nat): (r: seq<T>)
    requires j <= |p|
    ensures |r| == |p| + 1
  {
    TimesRoot(f, p[..j], a) + Zeros(f, |p| - j)
  }

  lemma {:induction false} SpreadNothing<T(!new)>(f: Ring<T>, p: seq<T>, a: T)
    requires Lawful(f)
    ensures Spread(f, p, a, 0) == Zeros(f, |p| + 1)
  {
    PlusZero(f, f.zero);
  }

  lemma {:induction false} SpreadAll<T>(f: Ring<T>, p: seq<T>, a: T)
    ensures Spread(f, p, a, |p|) == TimesRoot(f, p, a)
  {
    assert p[..|p|] == p;
  }

  lemma {:induction false} SpreadStep<T(!new)>(f: Ring<T>, p: seq<T>, a: T, j: nat)
    requires Lawful(f) && j < |p|
    ensures var r := Spread(f, p, a, j);
      Spread(f, p, a, j + 1) == r[j := f.plus(r[j], p[j])][j + 1 := f.plus(r[j + 1], f.times(p[j], a))]
  {
    var r, s := Spread(f, p, a, j), Spread(f, p, a, j + 1);
    assert p[..j + 1] == p[..j] + [p[j]];
    assert Scale(f, p[..j + 1], a) == Scale(f, p[..j], a) + [f.times(p[j], a)];
    var last := ([f.zero] + Scale(f, p[..j], a))[j];
    assert r[j] == f.plus(f.zero, last) && r[j + 1] == f.zero;
    assert s[j] == f.plus(p[j], last) && s[j + 1] == f.plus(f.zero, f.times(p[j], a));
    PlusZero(f, last);
    assert Law(f, last, p[j], last);
  }

  /** `res` after the first `j` coefficients of `c` times `g` have been added from position `i` on. */
  function Partly<T>(f: Ring<T>, res: seq<T>, g: seq<T>, c: T, i: nat, j: nat): (r: seq<T>)
    requires i + |g| <= |res| && j <= |g|
    ensures |r| == |res|
  {
    AddAt(f, res, Scale(f, g[..j], c), i)
  }

  lemma {:induction false} PartlyNothing<T>(f: Ring<T>, res: seq<T>, g: seq<T>, c: T, i: nat)
    requires i + |g| <= |res|
    ensures Partly(f, res, g, c, i, 0) == res
  {
    assert Scale(f, g[..0], c) == [];
  }

  lemma {:induction false} PartlyAll<T>(f: Ring<T>, res: seq<T>, g: seq<T>, c: T, i: nat)
    requires i + |g| <= |res|
    ensures Partly(f, res, g, c, i, |g|) == AddAt(f, res, Scale(f, g, c), i)
  {
    assert g[..|g|] == g;
  }

  lemma {:induction false} ReplaceNext<T>(before: seq<T>, after: seq<T>, x: T)
    requires |after| > 0
    ensures (before + after)[|before| := x] == before + [x] + after[1..]
  {
  }

  lemma {:induction false} AddSnoc<T>(f: Ring<T>, p: seq<T>, q: seq<T>, x: T, y: T)
    requires |p| == |q|
    ensures Add(f, p + [x], q + [y]) == Add(f, p, q) + [f.plus(x, y)]
  {
  }

  /** One more coefficient changes the next place alone. */
  lemma {:induction false} AddAtSnoc<T>(f: Ring<T>, res: seq<T>, p: seq<T>, c: T, k: nat)
    requires k + |p| < |res|
    ensures AddAt(f, res, p, k)[k + |p|] == res[k + |p|]
    ensures AddAt(f, res, p + [c], k) == AddAt(f, res, p, k)[k + |p| := f.plus(res[k + |p|], c)]
  {
    var i := k + |p|;
    var changed := res[..k] + Add(f, res[k..i], p);
    assert res[k..i + 1] == res[k..i] + [res[i]] && res[i..][1..] == res[i + 1..];
    AddSnoc(f, res[k..i], p, res[i], c);
    ReplaceNext(changed, res[i..], f.plus(res[i], c));
    assert res[..k] + (Add(f, res[k..i], p) + [f.plus(res[i], c)]) == changed + [f.plus(res[i], c)];
  }

  lemma {:induction false} PartlyStep<T>(f: Ring<T>, res: seq<T>, g: seq<T>, c: T, i: nat, j: nat)
    requires i + |g| <= |res| && j < |g|
    ensures var r := Partly(f, res, g, c, i, j);
      r[i + j] == res[i + j] && Partly(f, res, g, c, i, j + 1) == r[i + j := f.plus(r[i + j], f.times(g[j], c))]
  {
    assert Scale(f, g[..j + 1], c) == Scale(f, g[..j], c) + [f.times(g[j], c)];
    AddAtSnoc(f, res, Scale(f, g[..j], c), f.times(g[j], c), i);
  }

  lemma {:induction false} NothingToCancel<T(!new)>(f: Ring<T>, res: seq<T>, g: seq<T>, k: nat)
    requires Lawful(f) && k + |g| <= |res|
    ensures AddAt(f, res, Scale(f, g, f.zero), k) == res
  {
    forall i | 0 <= i < |g|
      ensures f.plus(res[k + i], Scale(f, g, f.zero)[i]) == res[k + i]
    {
      TimesZero(f, g[i]);
      PlusZero(f, res[k + i]);
    }
  }
}
