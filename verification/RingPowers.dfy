/** Powers of an element of a commutative ring and their order. */
module RingPowers {
  import opened Polynomials

  function Raise<T>(f: Ring<T>, x: T, n: nat): T {
    if n == 0 then f.one else f.times(Raise(f, x, n - 1), x)
  }

  /** `d` times `n`. */
  function Repeat(d: nat, n: nat): nat {
    if n == 0 then 0 else Repeat(d, n - 1) + d
  }

  lemma {:induction false} RepeatIs(d: nat, n: nat)
    ensures Repeat(d, n) == d * n
    decreases n
  {
    if n > 0 {
      RepeatIs(d, n - 1);
      assert d * n == d * (n - 1) + d;
    }
  }

  lemma {:induction false} RepeatSwaps(d: nat, n: nat)
    ensures Repeat(d, n) == Repeat(n, d)
  {
    RepeatIs(d, n);
    RepeatIs(n, d);
  }

  lemma {:induction false} TimesThree<T(!new)>(f: Ring<T>, p: T, q: T, x: T)
    requires Lawful(f)
    ensures f.times(p, f.times(q, x)) == f.times(f.times(p, q), x)
  {
    assert Law(f, p, q, x);
  }

  lemma {:induction false} RaiseAdd<T(!new)>(f: Ring<T>, x: T, m: nat, n: nat)
    requires Lawful(f)
    ensures Raise(f, x, m + n) == f.times(Raise(f, x, m), Raise(f, x, n))
    decreases n
  {
    if n == 0 {
      TimesOne(f, Raise(f, x, m));
      TimesCommutes(f, Raise(f, x, m), f.one);
    } else {
      RaiseAdd(f, x, m, n - 1);
      TimesThree(f, Raise(f, x, m), Raise(f, x, n - 1), x);
    }
  }

  /** x^(m n) is (x^m)^n. */
  lemma {:induction false} RaiseRepeat<T(!new)>(f: Ring<T>, x: T, m: nat, n: nat)
    requires Lawful(f)
    ensures Raise(f, x, Repeat(m, n)) == Raise(f, Raise(f, x, m), n)
    decreases n
  {
    if n > 0 {
      RaiseRepeat(f, x, m, n - 1);
      RaiseAdd(f, x, Repeat(m, n - 1), m);
    }
  }

  lemma {:induction false} RaiseOne<T(!new)>(f: Ring<T>, n: nat)
    requires Lawful(f)
    ensures Raise(f, f.one, n) == f.one
    decreases n
  {
    if n > 0 {
      RaiseOne(f, n - 1);
      TimesOne(f, f.one);
    }
  }

  /** (x^m)^n == (x^n)^m; in particular it is one when x^n is. */
  lemma {:induction false} RootOfUnity<T(!new)>(f: Ring<T>, x: T, m: nat, n: nat)
    requires Lawful(f) && Raise(f, x, n) == f.one
    ensures Raise(f, Raise(f, x, m), n) == f.one
  {
    RaiseRepeat(f, x, m, n);
    RepeatSwaps(m, n);
    RaiseRepeat(f, x, n, m);
    RaiseOne(f, m);
  }

  lemma {:induction false} RaiseRest<T(!new)>(f: Ring<T>, x: T, b: nat, q: nat, r: nat)
    requires Lawful(f) && Raise(f, x, Repeat(b, q) + r) == f.one && Raise(f, x, b) == f.one
    ensures Raise(f, x, r) == f.one
  {
    RaiseRepeat(f, x, b, q);
    RaiseOne(f, q);
    RaiseAdd(f, x, Repeat(b, q), r);
    TimesOne(f, Raise(f, x, r));
  }

  lemma {:induction false} Division(a: nat, b: nat)
    requires b > 0
    ensures a == Repeat(b, a / b) + a % b
  {
    RepeatIs(b, a / b);
  }

  lemma {:induction false} RaiseMod<T(!new)>(f: Ring<T>, x: T, a: nat, b: nat)
    requires Lawful(f) && b > 0 && Raise(f, x, a) == f.one && Raise(f, x, b) == f.one
    ensures Raise(f, x, a % b) == f.one
  {
    Division(a, b);
    RaiseRest(f, x, b, a / b, a % b);
  }

  function Gcd(a: nat, b: nat): nat
    decreases b
  {
    if b == 0 then a else Gcd(b, a % b)
  }

  /** An element with two exponents of one has their greatest common divisor as another. */
  lemma {:induction false} Euclid<T(!new)>(f: Ring<T>, x: T, a: nat, b: nat)
    requires Lawful(f) && Raise(f, x, a) == f.one && Raise(f, x, b) == f.one
    ensures Raise(f, x, Gcd(a, b)) == f.one
    decreases b
  {
    if b > 0 {
      RaiseMod(f, x, a, b);
      Euclid(f, x, b, a % b);
    }
  }

  /** A prime and a smaller positive number have no common divisor: the primes of 255. */
  lemma {:induction false} Coprime(q: nat, r: nat)
    requires 0 < r < q && (q == 3 || q == 5 || q == 17)
    ensures Gcd(q, r) == 1
  {
    assert Gcd(3, 1) == 1 && Gcd(3, 2) == 1;
    assert Gcd(5, 1) == 1 && Gcd(5, 2) == 1 && Gcd(5, 3) == 1 && Gcd(5, 4) == 1;
    assert Gcd(17, 1) == 1 && Gcd(17, 2) == 1 && Gcd(17, 3) == 1 && Gcd(17, 4) == 1;
    assert Gcd(17, 5) == 1 && Gcd(17, 6) == 1 && Gcd(17, 7) == 1 && Gcd(17, 8) == 1;
    assert Gcd(17, 9) == 1 && Gcd(17, 10) == 1 && Gcd(17, 11) == 1 && Gcd(17, 12) == 1;
    assert Gcd(17, 13) == 1 && Gcd(17, 14) == 1 && Gcd(17, 15) == 1 && Gcd(17, 16) == 1;
  }

  lemma {:induction false} RaiseFirst<T(!new)>(f: Ring<T>, x: T, n: nat)
    requires Lawful(f) && n == 1
    ensures Raise(f, x, n) == x
  {
    TimesOne(f, x);
    assert Raise(f, x, 0) == f.one;
  }

  /** If x^d and x^(m q) are one, q is a prime of 255 and does not divide d, then x^m is one. */
  lemma {:induction false} Cofactor<T(!new)>(f: Ring<T>, x: T, d: nat, m: nat, q: nat)
    requires Lawful(f) && (q == 3 || q == 5 || q == 17) && d % q != 0
    requires Raise(f, x, d) == f.one && Raise(f, x, Repeat(m, q)) == f.one
    ensures Raise(f, x, m) == f.one
  {
    var y := Raise(f, x, m);
    RootOfUnity(f, x, m, d);
    RaiseRepeat(f, x, m, q);
    Euclid(f, y, d, q);
    Coprime(q, d % q);
    RaiseFirst(f, y, Gcd(d, q));
  }

  lemma {:induction false} DividedByAll(d: nat)
    requires 0 < d < 255
    ensures d % 3 != 0 || d % 5 != 0 || d % 17 != 0
  {
  }

  /** An element whose 255th power is one, and whose 15th, 51st and 85th are not, has order 255. */
  lemma {:induction false} OrderOf<T(!new)>(f: Ring<T>, x: T, d: nat, a: nat, b: nat, c: nat, order: nat)
    requires Lawful(f) && a == 15 && b == 51 && c == 85 && order == 255 && 0 < d < order && Raise(f, x, order) == f.one
    requires Raise(f, x, a) != f.one && Raise(f, x, b) != f.one && Raise(f, x, c) != f.one
    ensures Raise(f, x, d) != f.one
  {
    if Raise(f, x, d) == f.one {
      DividedByAll(d);
      var m := if d % 3 != 0 then c else if d % 5 != 0 then b else a;
      var q := if d % 3 != 0 then 3 else if d % 5 != 0 then 5 else 17;
      RepeatIs(m, q);
      Cofactor(f, x, d, m, q);
    }
  }

  // ---------------------------------------------------------------- climbing to a high power

  /** Some powers of an element, and the products that relate them. */
  datatype Ladder<T> = Ladder(x6: T, x10: T, x15: T, x30: T, x45: T, x51: T, x75: T, x85: T, x102: T, x204: T)

  ghost predicate LowerSteps<T>(f: Ring<T>, l: Ladder<T>) {
    && f.times(l.x15, l.x15) == l.x30 && f.times(l.x15, l.x30) == l.x45
    && f.times(l.x45, l.x6) == l.x51 && f.times(l.x30, l.x45) == l.x75
  }

  ghost predicate UpperSteps<T>(f: Ring<T>, l: Ladder<T>) {
    && f.times(l.x75, l.x10) == l.x85 && f.times(l.x51, l.x51) == l.x102
    && f.times(l.x102, l.x102) == l.x204 && f.times(l.x51, l.x204) == f.one
  }

  lemma {:induction false} Climb<T(!new)>(f: Ring<T>, x: T, l: Ladder<T>, six: nat, ten: nat, fifteen: nat)
    requires Lawful(f) && LowerSteps(f, l) && UpperSteps(f, l)
    requires Raise(f, x, six) == l.x6 && Raise(f, x, ten) == l.x10 && Raise(f, x, fifteen) == l.x15
    ensures Raise(f, x, 3 * fifteen + six) == l.x51 && Raise(f, x, 5 * fifteen + ten) == l.x85
    ensures Raise(f, x, 15 * fifteen + 5 * six) == f.one
  {
    var b := 3 * fifteen + six;
    RaiseAdd(f, x, fifteen, fifteen);
    RaiseAdd(f, x, fifteen, 2 * fifteen);
    RaiseAdd(f, x, 3 * fifteen, six);
    RaiseAdd(f, x, 2 * fifteen, 3 * fifteen);
    RaiseAdd(f, x, 5 * fifteen, ten);
    RaiseAdd(f, x, b, b);
    RaiseAdd(f, x, 2 * b, 2 * b);
    RaiseAdd(f, x, b, 4 * b);
  }
}
