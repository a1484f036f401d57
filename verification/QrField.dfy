/** The field GF(256) by the polynomial 0x11d, and the tables that multiply in it
    (internal/qr/qr.go; section 7.5 of ISO/IEC 18004:2015). */
module QrField {
  import opened Basics
  import opened Polynomials
  import opened RingPowers

  /** A byte as its bits, which is also a polynomial over GF(2): bit k is the coefficient of x^k. */
  datatype Byte = Byte(b7: bool, b6: bool, b5: bool, b4: bool, b3: bool, b2: bool, b1: bool, b0: bool)

  const ZERO := Byte(false, false, false, false, false, false, false, false)
  const ONE := Byte(false, false, false, false, false, false, false, true)

  function Bit(b: Byte, k: nat): bool
    requires k < 8
  {
    if k == 0 then b.b0 else if k == 1 then b.b1 else if k == 2 then b.b2 else if k == 3 then b.b3
    else if k == 4 then b.b4 else if k == 5 then b.b5 else if k == 6 then b.b6 else b.b7
  }

  function Xor(a: Byte, b: Byte): Byte {
    Byte(a.b7 != b.b7, a.b6 != b.b6, a.b5 != b.b5, a.b4 != b.b4, a.b3 != b.b3, a.b2 != b.b2, a.b1 != b.b1, a.b0 != b.b0)
  }

  /** A polynomial times x, reduced by x^8 + x^4 + x^3 + x^2 + 1. */
  function Xtime(a: Byte): Byte {
    Byte(a.b6, a.b5, a.b4, a.b3 != a.b7, a.b2 != a.b7, a.b1 != a.b7, a.b0, a.b7)
  }

  function If(on: bool, a: Byte): Byte {
    if on then a else ZERO
  }

  /** Sum of `a` times x^(j-k) over the set bits j of `b` from k on. */
  function Times(a: Byte, b: Byte, k: nat): Byte
    requires k <= 8
    decreases 8 - k, b
  {
    if k == 8 then ZERO else Xor(If(Bit(b, k), a), Times(Xtime(a), b, k + 1))
  }

  /** Polynomial multiplication modulo 0x11d. */
  function Mul(a: Byte, b: Byte): Byte {
    Times(a, b, 0)
  }

  // ---------------------------------------------------------------- laws

  lemma {:induction false} XorAssociates(p: Byte, q: Byte, r: Byte)
    ensures Xor(Xor(p, q), r) == Xor(p, Xor(q, r))
  {
  }

  lemma {:induction false} XorCommutes(p: Byte, q: Byte)
    ensures Xor(p, q) == Xor(q, p)
  {
  }

  lemma {:induction false} XorZero(p: Byte)
    ensures Xor(p, ZERO) == p && Xor(ZERO, p) == p
  {
  }

  lemma {:induction false} XorSelf(p: Byte)
    ensures Xor(p, p) == ZERO
  {
  }

  lemma {:induction false} XorFour(p: Byte, q: Byte, r: Byte, s: Byte)
    ensures Xor(Xor(p, q), Xor(r, s)) == Xor(Xor(p, r), Xor(q, s))
  {
  }

  lemma {:induction false} XtimeXor(a: Byte, b: Byte)
    ensures Xtime(Xor(a, b)) == Xor(Xtime(a), Xtime(b)) && Xtime(ZERO) == ZERO
  {
  }

  lemma {:induction false} XtimeInjective(a: Byte, b: Byte)
    requires Xtime(a) == Xtime(b)
    ensures a == b
  {
  }

  lemma {:induction false} TimesUnfold(a: Byte, b: Byte, k: nat)
    requires k < 8
    ensures Times(a, b, k) == Xor(If(Bit(b, k), a), Times(Xtime(a), b, k + 1))
  {
  }

  lemma {:induction false} TimesXor(a: Byte, b: Byte, c: Byte, k: nat)
    requires k <= 8
    ensures Times(Xor(a, b), c, k) == Xor(Times(a, c, k), Times(b, c, k))
    decreases 8 - k
  {
    if k < 8 {
      XtimeXor(a, b);
      TimesXor(Xtime(a), Xtime(b), c, k + 1);
      XorFour(If(Bit(c, k), a), Times(Xtime(a), c, k + 1), If(Bit(c, k), b), Times(Xtime(b), c, k + 1));
    }
  }

  lemma {:induction false} TimesXtime(a: Byte, b: Byte, k: nat)
    requires k <= 8
    ensures Times(Xtime(a), b, k) == Xtime(Times(a, b, k))
    decreases 8 - k
  {
    if k < 8 {
      TimesXtime(Xtime(a), b, k + 1);
      XtimeXor(If(Bit(b, k), a), Times(Xtime(a), b, k + 1));
    }
  }

  lemma {:induction false} TimesZero(b: Byte, k: nat)
    requires k <= 8
    ensures Times(ZERO, b, k) == ZERO
    decreases 8 - k
  {
    if k < 8 {
      TimesZero(b, k + 1);
    }
  }

  lemma {:induction false} MulXor(a: Byte, b: Byte, c: Byte)
    ensures Mul(Xor(a, b), c) == Xor(Mul(a, c), Mul(b, c))
  {
    TimesXor(a, b, c, 0);
  }

  lemma {:induction false} MulXtime(a: Byte, b: Byte)
    ensures Mul(Xtime(a), b) == Xtime(Mul(a, b))
  {
    TimesXtime(a, b, 0);
  }

  lemma {:induction false} MulZero(b: Byte)
    ensures Mul(ZERO, b) == ZERO
  {
    TimesZero(b, 0);
  }

  lemma {:induction false} MulIf(on: bool, a: Byte, b: Byte)
    ensures Mul(If(on, a), b) == If(on, Mul(a, b))
  {
    MulZero(b);
  }

  /** The product (e a) b spelled out by the bits of `a`. */
  lemma {:induction false} TimesThenMul(e: Byte, a: Byte, b: Byte, k: nat)
    requires k <= 8
    ensures Mul(Times(e, a, k), b) == Times(Mul(e, b), a, k)
    decreases 8 - k
  {
    if k == 8 {
      MulZero(b);
    } else {
      var first, rest := If(Bit(a, k), e), Times(Xtime(e), a, k + 1);
      TimesThenMul(Xtime(e), a, b, k + 1);
      MulXtime(e, b);
      MulXor(first, rest, b);
      MulIf(Bit(a, k), e, b);
      TimesUnfold(e, a, k);
      TimesUnfold(Mul(e, b), a, k);
    }
  }

  lemma {:induction false} MulSwaps(e: Byte, a: Byte, b: Byte)
    ensures Mul(Mul(e, a), b) == Mul(Mul(e, b), a)
  {
    TimesThenMul(e, a, b, 0);
  }

  /** x to the k, which needs no reduction below 8. */
  function Unit(k: nat): Byte
    requires k < 8
  {
    Byte(k == 7, k == 6, k == 5, k == 4, k == 3, k == 2, k == 1, k == 0)
  }

  /** The byte without its bits below k. */
  function High(a: Byte, k: nat): Byte
    requires k <= 8
  {
    Byte(k <= 7 && a.b7, k <= 6 && a.b6, k <= 5 && a.b5, k <= 4 && a.b4, k <= 3 && a.b3, k <= 2 && a.b2, k <= 1 && a.b1, k == 0 && a.b0)
  }

  lemma {:induction false} HighStep(a: Byte, k: nat)
    requires k < 8
    ensures Xor(If(Bit(a, k), Unit(k)), High(a, k + 1)) == High(a, k)
    ensures k < 7 ==> Xtime(Unit(k)) == Unit(k + 1)
  {
  }

  lemma {:induction false} UnitTimes(a: Byte, k: nat)
    requires k < 8
    ensures Times(Unit(k), a, k) == High(a, k)
    decreases 8 - k
  {
    HighStep(a, k);
    if k < 7 {
      UnitTimes(a, k + 1);
    } else {
      assert Times(Xtime(Unit(k)), a, 8) == High(a, 8);
    }
  }

  lemma {:induction false} UnitZero(a: Byte, k: nat)
    requires k == 0
    ensures Unit(k) == ONE && High(a, k) == a
  {
  }

  lemma {:induction false} MulOne(a: Byte)
    ensures Mul(ONE, a) == a
  {
    var k: nat := 0;
    UnitZero(a, k);
    UnitTimes(a, k);
    assert Mul(ONE, a) == Times(ONE, a, k);
  }

  /** The multiplication is commutative. */
  lemma {:induction false} MulCommutes(a: Byte, b: Byte)
    ensures Mul(a, b) == Mul(b, a)
  {
    MulSwaps(ONE, a, b);
    MulOne(a);
    MulOne(b);
  }

  // ---------------------------------------------------------------- the ring of bytes

  const GF := Ring(ZERO, ONE, (a, b) => Xor(a, b), (a, b) => Mul(a, b))

  lemma {:induction false} GfIs(a: Byte, b: Byte)
    ensures GF.zero == ZERO && GF.one == ONE && GF.plus(a, b) == Xor(a, b) && GF.times(a, b) == Mul(a, b)
  {
  }

  lemma {:induction false} PlusLaws(a: Byte, b: Byte, c: Byte)
    ensures Xor(Xor(a, b), c) == Xor(a, Xor(b, c)) && Xor(a, b) == Xor(b, a) && Xor(a, ZERO) == a && Xor(a, a) == ZERO
  {
    XorAssociates(a, b, c);
    XorCommutes(a, b);
    XorZero(a);
    XorSelf(a);
  }

  /** The multiplication is associative and commutative, distributes, and has a zero and a one. */
  lemma {:induction false} TimesLaws(a: Byte, b: Byte, c: Byte)
    ensures Mul(Mul(a, b), c) == Mul(a, Mul(b, c)) && Mul(a, b) == Mul(b, a)
    ensures Mul(Xor(a, b), c) == Xor(Mul(a, c), Mul(b, c)) && Mul(ZERO, a) == ZERO && Mul(ONE, a) == a
  {
    MulSwaps(b, a, c);
    MulCommutes(a, b);
    MulCommutes(a, Mul(b, c));
    MulXor(a, b, c);
    MulZero(a);
    MulOne(a);
  }

  /** GF(256) satisfies the laws of a commutative ring of characteristic two, which the division rests on. */
  lemma {:induction false} GfLawful()
    ensures Lawful(GF)
  {
    forall a, b, c
      ensures Law(GF, a, b, c)
    {
      PlusLaws(a, b, c);
      TimesLaws(a, b, c);
    }
  }

  // ---------------------------------------------------------------- powers of x

  function Pow(n: nat): Byte {
    if n == 0 then ONE else Xtime(Pow(n - 1))
  }

  const X := Byte(false, false, false, false, false, false, true, false)

  lemma {:induction false} TimesX(a: Byte)
    ensures Mul(a, X) == Xtime(a)
  {
    assert X == Xtime(ONE);
    MulCommutes(a, X);
    MulXtime(ONE, a);
    MulOne(a);
  }

  lemma {:induction false} NextPow(n: nat)
    ensures GF.times(Pow(n), X) == Pow(n + 1)
  {
    TimesX(Pow(n));
  }

  lemma {:induction false} RaiseIsPow(n: nat)
    ensures Raise(GF, X, n) == Pow(n)
  {
    var i: nat := 0;
    while i < n
      invariant i <= n && Raise(GF, X, i) == Pow(i)
    {
      NextPow(i);
      i := i + 1;
    }
  }

  lemma {:induction false} PowAdd(m: nat, n: nat)
    ensures Mul(Pow(m), Pow(n)) == Pow(m + n)
  {
    GfLawful();
    RaiseAdd(GF, X, m, n);
    RaiseIsPow(m);
    RaiseIsPow(n);
    RaiseIsPow(m + n);
    GfIs(Pow(m), Pow(n));
  }

  // ---------------------------------------------------------------- the order of x is 255

  const ORDER := 255

  const X6 := Byte(false, true, false, false, false, false, false, false)
  const X10 := Byte(false, true, true, true, false, true, false, false)
  const X15 := Byte(false, false, true, false, false, true, true, false)
  const X30 := Byte(false, true, true, false, false, false, false, false)
  const X45 := Byte(true, true, false, false, false, false, false, true)
  const X51 := Byte(false, false, false, false, true, false, true, false)
  const X75 := Byte(false, false, false, false, true, true, true, true)
  const X85 := Byte(true, true, false, true, false, true, true, false)
  const X102 := Byte(false, true, false, false, false, true, false, false)
  const X204 := Byte(true, true, false, true, true, true, false, true)

  lemma {:induction false} FirstPowers(six: nat, ten: nat, fifteen: nat)
    requires six == 6 && ten == 10 && fifteen == 15
    ensures Pow(six) == X6 && Pow(ten) == X10 && Pow(fifteen) == X15
  {
    assert Pow(3) == Byte(false, false, false, false, true, false, false, false);
    assert Pow(8) == Byte(false, false, false, true, true, true, false, true);
    assert Pow(12) == Byte(true, true, false, false, true, true, false, true);
  }

  lemma {:induction false} ProductsA()
    ensures Mul(X15, X15) == X30 && Mul(X15, X30) == X45
  {
  }

  lemma {:induction false} ProductsB()
    ensures Mul(X45, X6) == X51 && Mul(X30, X45) == X75
  {
  }

  lemma {:induction false} ProductsC()
    ensures Mul(X75, X10) == X85 && Mul(X51, X51) == X102
  {
  }

  lemma {:induction false} ProductsD()
    ensures Mul(X102, X102) == X204 && Mul(X51, X204) == ONE
  {
  }

  lemma {:induction false} Rungs() returns (l: Ladder<Byte>)
    ensures LowerSteps(GF, l) && UpperSteps(GF, l) && l.x6 == X6 && l.x10 == X10 && l.x15 == X15
    ensures l.x15 != ONE && l.x51 != ONE && l.x85 != ONE
  {
    ProductsA();
    ProductsB();
    ProductsC();
    ProductsD();
    l := Ladder(X6, X10, X15, X30, X45, X51, X75, X85, X102, X204);
  }

  lemma {:induction false} Foot(six: nat, ten: nat, fifteen: nat) returns (l: Ladder<Byte>)
    requires six == 6 && ten == 10 && fifteen == 15
    ensures LowerSteps(GF, l) && UpperSteps(GF, l)
    ensures Raise(GF, X, six) == l.x6 && Raise(GF, X, ten) == l.x10 && Raise(GF, X, fifteen) == l.x15
    ensures l.x15 != ONE && l.x51 != ONE && l.x85 != ONE
  {
    FirstPowers(six, ten, fifteen);
    RaiseIsPow(six);
    RaiseIsPow(ten);
    RaiseIsPow(fifteen);
    l := Rungs();
  }

  /** 15, 51 and 85, and 255, of which they are the quotients by 17, 5 and 3. */
  predicate Quotients(a: nat, b: nat, c: nat, order: nat) {
    order == 17 * a == 5 * b == 3 * c && 0 < a < 30
  }

  /** x^255 is one; x^15, x^51 and x^85 are not. */
  lemma {:induction false} KnownPowers(a: nat, b: nat, c: nat, order: nat)
    requires Quotients(a, b, c, order)
    ensures Pow(a) != ONE && Pow(b) != ONE && Pow(c) != ONE && Pow(order) == ONE
  {
    var six: nat, ten: nat := b - 3 * a, c - 5 * a;
    GfLawful();
    var l := Foot(six, ten, a);
    Climb(GF, X, l, six, ten, a);
    RaiseIsPow(a);
    RaiseIsPow(b);
    RaiseIsPow(c);
    RaiseIsPow(order);
  }

  lemma {:induction false} OrderIsOne(order: nat)
    requires order == ORDER
    ensures Pow(order) == ONE
  {
    var a: nat, b: nat, c: nat := 15, 51, 85;
    KnownPowers(a, b, c, order);
  }

  lemma {:induction false} PowPeriodic(n: nat, order: nat)
    requires Pow(order) == ONE
    ensures Pow(n + order) == Pow(n)
  {
    PowAdd(order, n);
    MulOne(Pow(n));
  }

  /** No smaller power of x is one. */
  lemma {:induction false} OrderIs255(d: nat, order: nat)
    requires 0 < d < order == ORDER
    ensures Pow(d) != ONE
  {
    var a: nat, b: nat, c: nat := 15, 51, 85;
    GfLawful();
    KnownPowers(a, b, c, order);
    RaiseIsPow(a);
    RaiseIsPow(b);
    RaiseIsPow(c);
    RaiseIsPow(order);
    OrderOf(GF, X, d, a, b, c, order);
    RaiseIsPow(d);
  }

  /** Different exponents below 255 give different powers. */
  lemma {:induction false} PowInjective(i: nat, j: nat)
    requires i < j < ORDER
    ensures Pow(i) != Pow(j)
    decreases i
  {
    if i == 0 {
      OrderIs255(j, ORDER);
    } else {
      PowInjective(i - 1, j - 1);
      if Pow(i) == Pow(j) {
        XtimeInjective(Pow(i - 1), Pow(j - 1));
        assert false;
      }
    }
  }

  // ---------------------------------------------------------------- every nonzero byte is a power of x

  function BitValue(on: bool, weight: nat): nat {
    if on then weight else 0
  }

  function Value(b: Byte): (n: nat)
    ensures n < 256
  {
    BitValue(b.b7, 128) + BitValue(b.b6, 64) + BitValue(b.b5, 32) + BitValue(b.b4, 16) +
    BitValue(b.b3, 8) + BitValue(b.b2, 4) + BitValue(b.b1, 2) + BitValue(b.b0, 1)
  }

  lemma {:induction false} ValueInjective(a: Byte, b: Byte)
    requires Value(a) == Value(b)
    ensures a == b
  {
  }

  lemma {:induction false} PowNotZero(n: nat)
    ensures Pow(n) != ZERO
    decreases n
  {
    if n > 0 {
      PowNotZero(n - 1);
      if Pow(n) == ZERO {
        XtimeXor(ZERO, ZERO);
        XtimeInjective(Pow(n - 1), ZERO);
        assert false;
      }
    }
  }

  lemma {:induction false} PowPositive(n: nat)
    ensures Value(Pow(n)) > 0
  {
    PowNotZero(n);
    if Value(Pow(n)) == 0 {
      ValueInjective(Pow(n), ZERO);
    }
  }

  /** Values of the first n powers. */
  function PowerValues(n: nat): set<nat> {
    if n == 0 then {} else PowerValues(n - 1) + {Value(Pow(n - 1))}
  }

  lemma {:induction false} PowerOf(n: nat, v: nat) returns (i: nat)
    requires v in PowerValues(n)
    ensures i < n && Value(Pow(i)) == v
    decreases n
  {
    if v in PowerValues(n - 1) {
      i := PowerOf(n - 1, v);
    } else {
      i := n - 1;
    }
  }

  lemma {:induction false} PowerIsNew(n: nat)
    requires n < ORDER
    ensures Value(Pow(n)) !in PowerValues(n)
  {
    var v := Value(Pow(n));
    if v in PowerValues(n) {
      var i := PowerOf(n, v);
      ValueInjective(Pow(i), Pow(n));
      PowInjective(i, n);
      assert false;
    }
  }

  lemma {:induction false} OneMore(values: set<nat>, v: nat)
    requires v !in values
    ensures |values + {v}| == |values| + 1
  {
  }

  lemma {:induction false} CountPowers(n: nat)
    requires n <= ORDER
    ensures |PowerValues(n)| == n
    ensures forall v :: v in PowerValues(n) ==> 0 < v < 256
    decreases n
  {
    if n > 0 {
      var before, v := PowerValues(n - 1), Value(Pow(n - 1));
      CountPowers(n - 1);
      PowerIsNew(n - 1);
      PowPositive(n - 1);
      OneMore(before, v);
      assert PowerValues(n) == before + {v};
    }
  }

  function Below(n: nat): set<nat> {
    if n == 0 then {} else Below(n - 1) + {n - 1}
  }

  lemma {:induction false} CountBelow(n: nat)
    ensures |Below(n)| == n && forall v :: v in Below(n) <==> 0 <= v < n
    decreases n
  {
    if n > 0 {
      CountBelow(n - 1);
    }
  }

  /** 255 different values between 1 and 255 are all of them. */
  lemma {:induction false} NoneMissing(values: set<nat>, v: nat, m: nat)
    requires |values| == m - 1 && 0 < v < m && forall x :: x in values ==> 0 < x < m
    ensures v in values
  {
    CountBelow(m);
    if v !in values {
      assert 0 !in values + {v};
      SubsetSize(values + {v} + {0}, Below(m));
      assert false;
    }
  }

  lemma {:induction false} AllPowers(n: nat, v: nat)
    requires n == ORDER && 0 < v < 256
    ensures v in PowerValues(n)
  {
    CountPowers(n);
    NoneMissing(PowerValues(n), v, n + 1);
  }

  /** Every nonzero byte is a power of x. */
  lemma {:induction false} EveryByteIsPower(b: Byte, n: nat) returns (i: nat)
    requires b != ZERO && n == ORDER
    ensures i < ORDER && Pow(i) == b
  {
    var v := Value(b);
    if v == 0 {
      ValueInjective(b, ZERO);
    }
    AllPowers(n, v);
    i := PowerOf(n, v);
    ValueInjective(Pow(i), b);
  }

  // ---------------------------------------------------------------- the tables

  predicate ExpOk(exp: seq<Byte>, n: nat) {
    n <= |exp| && forall i :: 0 <= i < n ==> exp[i] == Pow(i)
  }

  predicate LogOk(log: seq<nat>, n: nat) {
    |log| == 256 && forall i :: 0 <= i < n ==> log[Value(Pow(i))] == i
  }

  lemma {:induction false} LogSnoc(log: seq<nat>, n: nat)
    requires LogOk(log, n) && n < ORDER
    ensures LogOk(log[Value(Pow(n)) := n], n + 1)
  {
    var next := log[Value(Pow(n)) := n];
    forall i | 0 <= i < n + 1
      ensures next[Value(Pow(i))] == i
    {
      if i < n && Value(Pow(i)) == Value(Pow(n)) {
        ValueInjective(Pow(i), Pow(n));
        PowInjective(i, n);
        assert false;
      }
    }
  }

  lemma {:induction false} ExpSnoc(exp: seq<Byte>, n: nat)
    requires ExpOk(exp, n) && n < |exp|
    ensures ExpOk(exp[n := Pow(n)], n + 1)
  {
  }

  /** Enters one power and its logarithm. */
  method Enter(exp: array<Byte>, log: array<nat>, i: nat, x: Byte, v: nat)
    requires i < exp.Length && v < log.Length == 256
    modifies exp, log
    ensures exp[..] == old(exp[..])[i := x] && log[..] == old(log[..])[v := i]
  {
    exp[i] := x;
    log[v] := i;
  }

  /** Powers of x up to its order, and their logarithms. */
  method FillPowers(exp: array<Byte>, log: array<nat>)
    requires exp.Length == 512 && log.Length == 256
    modifies exp, log
    ensures ExpOk(exp[..], ORDER) && LogOk(log[..], ORDER)
  {
    var x := ONE;
    var i: nat := 0;
    while i < ORDER
      invariant 0 <= i <= ORDER && x == Pow(i)
      invariant ExpOk(exp[..], i) && LogOk(log[..], i)
    {
      LogSnoc(log[..], i);
      ExpSnoc(exp[..], i);
      var v := Value(x);
      Enter(exp, log, i, x, v);
      x := Xtime(x);
      i := i + 1;
    }
  }

  /** Copies the powers into the second half of the table. */
  method Wrap(exp: array<Byte>)
    requires exp.Length == 512 && ExpOk(exp[..], ORDER)
    modifies exp
    ensures ExpOk(exp[..], 512)
  {
    var i: nat := ORDER;
    ghost var order := i;
    OrderIsOne(order);
    while i < 512
      invariant order <= i <= 512 && ExpOk(exp[..], i)
    {
      PowPeriodic(i - order, order);
      ExpSnoc(exp[..], i);
      ghost var powers := exp[..];
      assert powers[i - order] == Pow(i - order);
      exp[i] := exp[i - ORDER];
      assert exp[..] == powers[i := Pow(i)];
      i := i + 1;
    }
  }

  /** Powers of x twice around, and their logarithms. */
  method BuildTables() returns (exp: array<Byte>, log: array<nat>)
    ensures fresh(exp) && fresh(log)
    ensures exp.Length == 512 && ExpOk(exp[..], 512) && LogOk(log[..], ORDER)
  {
    exp := new Byte[512](_ => ZERO);
    log := new nat[256](_ => 0);
    FillPowers(exp, log);
    Wrap(exp);
  }

  /** Multiplication by logarithms is the multiplication of the field. */
  method GfMul(exp: array<Byte>, log: array<nat>, a: Byte, b: Byte) returns (r: Byte)
    requires exp.Length == 512 && ExpOk(exp[..], 512) && log.Length == 256 && LogOk(log[..], ORDER)
    ensures r == Mul(a, b)
  {
    if a == ZERO || b == ZERO {
      MulZero(a);
      MulZero(b);
      MulCommutes(a, b);
      return ZERO;
    }
    ghost var i := EveryByteIsPower(a, ORDER);
    ghost var j := EveryByteIsPower(b, ORDER);
    assert log[..][Value(Pow(i))] == i && log[..][Value(Pow(j))] == j;
    PowAdd(i, j);
    r := exp[log[Value(a)] + log[Value(b)]];
    assert exp[..][i + j] == Pow(i + j);
  }
}
