/** Sums of weighted powers over a ring of characteristic two without zero divisors: as many of them as
    there are terms cannot all be zero. */
module PowerSums {
  import opened Polynomials
  import opened RingPowers

  /** A weight and the element whose powers it weighs. */
  datatype Term<T> = Term(weight: T, place: T)

  ghost predicate NonZeroProduct<T>(f: Ring<T>, a: T, b: T) {
    a != f.zero && b != f.zero ==> f.times(a, b) != f.zero
  }

  ghost predicate NoZeroDivisors<T(!new)>(f: Ring<T>) {
    forall a, b :: NonZeroProduct(f, a, b)
  }

  /** The sum of the weights times the i-th powers of the places. */
  function PowerSum<T>(f: Ring<T>, terms: seq<Term<T>>, i: nat): T {
    if |terms| == 0 then f.zero
    else
      var t := terms[|terms| - 1];
      f.plus(PowerSum(f, terms[..|terms| - 1], i), f.times(t.weight, Raise(f, t.place, i)))
  }

  /** Weights are not zero and places differ. */
  ghost predicate Proper<T>(f: Ring<T>, terms: seq<Term<T>>) {
    && (forall k :: 0 <= k < |terms| ==> terms[k].weight != f.zero)
    && (forall j, k :: 0 <= j < k < |terms| ==> terms[j].place != terms[k].place)
  }

  /** Every weight times the difference of its place from `y`. */
  function Away<T>(f: Ring<T>, terms: seq<Term<T>>, y: T): (out: seq<Term<T>>)
    ensures |out| == |terms|
  {
    seq(|terms|, k requires 0 <= k < |terms| =>
      Term(f.times(terms[k].weight, f.plus(terms[k].place, y)), terms[k].place))
  }

  lemma {:induction false} SumSnoc<T>(f: Ring<T>, terms: seq<Term<T>>, t: Term<T>, i: nat)
    ensures PowerSum(f, terms + [t], i) == f.plus(PowerSum(f, terms, i), f.times(t.weight, Raise(f, t.place, i)))
  {
    assert (terms + [t])[..|terms|] == terms;
  }

  /** w (x + y) x^i == w x^(i+1) + w x^i y */
  lemma {:induction false} OneAway<T(!new)>(f: Ring<T>, w: T, x: T, y: T, i: nat)
    requires Lawful(f)
    ensures f.times(f.times(w, f.plus(x, y)), Raise(f, x, i)) ==
      f.plus(f.times(w, Raise(f, x, i + 1)), f.times(f.times(w, Raise(f, x, i)), y))
  {
    var p := Raise(f, x, i);
    TimesSwaps(f, w, f.plus(x, y), p);
    TimesCommutes(f, f.times(w, p), f.plus(x, y));
    Distributes(f, x, y, f.times(w, p));
    TimesCommutes(f, x, f.times(w, p));
    TimesCommutes(f, y, f.times(w, p));
    assert Law(f, w, p, x);
  }

  lemma {:induction false} Collect<T(!new)>(f: Ring<T>, s: T, t: T, p: T, q: T, y: T)
    requires Lawful(f)
    ensures f.plus(f.plus(s, f.times(t, y)), f.plus(p, f.times(q, y))) == f.plus(f.plus(s, p), f.times(f.plus(t, q), y))
  {
    PlusFour(f, s, f.times(t, y), p, f.times(q, y));
    Distributes(f, t, q, y);
  }

  /** Sums of the weights moved away from `y` are differences of sums. */
  lemma {:induction false} SumAway<T(!new)>(f: Ring<T>, terms: seq<Term<T>>, y: T, i: nat)
    requires Lawful(f)
    ensures PowerSum(f, Away(f, terms, y), i) == f.plus(PowerSum(f, terms, i + 1), f.times(PowerSum(f, terms, i), y))
    decreases |terms|
  {
    if |terms| == 0 {
      TimesZero(f, y);
      PlusZero(f, f.zero);
    } else {
      var m := |terms| - 1;
      var t, rest := terms[m], terms[..m];
      var moved := Term(f.times(t.weight, f.plus(t.place, y)), t.place);
      SumAway(f, rest, y, i);
      assert Away(f, terms, y) == Away(f, rest, y) + [moved];
      SumSnoc(f, Away(f, rest, y), moved, i);
      OneAway(f, t.weight, t.place, y, i);
      Collect(f, PowerSum(f, rest, i + 1), PowerSum(f, rest, i),
        f.times(t.weight, Raise(f, t.place, i + 1)), f.times(t.weight, Raise(f, t.place, i)), y);
    }
  }

  /** A term moved away from its own place is gone. */
  lemma {:induction false} LastIsGone<T(!new)>(f: Ring<T>, terms: seq<Term<T>>, i: nat)
    requires Lawful(f) && |terms| > 0
    ensures var m := |terms| - 1;
      PowerSum(f, Away(f, terms, terms[m].place), i) == PowerSum(f, Away(f, terms[..m], terms[m].place), i)
  {
    var m := |terms| - 1;
    var t, rest := terms[m], terms[..m];
    var gone := Term(f.times(t.weight, f.plus(t.place, t.place)), t.place);
    assert Away(f, terms, t.place) == Away(f, rest, t.place) + [gone];
    SumSnoc(f, Away(f, rest, t.place), gone, i);
    PlusZero(f, t.place);
    TimesZero(f, t.weight);
    TimesZero(f, Raise(f, t.place, i));
    PlusZero(f, PowerSum(f, Away(f, rest, t.place), i));
  }

  lemma {:induction false} AwayIsProper<T(!new)>(f: Ring<T>, terms: seq<Term<T>>)
    requires Lawful(f) && NoZeroDivisors(f) && Proper(f, terms) && |terms| > 0
    ensures var m := |terms| - 1; Proper(f, Away(f, terms[..m], terms[m].place))
  {
    var m := |terms| - 1;
    var y := terms[m].place;
    forall k | 0 <= k < m
      ensures f.times(terms[k].weight, f.plus(terms[k].place, y)) != f.zero
    {
      if f.plus(y, terms[k].place) == f.zero {
        PlusTwice(f, y, terms[k].place);
        PlusZero(f, y);
      }
      assert Law(f, y, terms[k].place, y);
      assert NonZeroProduct(f, terms[k].weight, f.plus(terms[k].place, y));
    }
  }

  /** Of the first |terms| power sums of proper terms, some is not zero. */
  lemma {:induction false} SomeSumIsNotZero<T(!new)>(f: Ring<T>, terms: seq<Term<T>>) returns (i: nat)
    requires Lawful(f) && NoZeroDivisors(f) && Proper(f, terms) && |terms| > 0
    ensures i < |terms| && PowerSum(f, terms, i) != f.zero
    decreases |terms|
  {
    var m := |terms| - 1;
    if m == 0 {
      i := 0;
      SumSnoc(f, [], terms[0], 0);
      assert [] + [terms[0]] == terms;
      TimesOne(f, terms[0].weight);
      TimesCommutes(f, terms[0].weight, f.one);
      PlusZero(f, terms[0].weight);
    } else {
      var y := terms[m].place;
      AwayIsProper(f, terms);
      var j := SomeSumIsNotZero(f, Away(f, terms[..m], y));
      LastIsGone(f, terms, j);
      SumAway(f, terms, y, j);
      TimesZero(f, y);
      PlusZero(f, f.zero);
      i := if PowerSum(f, terms, j) != f.zero then j else j + 1;
    }
  }

  // ---------------------------------------------------------------- words as sums of powers

  /** Entries that are not zero. */
  function Weight<T(==)>(f: Ring<T>, word: seq<T>): nat {
    if |word| == 0 then 0 else Weight(f, word[..|word| - 1]) + (if word[|word| - 1] == f.zero then 0 else 1)
  }

  /** Exponents of the entries that are not zero, falling, when the last entry has exponent `e`. */
  function Exponents<T(==)>(f: Ring<T>, word: seq<T>, e: nat): (es: seq<nat>)
    ensures |es| == Weight(f, word)
  {
    if |word| == 0 then []
    else
      var m := |word| - 1;
      Exponents(f, word[..m], e + 1) + (if word[m] == f.zero then [] else [e])
  }

  /** The entries that are not zero, placed at the powers of `g`. */
  function Terms<T(==)>(f: Ring<T>, g: T, word: seq<T>, e: nat): (ts: seq<Term<T>>)
    ensures |ts| == Weight(f, word)
  {
    if |word| == 0 then []
    else
      var m := |word| - 1;
      Terms(f, g, word[..m], e + 1) + (if word[m] == f.zero then [] else [Term(word[m], Raise(f, g, e))])
  }

  predicate Falling(es: seq<nat>, low: nat, high: nat) {
    && (forall k :: 0 <= k < |es| ==> low <= es[k] < high)
    && (forall j, k :: 0 <= j < k < |es| ==> es[j] > es[k])
  }

  lemma {:induction false} ExponentsFall<T>(f: Ring<T>, word: seq<T>, e: nat)
    ensures Falling(Exponents(f, word, e), e, e + |word|)
    decreases |word|
  {
    if |word| > 0 {
      ExponentsFall(f, word[..|word| - 1], e + 1);
    }
  }

  lemma {:induction false} TermsArePowers<T>(f: Ring<T>, g: T, word: seq<T>, e: nat)
    ensures forall k :: 0 <= k < Weight(f, word) ==>
      Terms(f, g, word, e)[k].weight != f.zero && Terms(f, g, word, e)[k].place == Raise(f, g, Exponents(f, word, e)[k])
    decreases |word|
  {
    if |word| > 0 {
      TermsArePowers(f, g, word[..|word| - 1], e + 1);
    }
  }

  /** The first `n` powers of `g` differ. */
  ghost predicate PowersDiffer<T>(f: Ring<T>, g: T, n: nat) {
    forall j, k :: 0 <= j < k < n ==> Raise(f, g, j) != Raise(f, g, k)
  }

  lemma {:induction false} TermsAreProper<T>(f: Ring<T>, g: T, word: seq<T>)
    requires PowersDiffer(f, g, |word|)
    ensures Proper(f, Terms(f, g, word, 0))
  {
    var ts, es := Terms(f, g, word, 0), Exponents(f, word, 0);
    ExponentsFall(f, word, 0);
    TermsArePowers(f, g, word, 0);
    forall j, k | 0 <= j < k < |ts|
      ensures ts[j].place != ts[k].place
    {
      assert Raise(f, g, es[k]) != Raise(f, g, es[j]);
    }
  }

  lemma {:induction false} RaiseProduct<T(!new)>(f: Ring<T>, a: T, b: T, i: nat)
    requires Lawful(f)
    ensures Raise(f, f.times(a, b), i) == f.times(Raise(f, a, i), Raise(f, b, i))
    decreases i
  {
    if i == 0 {
      TimesOne(f, f.one);
    } else {
      var p, q := Raise(f, a, i - 1), Raise(f, b, i - 1);
      RaiseProduct(f, a, b, i - 1);
      assert Law(f, p, q, f.times(a, b));
      assert Law(f, q, a, b);
      assert Law(f, q, a, q);
      assert Law(f, a, q, b);
      assert Law(f, p, a, f.times(q, b));
    }
  }

  lemma {:induction false} OneMoreEntry<T(!new)>(f: Ring<T>, v: T, y: T, c: T, p: T)
    requires Lawful(f)
    ensures f.plus(f.times(v, f.times(p, y)), f.times(c, p)) == f.times(f.plus(f.times(v, y), c), p)
  {
    Distributes(f, f.times(v, y), c, p);
    assert Law(f, v, y, p);
    TimesCommutes(f, y, p);
  }

  /** The value of a word at g^i is the i-th power sum of its terms. */
  lemma {:induction false} ValueIsPowerSum<T(!new)>(f: Ring<T>, g: T, word: seq<T>, e: nat, i: nat)
    requires Lawful(f)
    ensures PowerSum(f, Terms(f, g, word, e), i) == f.times(Eval(f, word, Raise(f, g, i)), Raise(f, Raise(f, g, e), i))
    decreases |word|
  {
    var p, y := Raise(f, Raise(f, g, e), i), Raise(f, g, i);
    if |word| == 0 {
      TimesZero(f, p);
    } else {
      var m := |word| - 1;
      var rest, c := word[..m], word[m];
      ValueIsPowerSum(f, g, rest, e + 1, i);
      RaiseProduct(f, Raise(f, g, e), g, i);
      OneMoreEntry(f, Eval(f, rest, y), y, c, p);
      if c == f.zero {
        assert Terms(f, g, word, e) == Terms(f, g, rest, e + 1);
        TimesZero(f, p);
        PlusZero(f, PowerSum(f, Terms(f, g, rest, e + 1), i));
      } else {
        SumSnoc(f, Terms(f, g, rest, e + 1), Term(c, Raise(f, g, e)), i);
      }
    }
  }

  /** A word with between 1 and n entries that are not zero does not vanish at all of g^0 to g^(n-1). */
  lemma {:induction false} DamageShows<T(!new)>(f: Ring<T>, g: T, word: seq<T>, n: nat) returns (i: nat)
    requires Lawful(f) && NoZeroDivisors(f) && PowersDiffer(f, g, |word|) && 0 < Weight(f, word) <= n
    ensures i < n && Eval(f, word, Raise(f, g, i)) != f.zero
  {
    TermsAreProper(f, g, word);
    i := SomeSumIsNotZero(f, Terms(f, g, word, 0));
    ValueIsPowerSum(f, g, word, 0, i);
    RaiseOne(f, i);
    TimesZero(f, f.one);
  }
}
