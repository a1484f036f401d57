/** Sorting by a comparison, and the byte order of texts. */
module Sorting {

  type Less<!T> = (T, T) -> bool

  /** The comparison ranks all values in one line: what it leaves apart stays apart. */
  ghost predicate Ranks<T(!new)>(less: Less<T>) {
    forall x, y, z :: InLine(less, x, y, z)
  }

  ghost predicate InLine<T>(less: Less<T>, x: T, y: T, z: T) {
    && !(less(x, y) && less(y, x))
    && (!less(y, x) && !less(z, y) ==> !less(z, x))
  }

  /** No later element comes before an earlier one. */
  ghost predicate Sorted<T>(less: Less<T>, xs: seq<T>) {
    forall i, j :: 0 <= i < j < |xs| ==> !less(xs[j], xs[i])
  }

  ghost predicate NoRepeats<T(!new)>(xs: seq<T>) {
    forall x :: multiset(xs)[x] <= 1
  }

  function Insert<T>(less: Less<T>, x: T, xs: seq<T>): (out: seq<T>)
    ensures multiset(out) == multiset(xs) + multiset{x}
  {
    if xs == [] || less(x, xs[0]) then [x] + xs
    else
      assert xs == [xs[0]] + xs[1..];
      [xs[0]] + Insert(less, x, xs[1..])
  }

  /** What a library sort by `less` returns. */
  function Sort<T>(less: Less<T>, xs: seq<T>): (out: seq<T>)
    ensures multiset(out) == multiset(xs)
  {
    if xs == [] then []
    else
      assert xs == [xs[0]] + xs[1..];
      Insert(less, xs[0], Sort(less, xs[1..]))
  }

  lemma {:induction false} FirstIsLeast<T(!new)>(less: Less<T>, x: T, xs: seq<T>)
    requires Sorted(less, xs) && forall y :: y in xs ==> !less(y, x)
    ensures Sorted(less, [x] + xs)
  {
    var all := [x] + xs;
    forall i, j | 0 <= i < j < |all|
      ensures !less(all[j], all[i])
    {
      assert all[j] == xs[j - 1];
      if i > 0 {
        assert all[i] == xs[i - 1];
      }
    }
  }

  lemma {:induction false} TailIsSorted<T>(less: Less<T>, xs: seq<T>)
    requires Sorted(less, xs) && xs != []
    ensures Sorted(less, xs[1..]) && forall y :: y in xs[1..] ==> !less(y, xs[0])
  {
    var tail := xs[1..];
    forall i, j | 0 <= i < j < |tail|
      ensures !less(tail[j], tail[i])
    {
      assert tail[j] == xs[j + 1] && tail[i] == xs[i + 1];
    }
    forall y | y in tail
      ensures !less(y, xs[0])
    {
      var k :| 0 <= k < |tail| && tail[k] == y;
      assert xs[k + 1] == y;
    }
  }

  lemma {:induction false} InsertSorts<T(!new)>(less: Less<T>, x: T, xs: seq<T>)
    requires Ranks(less) && Sorted(less, xs)
    ensures Sorted(less, Insert(less, x, xs))
    decreases |xs|
  {
    if xs == [] {
    } else if less(x, xs[0]) {
      TailIsSorted(less, xs);
      forall y | y in xs
        ensures !less(y, x)
      {
        assert InLine(less, x, xs[0], y);
        assert xs == [xs[0]] + xs[1..];
      }
      FirstIsLeast(less, x, xs);
    } else {
      TailIsSorted(less, xs);
      InsertSorts(less, x, xs[1..]);
      var rest := Insert(less, x, xs[1..]);
      forall y | y in rest
        ensures !less(y, xs[0])
      {
        assert y in multiset(rest);
      }
      FirstIsLeast(less, xs[0], rest);
    }
  }

  lemma {:induction false} SortSorts<T(!new)>(less: Less<T>, xs: seq<T>)
    requires Ranks(less)
    ensures Sorted(less, Sort(less, xs))
    decreases |xs|
  {
    if xs != [] {
      SortSorts(less, xs[1..]);
      InsertSorts(less, xs[0], Sort(less, xs[1..]));
    }
  }

  /** No two values rank alike. */
  ghost predicate Separates<T(!new)>(less: Less<T>) {
    forall x, y :: Apart(less, x, y)
  }

  ghost predicate Apart<T>(less: Less<T>, x: T, y: T) {
    x == y || less(x, y) || less(y, x)
  }

  lemma {:induction false} LeastOf<T(!new)>(less: Less<T>, xs: seq<T>, y: T)
    requires Ranks(less) && Sorted(less, xs) && xs != [] && y in xs
    ensures !less(y, xs[0])
  {
    var k :| 0 <= k < |xs| && xs[k] == y;
    assert InLine(less, y, y, y);
  }

  lemma {:induction false} SameFirst<T(!new)>(less: Less<T>, xs: seq<T>, ys: seq<T>)
    requires Ranks(less) && Separates(less) && Sorted(less, xs) && Sorted(less, ys)
    requires xs != [] && ys != [] && xs[0] in ys && ys[0] in xs
    ensures xs[0] == ys[0]
  {
    LeastOf(less, xs, ys[0]);
    LeastOf(less, ys, xs[0]);
    assert Apart(less, xs[0], ys[0]);
  }

  lemma {:induction false} SameTail<T>(xs: seq<T>, ys: seq<T>)
    requires xs != [] && ys != [] && xs[0] == ys[0] && multiset(xs) == multiset(ys)
    ensures multiset(xs[1..]) == multiset(ys[1..])
  {
    assert xs == [xs[0]] + xs[1..] && ys == [ys[0]] + ys[1..];
    assert multiset(xs[1..]) == multiset(xs) - multiset{xs[0]};
  }

  /** A sorted list is determined by its elements when no two values rank alike. */
  lemma {:induction false} SortedIsUnique<T(!new)>(less: Less<T>, xs: seq<T>, ys: seq<T>)
    requires Ranks(less) && Separates(less) && Sorted(less, xs) && Sorted(less, ys) && multiset(xs) == multiset(ys)
    ensures xs == ys
    decreases |xs|
  {
    assert |xs| == |multiset(xs)| && |ys| == |multiset(ys)|;
    if xs != [] {
      assert xs[0] in multiset(ys) && ys[0] in multiset(xs);
      SameFirst(less, xs, ys);
      SameTail(xs, ys);
      TailIsSorted(less, xs);
      TailIsSorted(less, ys);
      SortedIsUnique(less, xs[1..], ys[1..]);
      assert xs == [xs[0]] + xs[1..] && ys == [ys[0]] + ys[1..];
    }
  }

  // ---------------------------------------------------------------- texts

  /** Code-point order of strings. */
  predicate TextLess(x: string, y: string) {
    y != "" && (x == "" || x[0] < y[0] || (x[0] == y[0] && TextLess(x[1..], y[1..])))
  }

  lemma {:induction false} TextOrder(x: string, y: string)
    ensures TextLess(x, y) || x == y || TextLess(y, x)
    ensures !(TextLess(x, y) && TextLess(y, x))
    decreases |x|
  {
    if x != "" && y != "" {
      TextOrder(x[1..], y[1..]);
      assert x == [x[0]] + x[1..] && y == [y[0]] + y[1..];
    }
  }

  lemma {:induction false} TextTransitive(x: string, y: string, z: string)
    requires TextLess(x, y) && TextLess(y, z)
    ensures TextLess(x, z)
    decreases |x|
  {
    if x != "" && x[0] == y[0] && y[0] == z[0] {
      TextTransitive(x[1..], y[1..], z[1..]);
    }
  }

  /** A text and a number, in that order of weight. */
  predicate PairLess(x: (string, nat), y: (string, nat)) {
    if x.0 != y.0 then TextLess(x.0, y.0) else x.1 < y.1
  }

  lemma {:induction false} PairsInLine(x: (string, nat), y: (string, nat), z: (string, nat))
    ensures !(PairLess(x, y) && PairLess(y, x))
    ensures !PairLess(y, x) && !PairLess(z, y) ==> !PairLess(z, x)
    ensures x != y ==> PairLess(x, y) || PairLess(y, x)
  {
    TextOrder(x.0, y.0);
    TextOrder(y.0, z.0);
    TextOrder(x.0, z.0);
    if TextLess(x.0, y.0) && TextLess(y.0, z.0) {
      TextTransitive(x.0, y.0, z.0);
    }
  }
}
