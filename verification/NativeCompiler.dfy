/** The native rule-set compiler: what it accepts, and that its split keeps the meaning of the rules
    (internal/lists/native.go). */
module NativeCompiler {
  import opened Ipv4
  import opened Options
  import opened Subnets
  import opened NativeRules
  import opened NativeProjection
  import opened NativeRegex

  datatype Error =
    | Unsupported  // a rule the split cannot express
    | Exhausted    // a complexity or work budget ran out
    | Unbounded    // the split would cover the whole address space

  datatype Result<+T> = Ok(value: T) | Err(error: Error)

  const MAX_NODES := 10000
  const MAX_DEPTH := 32
  const MAX_VALUES := 200000
  const MAX_WORK := 0x40_0000
  const MAX_TEXT := 4096

  // ---------------------------------------------------------------- work budget

  function BitLen(n: nat): nat {
    if n == 0 then 0 else 1 + BitLen(n / 2)
  }

  /** Range visits, with a factor for sorting when the ranges are normalized. */
  function Cost(n: nat, normalize: bool): nat {
    if normalize && n > 0 then n * (BitLen(n) + 1) else n
  }

  /** Counters shared by one compilation. */
  class Budget {
    var remaining: nat
    var nodes: nat
    var values: nat
    var regexCount: nat
    var regexBytes: nat
    var regexSpent: RegexCost
    const legacy: bool
    const parse: RegexParser

    constructor (legacy: bool, parse: RegexParser)
      ensures remaining == MAX_WORK && nodes == 0 && values == 0
      ensures regexCount == 0 && regexBytes == 0 && regexSpent == RegexCost(0, 0, 0)
      ensures this.legacy == legacy && this.parse == parse
    {
      remaining, nodes, values := MAX_WORK, 0, 0;
      regexCount, regexBytes, regexSpent := 0, 0, RegexCost(0, 0, 0);
      this.legacy, this.parse := legacy, parse;
    }

    predicate RegexesFit()
      reads `regexBytes, `regexSpent
    {
      regexBytes <= MAX_REGEX_BYTES && WithinBudget(regexSpent)
    }

    /** Admits an expression exactly when it is one the simplifier knows and both of its copies, fully written
        out, fit the budget that all expressions of the set share. */
    method AdmitRegex(pattern: string) returns (failed: Option<Error>)
      requires RegexesFit()
      modifies this`regexCount, this`regexBytes, this`regexSpent
      ensures RegexesFit() && failed != Some(Unbounded)
      ensures failed.None? <==>
                && old(regexCount) < MAX_REGEX_COUNT && old(regexBytes) + |pattern| <= MAX_REGEX_BYTES
                && Loads(parse, pattern) && WithinBudget(Charged(old(regexSpent), CostOf(parse(pattern).value)))
      ensures failed.None? ==> regexCount == old(regexCount) + 1 && regexBytes == old(regexBytes) + |pattern|
      ensures failed.None? ==> regexSpent == Charged(old(regexSpent), CostOf(parse(pattern).value))
      ensures failed == Some(Unsupported) <==>
                old(regexCount) < MAX_REGEX_COUNT && old(regexBytes) + |pattern| <= MAX_REGEX_BYTES && !Loads(parse, pattern)
    {
      if regexCount >= MAX_REGEX_COUNT || |pattern| > MAX_REGEX_BYTES - regexBytes {
        return Some(Exhausted);
      }
      regexCount := regexCount + 1;
      regexBytes := regexBytes + |pattern|;
      if parse(pattern).None? {
        return Some(Unsupported);
      }
      var cost := EstimateNativeRegex(parse(pattern).value);
      if cost.None? {
        return Some(Unsupported);
      }
      var next := ChargeRegex(regexSpent, cost.value, parse(pattern).value);
      if next.None? {
        return Some(Exhausted);
      }
      regexSpent := next.value;
      return None;
    }

    method Charge(n: nat, normalize: bool) returns (ok: bool)
      modifies this`remaining
      ensures ok == (Cost(n, normalize) <= old(remaining))
      ensures remaining == old(remaining) - if ok then Cost(n, normalize) else 0
    {
      var cost := n;
      if normalize && n > 0 {
        cost := n * (BitLen(n) + 1);
      }
      if cost > remaining {
        return false;
      }
      remaining := remaining - cost;
      return true;
    }
  }

  // ---------------------------------------------------------------- intersection

  function Overlap(x: Range, y: Range): seq<Range> {
    var from, to := Max(x.from, y.from), Min(x.to, y.to);
    if from <= to then [Range(from, to)] else []
  }

  function Intersection(xs: seq<Range>, ys: seq<Range>): seq<Range>
    decreases |xs| + |ys|
  {
    if xs == [] || ys == [] then []
    else
      Overlap(xs[0], ys[0]) +
      if xs[0].to < ys[0].to then Intersection(xs[1..], ys) else Intersection(xs, ys[1..])
  }

  lemma {:induction false} DisjointBelow(rs: seq<Range>, a: Address)
    requires Disjoint(rs) && rs != []
    ensures a <= rs[0].to ==> !Covers(rs[1..], a)
    decreases |rs|
  {
    if |rs| > 1 && a <= rs[0].to {
      DisjointBelow(rs[1..], a);
    }
  }

  lemma {:induction false} IntersectionMembers(xs: seq<Range>, ys: seq<Range>, a: Address)
    requires Disjoint(xs) && Disjoint(ys)
    ensures Covers(Intersection(xs, ys), a) <==> Covers(xs, a) && Covers(ys, a)
    decreases |xs| + |ys|
  {
    if xs != [] && ys != [] {
      DisjointBelow(xs, a);
      DisjointBelow(ys, a);
      var overlap := Overlap(xs[0], ys[0]);
      if overlap != [] {
        CoversOne(overlap[0], a);
      }
      if xs[0].to < ys[0].to {
        IntersectionMembers(xs[1..], ys, a);
        CoversConcat(overlap, Intersection(xs[1..], ys), a);
      } else {
        IntersectionMembers(xs, ys[1..], a);
        CoversConcat(overlap, Intersection(xs, ys[1..]), a);
      }
    }
  }

  lemma {:induction false} IntersectionDisjoint(xs: seq<Range>, ys: seq<Range>)
    requires Disjoint(xs) && Disjoint(ys)
    ensures Disjoint(Intersection(xs, ys))
    ensures Intersection(xs, ys) != [] ==>
              xs != [] && ys != [] && Max(xs[0].from, ys[0].from) <= Intersection(xs, ys)[0].from
    decreases |xs| + |ys|
  {
    if xs != [] && ys != [] {
      var overlap := Overlap(xs[0], ys[0]);
      var rest := if xs[0].to < ys[0].to then Intersection(xs[1..], ys) else Intersection(xs, ys[1..]);
      if xs[0].to < ys[0].to {
        IntersectionDisjoint(xs[1..], ys);
      } else {
        IntersectionDisjoint(xs, ys[1..]);
      }
      if overlap != [] {
        assert (overlap + rest)[1..] == rest;
      } else {
        assert overlap + rest == rest;
      }
    }
  }

  /** The same merge by position, as the loop walks it. */
  function IntersectionFrom(xs: seq<Range>, i: nat, ys: seq<Range>, j: nat): seq<Range>
    requires i <= |xs| && j <= |ys|
    decreases |xs| - i + |ys| - j
  {
    if i == |xs| || j == |ys| then []
    else
      Overlap(xs[i], ys[j]) +
      if xs[i].to < ys[j].to then IntersectionFrom(xs, i + 1, ys, j) else IntersectionFrom(xs, i, ys, j + 1)
  }

  lemma {:induction false} FromStep(done: seq<Range>, xs: seq<Range>, i: nat, ys: seq<Range>, j: nat)
    requires i < |xs| && j < |ys|
    ensures var rest := if xs[i].to < ys[j].to then IntersectionFrom(xs, i + 1, ys, j) else IntersectionFrom(xs, i, ys, j + 1);
            done + IntersectionFrom(xs, i, ys, j) == (done + Overlap(xs[i], ys[j])) + rest
  {
  }

  lemma {:induction false} FromIsIntersection(xs: seq<Range>, i: nat, ys: seq<Range>, j: nat)
    requires i <= |xs| && j <= |ys|
    ensures IntersectionFrom(xs, i, ys, j) == Intersection(xs[i..], ys[j..])
    decreases |xs| - i + |ys| - j
  {
    if i < |xs| && j < |ys| {
      assert xs[i..][1..] == xs[i + 1..] && ys[j..][1..] == ys[j + 1..];
      if xs[i].to < ys[j].to {
        FromIsIntersection(xs, i + 1, ys, j);
      } else {
        FromIsIntersection(xs, i, ys, j + 1);
      }
    }
  }

  lemma {:induction false} IntersectionMeaning(xs: seq<Range>, ys: seq<Range>, out: seq<Range>)
    requires Disjoint(xs) && Disjoint(ys) && out == IntersectionFrom(xs, 0, ys, 0)
    ensures Disjoint(out)
    ensures forall a: Address :: Covers(out, a) <==> Covers(xs, a) && Covers(ys, a)
  {
    FromIsIntersection(xs, 0, ys, 0);
    assert xs[0..] == xs && ys[0..] == ys;
    IntersectionDisjoint(xs, ys);
    forall a: Address {
      IntersectionMembers(xs, ys, a);
    }
  }

  /** Part of a goal is computed, the rest is the intersection from here on. */
  predicate PartDone(goal: seq<Range>, xs: seq<Range>, ys: seq<Range>, done: seq<Range>, i: nat, j: nat) {
    i <= |xs| && j <= |ys| && goal == done + IntersectionFrom(xs, i, ys, j)
  }

  lemma {:induction false} PartStep(goal: seq<Range>, xs: seq<Range>, ys: seq<Range>, done: seq<Range>, i: nat, j: nat)
    requires PartDone(goal, xs, ys, done, i, j) && i < |xs| && j < |ys|
    ensures if xs[i].to < ys[j].to then PartDone(goal, xs, ys, done + Overlap(xs[i], ys[j]), i + 1, j)
            else PartDone(goal, xs, ys, done + Overlap(xs[i], ys[j]), i, j + 1)
  {
    FromStep(done, xs, i, ys, j);
  }

  lemma {:induction false} PartAll(goal: seq<Range>, xs: seq<Range>, ys: seq<Range>, done: seq<Range>, i: nat, j: nat)
    requires PartDone(goal, xs, ys, done, i, j) && (i == |xs| || j == |ys|)
    ensures done == goal
  {
  }

  /** What two ranges share, as a list. */
  method OverlapOf(x: Range, y: Range) returns (out: seq<Range>)
    ensures out == Overlap(x, y)
  {
    var from, to := x.from, x.to;
    if y.from > from {
      from := y.from;
    }
    if y.to < to {
      to := y.to;
    }
    if from <= to {
      return [Range(from, to)];
    }
    return [];
  }

  /** A linear merge of two lists. */
  method MergeOverlaps(xs: seq<Range>, ys: seq<Range>) returns (out: seq<Range>)
    ensures out == IntersectionFrom(xs, 0, ys, 0)
  {
    ghost var goal := IntersectionFrom(xs, 0, ys, 0);
    out := [];
    var i, j := 0, 0;
    while i < |xs| && j < |ys|
      invariant 0 <= i <= |xs| && 0 <= j <= |ys| && PartDone(goal, xs, ys, out, i, j)
      decreases |xs| + |ys| - i - j
    {
      PartStep(goal, xs, ys, out, i, j);
      var shared := OverlapOf(xs[i], ys[j]);
      out := out + shared;
      if xs[i].to < ys[j].to {
        i := i + 1;
      } else {
        j := j + 1;
      }
    }
    PartAll(goal, xs, ys, out, i, j);
  }

  /** The intersection of two sorted disjoint lists, sorted and disjoint again. */
  method IntersectRanges(xs: seq<Range>, ys: seq<Range>) returns (out: seq<Range>)
    requires Disjoint(xs) && Disjoint(ys)
    ensures Disjoint(out)
    ensures forall a: Address :: Covers(out, a) <==> Covers(xs, a) && Covers(ys, a)
  {
    out := MergeOverlaps(xs, ys);
    IntersectionMeaning(xs, ys, out);
  }

  // ---------------------------------------------------------------- union and intersection of several sets

  function Flatten(sets: seq<seq<Range>>): seq<Range> {
    if sets == [] then [] else Flatten(sets[..|sets| - 1]) + sets[|sets| - 1]
  }

  lemma {:induction false} FlattenMembers(sets: seq<seq<Range>>, a: Address)
    ensures Covers(Flatten(sets), a) <==> AnyCovers(sets, a)
    decreases |sets|
  {
    if sets != [] {
      FlattenMembers(sets[..|sets| - 1], a);
      CoversConcat(Flatten(sets[..|sets| - 1]), sets[|sets| - 1], a);
    }
  }

  lemma {:induction false} CanonicalValid(rs: seq<Range>)
    requires Disjoint(rs)
    ensures AllValid(rs)
  {
    DisjointPairs(rs);
  }

  lemma {:induction false} FlattenValid(sets: seq<seq<Range>>)
    requires AllSets(sets)
    ensures AllValid(Flatten(sets))
    decreases |sets|
  {
    if sets != [] {
      var last := sets[|sets| - 1];
      FlattenValid(sets[..|sets| - 1]);
      assert last in sets;
      CanonicalIsDisjoint(last);
      CanonicalValid(last);
    }
  }

  function TotalRanges(sets: seq<seq<Range>>): nat {
    if sets == [] then 0 else TotalRanges(sets[..|sets| - 1]) + |sets[|sets| - 1]|
  }

  /** Union of sibling sets, normalized once. */
  method UnionSets(sets: seq<seq<Range>>, work: Budget) returns (res: Result<seq<Range>>)
    requires AllSets(sets)
    modifies work`remaining
    ensures res.Err? ==> res.error == Exhausted
    ensures res.Ok? ==> Canonical(res.value) && forall a: Address :: Covers(res.value, a) <==> AnyCovers(sets, a)
  {
    var ok := work.Charge(TotalRanges(sets), true);
    if !ok {
      return Err(Exhausted);
    }
    var builder: seq<Range> := [];
    for i := 0 to |sets|
      invariant builder == Flatten(sets[..i])
    {
      assert sets[..i + 1][..i] == sets[..i];
      builder := builder + sets[i];
    }
    assert sets[..|sets|] == sets;
    FlattenValid(sets);
    MergeMembers(builder);
    forall a: Address {
      FlattenMembers(sets, a);
    }
    return Ok(Merge(builder));
  }

  function InsertBySize(s: seq<Range>, sets: seq<seq<Range>>): (out: seq<seq<Range>>)
    ensures |out| == |sets| + 1
    ensures forall x :: x in out <==> x == s || x in sets
  {
    if sets == [] || |s| <= |sets[0]| then [s] + sets else [sets[0]] + InsertBySize(s, sets[1..])
  }

  /** Library sort of sets by their number of ranges. */
  function SortBySize(sets: seq<seq<Range>>): (out: seq<seq<Range>>)
    ensures |out| == |sets|
    ensures forall x :: x in out <==> x in sets
  {
    if sets == [] then [] else InsertBySize(sets[0], SortBySize(sets[1..]))
  }

  lemma {:induction false} AllCoverHas(sets: seq<seq<Range>>, s: seq<Range>, a: Address)
    requires AllCover(sets, a) && s in sets
    ensures Covers(s, a)
    decreases |sets|
  {
    if s != sets[|sets| - 1] {
      AllCoverHas(sets[..|sets| - 1], s, a);
    }
  }

  lemma {:induction false} CoverSubset(sets: seq<seq<Range>>, others: seq<seq<Range>>, a: Address)
    requires AllCover(others, a) && forall s :: s in sets ==> s in others
    ensures AllCover(sets, a)
    decreases |sets|
  {
    if sets != [] {
      CoverSubset(sets[..|sets| - 1], others, a);
      AllCoverHas(others, sets[|sets| - 1], a);
    }
  }

  lemma {:induction false} SortKeepsCover(sets: seq<seq<Range>>, a: Address)
    ensures AllCover(SortBySize(sets), a) <==> AllCover(sets, a)
  {
    if AllCover(sets, a) {
      CoverSubset(SortBySize(sets), sets, a);
    }
    if AllCover(SortBySize(sets), a) {
      CoverSubset(sets, SortBySize(sets), a);
    }
  }

  lemma {:induction false} AllCoverPrefix(sets: seq<seq<Range>>, k: nat, a: Address)
    requires k <= |sets| && AllCover(sets, a)
    ensures AllCover(sets[..k], a)
    decreases |sets| - k
  {
    if k < |sets| {
      AllCoverPrefix(sets, k + 1, a);
      assert sets[..k + 1] == sets[..k] + [sets[k]];
      CoverSnoc(sets[..k], sets[k], a);
    } else {
      assert sets[..k] == sets;
    }
  }

  ghost predicate CutsTo(sets: seq<seq<Range>>, ranges: seq<Range>) {
    forall a: Address :: Covers(ranges, a) <==> AllCover(sets, a)
  }

  lemma {:induction false} CutsSnoc(sets: seq<seq<Range>>, next: seq<Range>, ranges: seq<Range>, out: seq<Range>)
    requires CutsTo(sets, ranges)
    requires forall a: Address :: Covers(out, a) <==> Covers(ranges, a) && Covers(next, a)
    ensures CutsTo(sets + [next], out)
  {
    forall a: Address
      ensures Covers(out, a) <==> AllCover(sets + [next], a)
    {
      CoverSnoc(sets, next, a);
    }
  }

  /** One more set of a list cut with. */
  lemma {:induction false} CutStep(sets: seq<seq<Range>>, i: nat, ranges: seq<Range>, out: seq<Range>)
    requires i < |sets| && CutsTo(sets[..i], ranges)
    requires forall a: Address :: Covers(out, a) <==> Covers(ranges, a) && Covers(sets[i], a)
    ensures CutsTo(sets[..i + 1], out)
  {
    CutsSnoc(sets[..i], sets[i], ranges, out);
    assert sets[..i + 1] == sets[..i] + [sets[i]];
  }

  lemma {:induction false} CutsFirst(s: seq<Range>)
    ensures CutsTo([s], s)
  {
    forall a: Address
      ensures Covers(s, a) <==> AllCover([s], a)
    {
      CoverSnoc([], s, a);
      assert [] + [s] == [s];
    }
  }

  /** Stopping early is safe: once a prefix leaves nothing, all the sets leave nothing. */
  lemma {:induction false} CutsAll(sets: seq<seq<Range>>, sorted: seq<seq<Range>>, k: nat, ranges: seq<Range>)
    requires sorted == SortBySize(sets) && k <= |sorted| && CutsTo(sorted[..k], ranges)
    requires k == |sorted| || ranges == []
    ensures CutsTo(sets, ranges)
  {
    assert sorted[..|sorted|] == sorted;
    forall a: Address
      ensures Covers(ranges, a) <==> AllCover(sets, a)
    {
      SortKeepsCover(sets, a);
      if AllCover(sorted, a) {
        AllCoverPrefix(sorted, k, a);
      }
    }
  }

  lemma {:induction false} CutsMerged(sets: seq<seq<Range>>, ranges: seq<Range>)
    requires Disjoint(ranges) && CutsTo(sets, ranges)
    ensures AllValid(ranges) && CutsTo(sets, Merge(ranges))
  {
    CanonicalValid(ranges);
    MergeMembers(ranges);
  }

  lemma {:induction false} SortedDisjoint(sets: seq<seq<Range>>, i: nat)
    requires AllSets(sets) && i < |sets|
    ensures Disjoint(SortBySize(sets)[i])
  {
    var s := SortBySize(sets)[i];
    assert s in SortBySize(sets);
    CanonicalIsDisjoint(s);
  }

  /** Intersection of sibling sets, smallest first, stopping once nothing is left. */
  method IntersectSets(sets: seq<seq<Range>>, work: Budget) returns (res: Result<seq<Range>>)
    requires AllSets(sets) && sets != []
    modifies work`remaining
    ensures res.Err? ==> res.error == Exhausted
    ensures res.Ok? ==> Canonical(res.value) && CutsTo(sets, res.value)
  {
    var sorted := SortBySize(sets);
    SortedDisjoint(sets, 0);
    CutsFirst(sorted[0]);
    assert sorted[..1] == [sorted[0]];
    var ranges := sorted[0];
    var i := 1;
    while i < |sorted|
      invariant 1 <= i <= |sorted| && Disjoint(ranges)
      invariant CutsTo(sorted[..i], ranges)
    {
      var next := sorted[i];
      SortedDisjoint(sets, i);
      var ok := work.Charge(|ranges| + |next|, false);
      if !ok {
        return Err(Exhausted);
      }
      var cut := IntersectRanges(ranges, next);
      CutStep(sorted, i, ranges, cut);
      ranges := cut;
      i := i + 1;
      if |ranges| == 0 {
        break;
      }
    }
    var ok := work.Charge(|ranges|, true);
    if !ok {
      return Err(Exhausted);
    }
    CutsAll(sets, sorted, i, ranges);
    CutsMerged(sets, ranges);
    return Ok(Merge(ranges));
  }

  // ---------------------------------------------------------------- inversion

  /** `out` selects exactly what `e` does not, or is `e` when nothing is inverted. */
  ghost predicate Inverts(e: Expr, invert: bool, out: Expr) {
    forall read: DomainReader, c: Connection :: Selects(read, out, c) == (Selects(read, e, c) != invert)
  }

  lemma {:induction false} InvertedDomain(r: Rule, v: bool)
    requires DomainOnly(r) && EmptyValue(r, v)
    ensures DomainOnly(Negated(r)) && EmptyValue(Negated(r), !v)
    ensures forall read: DomainReader, c: Connection :: Matches(read, Negated(r), c) == !Matches(read, r, c)
  {
    forall read: DomainReader, c: Connection
      ensures DomainOnly(Negated(r)) && Matches(read, Negated(r), c) == !Matches(read, r, c)
    {
      NegatedMatches(read, r, c);
    }
  }

  method InvertNative(e: Expr, invert: bool, work: Budget) returns (res: Result<Expr>)
    requires Sound(e) && (invert ==> e.transport.None? && (e.domain.Some? || e.address.Some?))
    modifies work`remaining
    ensures res.Ok? ==> Sound(res.value) && ShapeOf(res.value) == ShapeOf(e) && Inverts(e, invert, res.value)
    ensures res.Ok? && !invert ==> res.value == e
    ensures res.Ok? ==> InvertedShape(ShapeOf(e), invert).Some?
    ensures res.Err? ==> res.error != Unbounded
    ensures res.Err? && res.error == Unsupported ==> InvertedShape(ShapeOf(e), invert).None?
  {
    if !invert {
      return Ok(e);
    }
    if e.domain.Some? && e.address.Some? {
      return Err(Unsupported);
    }
    var out := e;
    if e.domain.Some? {
      InvertedDomain(e.domain.value, e.emptyDomain);
      out := out.(domain := Some(Negated(e.domain.value)), emptyDomain := !e.emptyDomain);
    }
    if e.address.Some? {
      var ok := work.Charge(|e.address.value| + 1, true);
      if !ok {
        return Err(Exhausted);
      }
      ComplementMembers(e.address.value);
      out := out.(address := Some(Complement(e.address.value)));
    }
    return Ok(out);
  }

  // ---------------------------------------------------------------- combination without context

  /** The gathered parts of a combination before inversion. */
  ghost predicate Gathered(ee: seq<Expr>, mode: Mode, e: Expr) {
    && e.domain == JoinDomains(mode, DomainsOf(ee))
    && e.emptyDomain == EmptyOf(mode, ee)
    && e.transport.None?
    && (e.address.Some? <==> SetsOf(ee) != [])
    && (e.address.Some? ==>
          && Canonical(e.address.value)
          && forall a: Address :: Covers(e.address.value, a) <==>
               if mode == And then AllCover(SetsOf(ee), a) else AnyCovers(SetsOf(ee), a))
  }

  lemma {:induction false} GatheredSelects(read: DomainReader, ee: seq<Expr>, mode: Mode, e: Expr, c: Connection)
    requires AllSound(ee) && ee != [] && Gathered(ee, mode, e)
    requires mode == And ==> AllPureDomain(ShapesOf(ee)) || AllPureAddress(ShapesOf(ee))
    ensures Selects(read, e, c) <==> if mode == And then AllSelect(read, ee, c) else AnySelects(read, ee, c)
  {
    JoinedMatches(read, mode, DomainsOf(ee), c);
    if mode == And {
      if AllPureDomain(ShapesOf(ee)) {
        AndOfDomains(read, ee, c);
      } else {
        AndOfAddresses(read, ee, c);
      }
    } else {
      OrParts(read, ee, c);
    }
  }

  lemma {:induction false} GatheredEmpty(ee: seq<Expr>, mode: Mode, e: Expr)
    requires AllSound(ee) && ee != [] && Gathered(ee, mode, e)
    requires mode == And ==> AllPureDomain(ShapesOf(ee)) || AllPureAddress(ShapesOf(ee))
    ensures e.domain.Some? ==> EmptyValue(e.domain.value, e.emptyDomain)
    ensures e.domain.None? ==> !e.emptyDomain
  {
    if e.domain.None? {
      NoDomainNoEmpty(mode, ee);
    } else {
      forall read: DomainReader, c: Connection | c.domain.None?
        ensures Matches(read, e.domain.value, c) == e.emptyDomain
      {
        JoinedMatches(read, mode, DomainsOf(ee), c);
        if mode == And {
          if AllPureAddress(ShapesOf(ee)) {
            AndOfAddresses(read, ee, c);
          }
          EmptyAnd(read, ee, c);
        } else {
          EmptyOr(read, ee, mode, c);
        }
      }
    }
  }

  lemma {:induction false} GatheredSound(ee: seq<Expr>, mode: Mode, e: Expr)
    requires AllSound(ee) && ee != [] && Gathered(ee, mode, e)
    requires mode == And ==> AllPureDomain(ShapesOf(ee)) || AllPureAddress(ShapesOf(ee))
    ensures Sound(e) && ShapeOf(e) == Shape(AnyDomain(ShapesOf(ee)), AnyAddress(ShapesOf(ee)), false)
  {
    PartsSound(ee);
    PartShapes(ee);
    JoinedIsDomainOnly(mode, DomainsOf(ee));
    GatheredEmpty(ee, mode, e);
  }

  lemma {:induction false} GatheredCombines(ee: seq<Expr>, mode: Mode, e: Expr, invert: bool, out: Expr)
    requires AllSound(ee) && ee != [] && !HasTransport(ee) && Gathered(ee, mode, e)
    requires mode == And ==> AllPureDomain(ShapesOf(ee)) || AllPureAddress(ShapesOf(ee))
    requires Inverts(e, invert, out) && out.transport.None?
    ensures Combines(ee, mode, invert, out)
  {
    forall read: DomainReader, c: Connection
      ensures CombinesAt(read, ee, mode, invert, out, c)
    {
      GatheredSelects(read, ee, mode, e, c);
      SelectionIsAll(read, ee, c);
      assert Selects(read, out, c) == (Selects(read, e, c) != invert);
    }
  }

  lemma {:induction false} PureStep(ee: seq<Expr>, i: nat)
    requires i < |ee|
    ensures AllPureDomain(ShapesOf(ee[..i + 1])) ==
            (AllPureDomain(ShapesOf(ee[..i])) && ee[i].domain.Some? && ee[i].address.None?)
    ensures AllPureAddress(ShapesOf(ee[..i + 1])) ==
            (AllPureAddress(ShapesOf(ee[..i])) && ee[i].domain.None? && ee[i].address.Some?)
  {
    assert ee[..i + 1] == ee[..i] + [ee[i]];
    ShapesSnoc(ee[..i], ee[i]);
  }

  /** Separable siblings: all of them domains or all of them addresses. */
  method CheckSeparable(ee: seq<Expr>) returns (ok: bool)
    ensures ok == (AllPureDomain(ShapesOf(ee)) || AllPureAddress(ShapesOf(ee)))
  {
    var allDomain, allAddress := true, true;
    for i := 0 to |ee|
      invariant allDomain == AllPureDomain(ShapesOf(ee[..i]))
      invariant allAddress == AllPureAddress(ShapesOf(ee[..i]))
    {
      PureStep(ee, i);
      allDomain := allDomain && ee[i].domain.Some? && ee[i].address.None?;
      allAddress := allAddress && ee[i].domain.None? && ee[i].address.Some?;
    }
    assert ee[..|ee|] == ee;
    return allDomain || allAddress;
  }

  method CombinePlain(ee: seq<Expr>, mode: Mode, invert: bool, work: Budget) returns (res: Result<Expr>)
    requires AllSound(ee) && ee != [] && !HasTransport(ee) && mode != BadMode
    requires invert ==> AnyDomain(ShapesOf(ee)) || AnyAddress(ShapesOf(ee))
    modifies work`remaining
    ensures res.Ok? ==> Sound(res.value) && Combines(ee, mode, invert, res.value)
    ensures res.Ok? ==> CombinedShape(ShapesOf(ee), mode, invert) == Some(ShapeOf(res.value))
    ensures res.Err? ==> res.error != Unbounded
    ensures res.Err? && res.error == Unsupported ==> CombinedShape(ShapesOf(ee), mode, invert).None?
  {
    ContextIsTransport(ee);
    if mode == And {
      var separable := CheckSeparable(ee);
      if !separable {
        return Err(Unsupported);
      }
    }
    var domains: seq<Rule> := [];
    var sets: seq<seq<Range>> := [];
    var empty := mode == And;
    for i := 0 to |ee|
      invariant domains == DomainsOf(ee[..i]) && sets == SetsOf(ee[..i])
      invariant empty == EmptyOf(mode, ee[..i])
    {
      assert ee[..i + 1][..i] == ee[..i];
      if ee[i].domain.Some? {
        domains := domains + [ee[i].domain.value];
      }
      if mode == And {
        empty := empty && ee[i].emptyDomain;
      } else {
        empty := empty || ee[i].emptyDomain;
      }
      if ee[i].address.Some? {
        sets := sets + [ee[i].address.value];
      }
    }
    assert ee[..|ee|] == ee;
    PartsSound(ee);
    var address: Option<seq<Range>> := None;
    if |sets| > 0 {
      var merged: Result<seq<Range>>;
      if mode == Or {
        merged := UnionSets(sets, work);
      } else {
        merged := IntersectSets(sets, work);
      }
      if merged.Err? {
        return Err(Exhausted);
      }
      address := Some(merged.value);
    }
    var e := Expr(JoinDomains(mode, domains), address, empty, None);
    GatheredSound(ee, mode, e);
    res := InvertNative(e, invert, work);
    if res.Ok? {
      GatheredCombines(ee, mode, e, invert, res.value);
    }
  }

  // ---------------------------------------------------------------- combination with context

  /** A projection that selects something: it has at least one part. */
  predicate Partial(e: Expr) {
    e.domain.Some? || e.address.Some? || e.transport.Some?
  }

  predicate AllPartial(ee: seq<Expr>) {
    ee != [] ==> AllPartial(ee[..|ee| - 1]) && Partial(ee[|ee| - 1])
  }

  function AddressPart(e: Expr): Expr {
    Expr(None, e.address, false, None)
  }

  function TransportPart(e: Expr): Expr {
    Expr(None, e.transport, false, None)
  }

  function AddressParts(ee: seq<Expr>): seq<Expr> {
    if ee == [] then [] else AddressParts(ee[..|ee| - 1]) + [AddressPart(ee[|ee| - 1])]
  }

  /** `m` is the address set and the transport set of `e` taken together. */
  ghost predicate EnvelopeOf(e: Expr, m: Expr) {
    && m.domain.None? && m.transport.None? && m.address.Some? && Sound(m)
    && forall a: Address :: Covers(m.address.value, a) <==> InSet(e.address, a) || InSet(e.transport, a)
  }

  ghost predicate EnvelopesOf(ee: seq<Expr>, ms: seq<Expr>) {
    && |ee| == |ms|
    && (ee != [] ==> EnvelopesOf(ee[..|ee| - 1], ms[..|ee| - 1]) && EnvelopeOf(ee[|ee| - 1], ms[|ee| - 1]))
  }

  predicate NoDomains(ee: seq<Expr>) {
    ee != [] ==> NoDomains(ee[..|ee| - 1]) && ee[|ee| - 1].domain.None?
  }

  /** One more element at the end of a list. */
  lemma {:induction false} ListSnoc(ee: seq<Expr>, e: Expr)
    ensures ShapesOf(ee + [e]) == ShapesOf(ee) + [ShapeOf(e)]
    ensures AllSound(ee + [e]) == (AllSound(ee) && Sound(e))
    ensures HasTransport(ee + [e]) == (HasTransport(ee) || e.transport.Some?)
    ensures AnyDomain(ShapesOf(ee + [e])) == (AnyDomain(ShapesOf(ee)) || e.domain.Some?)
    ensures AnyAddress(ShapesOf(ee + [e])) == (AnyAddress(ShapesOf(ee)) || e.address.Some?)
  {
    assert (ee + [e])[..|ee|] == ee;
    ShapesSnoc(ee, e);
  }

  lemma {:induction false} SelectsSnoc(read: DomainReader, ee: seq<Expr>, e: Expr, c: Connection)
    ensures AnySelects(read, ee + [e], c) == (AnySelects(read, ee, c) || Selects(read, e, c))
  {
    assert (ee + [e])[..|ee|] == ee;
  }

  lemma {:induction false} SingleShapes(x: Expr)
    ensures ShapesOf([x]) == [ShapeOf(x)]
    ensures AnyDomain(ShapesOf([x])) == x.domain.Some? && AnyAddress(ShapesOf([x])) == x.address.Some?
    ensures HasTransport([x]) == x.transport.Some? && AllSound([x]) == Sound(x)
  {
    assert [] + [x] == [x];
    ListSnoc([], x);
  }

  lemma {:induction false} PairShapes(x: Expr, y: Expr)
    ensures ShapesOf([x, y]) == [ShapeOf(x), ShapeOf(y)]
    ensures AnyDomain(ShapesOf([x, y])) == (x.domain.Some? || y.domain.Some?)
    ensures AnyAddress(ShapesOf([x, y])) == (x.address.Some? || y.address.Some?)
    ensures HasTransport([x, y]) == (x.transport.Some? || y.transport.Some?)
    ensures AllSound([x, y]) == (Sound(x) && Sound(y))
  {
    SingleShapes(x);
    ListSnoc([x], y);
    assert [x] + [y] == [x, y] && [ShapeOf(x)] + [ShapeOf(y)] == [ShapeOf(x), ShapeOf(y)];
  }

  lemma {:induction false} PairIsEnvelope(e: Expr, m: Expr)
    requires Sound(e) && Sound(m) && m.transport.None? && Partial(e) && e.domain.None?
    requires Combines([AddressPart(e), TransportPart(e)], Or, false, m)
    requires CombinedShape(ShapesOf([AddressPart(e), TransportPart(e)]), Or, false) == Some(ShapeOf(m))
    ensures EnvelopeOf(e, m)
  {
    var x, y := AddressPart(e), TransportPart(e);
    PairShapes(x, y);
    ContextIsTransport([x, y]);
    forall a: Address
      ensures Covers(m.address.value, a) <==> InSet(e.address, a) || InSet(e.transport, a)
    {
      var read: DomainReader := (i, n) => false;
      var c := Connection(None, a, OtherTransport);
      assert CombinesAt(read, [x, y], Or, false, m, c);
      assert [] + [x] == [x] && [x] + [y] == [x, y];
      SelectsSnoc(read, [], x, c);
      SelectsSnoc(read, [x], y, c);
    }
  }

  lemma {:induction false} EnvelopeShapes(ee: seq<Expr>, ms: seq<Expr>)
    requires EnvelopesOf(ee, ms)
    ensures AllSound(ms) && !HasTransport(ms) && AllPureAddress(ShapesOf(ms))
    ensures !AnyDomain(ShapesOf(ms)) && (ms != [] ==> AnyAddress(ShapesOf(ms)))
    decreases |ee|
  {
    if ee != [] {
      var front, last := ms[..|ms| - 1], ms[|ms| - 1];
      EnvelopeShapes(ee[..|ee| - 1], front);
      assert ms == front + [last];
      ShapesSnoc(front, last);
    }
  }

  lemma {:induction false} OrdinaryShapes(ee: seq<Expr>)
    requires AllSound(ee) && AllAddress(ShapesOf(ee))
    ensures var os := AddressParts(ee);
            && |os| == |ee| && AllSound(os) && !HasTransport(os) && AllPureAddress(ShapesOf(os))
            && !AnyDomain(ShapesOf(os)) && (ee != [] ==> AnyAddress(ShapesOf(os)))
    decreases |ee|
  {
    if ee != [] {
      var front, last := ee[..|ee| - 1], ee[|ee| - 1];
      assert ee == front + [last];
      ShapesSnoc(front, last);
      OrdinaryShapes(front);
      ShapesSnoc(AddressParts(front), AddressPart(last));
      assert (AddressParts(front) + [AddressPart(last)])[..|AddressParts(front)|] == AddressParts(front);
    }
  }

  lemma {:induction false} AllSelectSnoc(read: DomainReader, ee: seq<Expr>, e: Expr, c: Connection)
    ensures AllSelect(read, ee + [e], c) == (AllSelect(read, ee, c) && Selects(read, e, c))
  {
    assert (ee + [e])[..|ee|] == ee;
  }

  /** An AND of parts with context selects by the address parts alone. */
  lemma {:induction false} AndSelectsAddresses(read: DomainReader, ee: seq<Expr>, c: Connection)
    requires NoDomains(ee)
    ensures AllSelect(read, ee, c) == AllSelect(read, AddressParts(ee), c)
    decreases |ee|
  {
    if ee != [] {
      AndSelectsAddresses(read, ee[..|ee| - 1], c);
      AllSelectSnoc(read, AddressParts(ee[..|ee| - 1]), AddressPart(ee[|ee| - 1]), c);
    }
  }

  lemma {:induction false} AndNeedsAddresses(read: DomainReader, ee: seq<Expr>, c: Connection)
    requires NoDomains(ee) && AllSelect(read, ee, c)
    ensures AllAddress(ShapesOf(ee))
    decreases |ee|
  {
    if ee != [] {
      var front, last := ee[..|ee| - 1], ee[|ee| - 1];
      AndNeedsAddresses(read, front, c);
      assert ee == front + [last];
      ShapesSnoc(front, last);
    }
  }

  /** For TCP and UDP what an AND intercepts comes from the envelopes. */
  lemma {:induction false} AndContext(read: DomainReader, ee: seq<Expr>, ms: seq<Expr>, c: Connection)
    requires NoDomains(ee) && EnvelopesOf(ee, ms)
    ensures AllSelect(read, ee, c) ==> AllSelect(read, ms, c)
    ensures AllIntercept(read, ee, c) == AllSelect(read, if Proxyable(c) then ms else ee, c)
    decreases |ee|
  {
    if ee != [] {
      AndContext(read, ee[..|ee| - 1], ms[..|ee| - 1], c);
    }
  }

  ghost predicate SelectsLike(ee: seq<Expr>, part: Option<seq<Range>>) {
    forall read: DomainReader, c: Connection :: InSet(part, c.address) == AllSelect(read, ee, c)
  }

  lemma {:induction false} AndContextAt(read: DomainReader, ee: seq<Expr>, ms: seq<Expr>, out: Expr, c: Connection)
    requires NoDomains(ee) && EnvelopesOf(ee, ms) && out.domain.None?
    requires InSet(out.transport, c.address) == AllSelect(read, ms, c)
    requires if AllAddress(ShapesOf(ee)) then InSet(out.address, c.address) == AllSelect(read, AddressParts(ee), c)
             else out.address.None?
    ensures CombinesAt(read, ee, And, false, out, c)
  {
    AndContext(read, ee, ms, c);
    AndSelectsAddresses(read, ee, c);
    if AllSelect(read, ee, c) {
      AndNeedsAddresses(read, ee, c);
    }
  }

  lemma {:induction false} AndContextCombines(ee: seq<Expr>, ms: seq<Expr>, out: Expr)
    requires NoDomains(ee) && EnvelopesOf(ee, ms) && out.domain.None?
    requires SelectsLike(ms, out.transport)
    requires if AllAddress(ShapesOf(ee)) then SelectsLike(AddressParts(ee), out.address) else out.address.None?
    ensures Combines(ee, And, false, out)
  {
    forall read: DomainReader, c: Connection
      ensures CombinesAt(read, ee, And, false, out, c)
    {
      assert InSet(out.transport, c.address) == AllSelect(read, ms, c);
      if AllAddress(ShapesOf(ee)) {
        assert InSet(out.address, c.address) == AllSelect(read, AddressParts(ee), c);
      }
      AndContextAt(read, ee, ms, out, c);
    }
  }

  lemma {:induction false} PureAddressSelects(ee: seq<Expr>, m: Expr)
    requires Combines(ee, And, false, m) && m.domain.None?
    ensures SelectsLike(ee, m.address)
  {
    forall read: DomainReader, c: Connection
      ensures InSet(m.address, c.address) == AllSelect(read, ee, c)
    {
      assert CombinesAt(read, ee, And, false, m, c);
    }
  }

  lemma {:induction false} DomainShapes(ee: seq<Expr>)
    ensures AnyDomain(ShapesOf(ee)) == !NoDomains(ee)
    decreases |ee|
  {
    if ee != [] {
      var front, last := ee[..|ee| - 1], ee[|ee| - 1];
      assert ee == front + [last];
      ShapesSnoc(front, last);
      DomainShapes(front);
    }
  }

  predicate NoAddresses(ee: seq<Expr>) {
    ee != [] ==> NoAddresses(ee[..|ee| - 1]) && ee[|ee| - 1].address.None?
  }

  lemma {:induction false} AddressShapes(ee: seq<Expr>)
    ensures AnyAddress(ShapesOf(ee)) == !NoAddresses(ee)
    decreases |ee|
  {
    if ee != [] {
      var front, last := ee[..|ee| - 1], ee[|ee| - 1];
      assert ee == front + [last];
      ShapesSnoc(front, last);
      AddressShapes(front);
    }
  }

  /** Address set and transport set of one part, together. */
  method Envelope(e: Expr, work: Budget) returns (res: Result<Expr>)
    requires Sound(e) && Partial(e) && e.domain.None?
    modifies work`remaining
    ensures res.Ok? ==> EnvelopeOf(e, res.value)
    ensures res.Err? ==> res.error == Exhausted
  {
    var pair := [AddressPart(e), TransportPart(e)];
    PairShapes(pair[0], pair[1]);
    ContextIsTransport(pair);
    res := CombinePlain(pair, Or, false, work);
    if res.Ok? {
      assert ShapeOf(res.value).context == false;
      PairIsEnvelope(e, res.value);
    }
  }

  /** The address parts of an AND and the envelope of each part. */
  datatype Gathering = Gathering(ordinary: seq<Expr>, envelopes: seq<Expr>, allOrdinary: bool)

  /** What is gathered of the first i parts. */
  ghost predicate IsGathering(ee: seq<Expr>, i: nat, g: Gathering) {
    && i <= |ee| && NoDomains(ee[..i])
    && g.ordinary == AddressParts(ee[..i]) && EnvelopesOf(ee[..i], g.envelopes)
    && g.allOrdinary == AllAddress(ShapesOf(ee[..i]))
  }

  function Gather(g: Gathering, e: Expr, envelope: Expr): Gathering {
    Gathering(g.ordinary + [AddressPart(e)], g.envelopes + [envelope], g.allOrdinary && e.address.Some?)
  }

  lemma {:induction false} GatherStep(ee: seq<Expr>, i: nat, g: Gathering, envelope: Expr)
    requires AllSound(ee) && AllPartial(ee) && i < |ee| && IsGathering(ee, i, g)
    requires ee[i].domain.None? && EnvelopeOf(ee[i], envelope)
    ensures IsGathering(ee, i + 1, Gather(g, ee[i], envelope))
  {
    PrefixFacts(ee, i);
    EnvelopesSnoc(ee[..i], g.envelopes, ee[i], envelope);
  }

  method GatherAnd(ee: seq<Expr>, work: Budget) returns (res: Result<Gathering>)
    requires AllSound(ee) && AllPartial(ee)
    modifies work`remaining
    ensures res.Ok? ==>
              && NoDomains(ee)
              && res.value.ordinary == AddressParts(ee)
              && EnvelopesOf(ee, res.value.envelopes)
              && res.value.allOrdinary == AllAddress(ShapesOf(ee))
    ensures res.Err? ==> res.error != Unbounded
    ensures res.Err? && res.error == Unsupported ==> !NoDomains(ee)
  {
    var g := Gathering([], [], true);
    for i := 0 to |ee|
      invariant IsGathering(ee, i, g)
    {
      PrefixFacts(ee, i);
      if ee[i].domain.Some? {
        SomeDomain(ee, i);
        return Err(Unsupported);
      }
      var merged := Envelope(ee[i], work);
      if merged.Err? {
        return Err(Exhausted);
      }
      GatherStep(ee, i, g, merged.value);
      g := Gather(g, ee[i], merged.value);
    }
    assert ee[..|ee|] == ee;
    return Ok(g);
  }

  /** AND of pure address projections. */
  method IntersectParts(ee: seq<Expr>, work: Budget) returns (res: Result<seq<Range>>)
    requires AllSound(ee) && ee != [] && !HasTransport(ee)
    requires AllPureAddress(ShapesOf(ee)) && !AnyDomain(ShapesOf(ee)) && AnyAddress(ShapesOf(ee))
    modifies work`remaining
    ensures res.Ok? ==> Canonical(res.value) && SelectsLike(ee, Some(res.value))
    ensures res.Err? ==> res.error == Exhausted
  {
    ContextIsTransport(ee);
    var m := CombinePlain(ee, And, false, work);
    if m.Err? {
      return Err(Exhausted);
    }
    PureAddressSelects(ee, m.value);
    return Ok(m.value.address.value);
  }

  method CombineAndContext(ee: seq<Expr>, work: Budget) returns (res: Result<Expr>)
    requires AllSound(ee) && AllPartial(ee) && HasTransport(ee)
    modifies work`remaining
    ensures res.Ok? ==> Sound(res.value) && Combines(ee, And, false, res.value)
    ensures res.Ok? ==> CombinedShape(ShapesOf(ee), And, false) == Some(ShapeOf(res.value))
    ensures res.Err? ==> res.error != Unbounded
    ensures res.Err? && res.error == Unsupported ==> CombinedShape(ShapesOf(ee), And, false).None?
  {
    ContextIsTransport(ee);
    DomainShapes(ee);
    var parts := GatherAnd(ee, work);
    if parts.Err? {
      return Err(parts.error);
    }
    EnvelopeShapes(ee, parts.value.envelopes);
    var envelope := IntersectParts(parts.value.envelopes, work);
    if envelope.Err? {
      return Err(Exhausted);
    }
    var out := Expr(None, None, false, Some(envelope.value));
    if parts.value.allOrdinary {
      OrdinaryShapes(ee);
      var unconditional := IntersectParts(parts.value.ordinary, work);
      if unconditional.Err? {
        return Err(Exhausted);
      }
      out := out.(address := Some(unconditional.value));
    }
    AndContextCombines(ee, parts.value.envelopes, out);
    return Ok(out);
  }

  lemma {:induction false} EnvelopesSnoc(ee: seq<Expr>, ms: seq<Expr>, e: Expr, m: Expr)
    requires EnvelopesOf(ee, ms) && EnvelopeOf(e, m)
    ensures EnvelopesOf(ee + [e], ms + [m])
  {
    assert (ee + [e])[..|ee|] == ee && (ms + [m])[..|ee|] == ms;
  }

  /** A list known up to `i`, seen one element further. */
  lemma {:induction false} PrefixFacts(ee: seq<Expr>, i: nat)
    requires AllSound(ee) && AllPartial(ee) && i < |ee|
    ensures Sound(ee[i]) && Partial(ee[i])
    ensures ee[..i + 1] == ee[..i] + [ee[i]]
    ensures AddressParts(ee[..i + 1]) == AddressParts(ee[..i]) + [AddressPart(ee[i])]
    ensures NoDomains(ee[..i + 1]) == (NoDomains(ee[..i]) && ee[i].domain.None?)
    ensures AllAddress(ShapesOf(ee[..i + 1])) == (AllAddress(ShapesOf(ee[..i])) && ee[i].address.Some?)
    decreases |ee|
  {
    ShapesSnoc(ee[..i], ee[i]);
    assert ee[..i + 1] == ee[..i] + [ee[i]];
    assert ee[..i + 1][..i] == ee[..i];
    if i < |ee| - 1 {
      var front := ee[..|ee| - 1];
      assert front[..i + 1] == ee[..i + 1];
      PrefixFacts(front, i);
    }
  }

  lemma {:induction false} SomeDomain(ee: seq<Expr>, i: nat)
    requires i < |ee| && ee[i].domain.Some?
    ensures !NoDomains(ee)
    decreases |ee|
  {
    if i < |ee| - 1 {
      SomeDomain(ee[..|ee| - 1], i);
    }
  }

  // ---------------------------------------------------------------- an OR with context

  function WithoutTransport(ee: seq<Expr>): seq<Expr> {
    if ee == [] then [] else WithoutTransport(ee[..|ee| - 1]) + [ee[|ee| - 1].(transport := None)]
  }

  function TransportParts(ee: seq<Expr>): seq<Expr> {
    if ee == [] then []
    else if ee[|ee| - 1].transport.Some? then TransportParts(ee[..|ee| - 1]) + [TransportPart(ee[|ee| - 1])]
    else TransportParts(ee[..|ee| - 1])
  }

  lemma {:induction false} OrWithoutTransport(read: DomainReader, ee: seq<Expr>, c: Connection)
    ensures AnySelects(read, WithoutTransport(ee), c) == AnySelects(read, ee, c)
    decreases |ee|
  {
    if ee != [] {
      var os := WithoutTransport(ee[..|ee| - 1]);
      OrWithoutTransport(read, ee[..|ee| - 1], c);
      SelectsSnoc(read, os, ee[|ee| - 1].(transport := None), c);
    }
  }

  lemma {:induction false} OrContext(read: DomainReader, ee: seq<Expr>, c: Connection)
    ensures AnyIntercepts(read, ee, c) ==
            (AnySelects(read, ee, c) || (Proxyable(c) && AnySelects(read, TransportParts(ee), c)))
    decreases |ee|
  {
    if ee != [] {
      var last := ee[|ee| - 1];
      OrContext(read, ee[..|ee| - 1], c);
      if last.transport.Some? {
        SelectsSnoc(read, TransportParts(ee[..|ee| - 1]), TransportPart(last), c);
      }
    }
  }

  lemma {:induction false} WithoutIsSound(e: Expr)
    requires Sound(e)
    ensures Sound(e.(transport := None))
  {
  }

  lemma {:induction false} OrdinaryOrSound(ee: seq<Expr>)
    requires AllSound(ee)
    ensures var os := WithoutTransport(ee); |os| == |ee| && AllSound(os) && !HasTransport(os)
    decreases |ee|
  {
    if ee != [] {
      var front, last := ee[..|ee| - 1], ee[|ee| - 1];
      assert Sound(last);
      OrdinaryOrSound(front);
      WithoutIsSound(last);
      var os := WithoutTransport(front);
      assert WithoutTransport(ee) == os + [last.(transport := None)];
      ListSnoc(os, last.(transport := None));
    }
  }

  lemma {:induction false} OrdinaryOrParts(ee: seq<Expr>)
    ensures NoDomains(WithoutTransport(ee)) == NoDomains(ee)
    ensures NoAddresses(WithoutTransport(ee)) == NoAddresses(ee)
    decreases |ee|
  {
    if ee != [] {
      var os := WithoutTransport(ee[..|ee| - 1]);
      OrdinaryOrParts(ee[..|ee| - 1]);
      assert (os + [ee[|ee| - 1].(transport := None)])[..|os|] == os;
    }
  }

  lemma {:induction false} OrdinaryOrShapes(ee: seq<Expr>)
    ensures AnyDomain(ShapesOf(WithoutTransport(ee))) == AnyDomain(ShapesOf(ee))
    ensures AnyAddress(ShapesOf(WithoutTransport(ee))) == AnyAddress(ShapesOf(ee))
  {
    OrdinaryOrParts(ee);
    DomainShapes(ee);
    DomainShapes(WithoutTransport(ee));
    AddressShapes(ee);
    AddressShapes(WithoutTransport(ee));
  }

  lemma {:induction false} TransportOrShapes(ee: seq<Expr>)
    requires AllSound(ee)
    ensures var ts := TransportParts(ee);
            && AllSound(ts) && !HasTransport(ts) && !AnyDomain(ShapesOf(ts))
            && (ts != []) == HasTransport(ee) && AnyAddress(ShapesOf(ts)) == HasTransport(ee)
    decreases |ee|
  {
    if ee != [] {
      var front, last := ee[..|ee| - 1], ee[|ee| - 1];
      TransportOrShapes(front);
      if last.transport.Some? {
        ListSnoc(TransportParts(front), TransportPart(last));
      }
    }
  }

  lemma {:induction false} OrContextCombines(ee: seq<Expr>, o: Expr, t: Expr, out: Expr)
    requires Combines(WithoutTransport(ee), Or, false, o) && o.transport.None?
    requires Combines(TransportParts(ee), Or, false, t) && t.domain.None?
    requires out == o.(transport := t.address)
    ensures Combines(ee, Or, false, out)
  {
    forall read: DomainReader, c: Connection
      ensures CombinesAt(read, ee, Or, false, out, c)
    {
      OrContext(read, ee, c);
      OrWithoutTransport(read, ee, c);
      assert CombinesAt(read, WithoutTransport(ee), Or, false, o, c);
      assert CombinesAt(read, TransportParts(ee), Or, false, t, c);
    }
  }

  lemma {:induction false} SplitStep(ee: seq<Expr>, i: nat)
    requires i < |ee|
    ensures WithoutTransport(ee[..i + 1]) == WithoutTransport(ee[..i]) + [ee[i].(transport := None)]
    ensures TransportParts(ee[..i + 1]) ==
            TransportParts(ee[..i]) + if ee[i].transport.Some? then [TransportPart(ee[i])] else []
  {
    assert ee[..i + 1][..i] == ee[..i];
  }

  /** The parts of an OR without their transport sets, and the transport sets. */
  method SplitTransports(ee: seq<Expr>) returns (ordinary: seq<Expr>, transports: seq<Expr>)
    ensures ordinary == WithoutTransport(ee) && transports == TransportParts(ee)
  {
    ordinary, transports := [], [];
    for i := 0 to |ee|
      invariant ordinary == WithoutTransport(ee[..i])
      invariant transports == TransportParts(ee[..i])
    {
      SplitStep(ee, i);
      ordinary := ordinary + [ee[i].(transport := None)];
      if ee[i].transport.Some? {
        transports := transports + [TransportPart(ee[i])];
      }
    }
    assert ee[..|ee|] == ee;
  }

  method CombineOrContext(ee: seq<Expr>, work: Budget) returns (res: Result<Expr>)
    requires AllSound(ee) && HasTransport(ee)
    modifies work`remaining
    ensures res.Ok? ==> Sound(res.value) && Combines(ee, Or, false, res.value)
    ensures res.Ok? ==> CombinedShape(ShapesOf(ee), Or, false) == Some(ShapeOf(res.value))
    ensures res.Err? ==> res.error == Exhausted
  {
    var ordinary, transports := SplitTransports(ee);
    OrdinaryOrSound(ee);
    OrdinaryOrShapes(ee);
    TransportOrShapes(ee);
    ContextIsTransport(ee);
    ContextIsTransport(ordinary);
    ContextIsTransport(transports);
    var o := CombinePlain(ordinary, Or, false, work);
    if o.Err? {
      return Err(Exhausted);
    }
    var t := CombinePlain(transports, Or, false, work);
    if t.Err? {
      return Err(Exhausted);
    }
    var out := o.value.(transport := t.value.address);
    OrContextCombines(ee, o.value, t.value, out);
    return Ok(out);
  }

  // ---------------------------------------------------------------- combination

  lemma {:induction false} PartialShapes(ee: seq<Expr>)
    requires AllPartial(ee) && !HasTransport(ee) && ee != []
    ensures AnyDomain(ShapesOf(ee)) || AnyAddress(ShapesOf(ee))
  {
    var front, last := ee[..|ee| - 1], ee[|ee| - 1];
    assert ee == front + [last];
    ShapesSnoc(front, last);
  }

  /** AND or OR of several projections, inverted on request. Context may not be inverted and may not
      be ANDed with a domain; it is widened to a TCP and UDP envelope, address coverage stays exact. */
  method CombineNative(ee: seq<Expr>, mode: Mode, invert: bool, work: Budget) returns (res: Result<Expr>)
    requires AllSound(ee) && AllPartial(ee) && ee != [] && mode != BadMode
    modifies work`remaining
    ensures res.Ok? ==> Sound(res.value) && Combines(ee, mode, invert, res.value)
    ensures res.Ok? ==> CombinedShape(ShapesOf(ee), mode, invert) == Some(ShapeOf(res.value))
    ensures res.Err? ==> res.error != Unbounded
    ensures res.Err? && res.error == Unsupported ==> CombinedShape(ShapesOf(ee), mode, invert).None?
  {
    ContextIsTransport(ee);
    if HasTransport(ee) {
      if invert {
        return Err(Unsupported);
      }
      if mode == And {
        res := CombineAndContext(ee, work);
      } else {
        res := CombineOrContext(ee, work);
      }
    } else {
      PartialShapes(ee);
      res := CombinePlain(ee, mode, invert, work);
    }
  }
}
