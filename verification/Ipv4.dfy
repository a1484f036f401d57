/** IPv4 addresses as 32-bit numbers, and sets of them as sorted lists of ranges.
    The set operations stand for the interval-set library the daemon uses. */
module Ipv4 {
  import opened Basics

  const MAX_ADDRESS := 0xFFFF_FFFF

  type Address = a: int | 0 <= a <= MAX_ADDRESS

  datatype Range = Range(from: Address, to: Address)

  const EVERYTHING := Range(0, MAX_ADDRESS)

  predicate Within(a: Address, r: Range) {
    r.from <= a <= r.to
  }

  ghost predicate Covers(rs: seq<Range>, a: Address) {
    rs != [] && (Within(a, rs[0]) || Covers(rs[1..], a))
  }

  /** Sorted, non-empty and pairwise disjoint; neighbours may touch. */
  ghost predicate Disjoint(rs: seq<Range>) {
    rs != [] ==>
      && rs[0].from <= rs[0].to
      && (|rs| > 1 ==> rs[0].to < rs[1].from)
      && Disjoint(rs[1..])
  }

  /** The form a built set has: sorted ranges with at least one address between neighbours. */
  ghost predicate Canonical(rs: seq<Range>) {
    rs != [] ==>
      && rs[0].from <= rs[0].to
      && (|rs| > 1 ==> rs[0].to + 1 < rs[1].from)
      && Canonical(rs[1..])
  }

  lemma {:induction false} CanonicalIsDisjoint(rs: seq<Range>)
    requires Canonical(rs)
    ensures Disjoint(rs)
    decreases |rs|
  {
    if rs != [] {
      CanonicalIsDisjoint(rs[1..]);
    }
  }

  lemma {:induction false} DisjointPair(rs: seq<Range>, i: nat, j: nat)
    requires Disjoint(rs) && i <= j < |rs|
    ensures rs[i].from <= rs[i].to && (i < j ==> rs[i].to < rs[j].from)
    decreases |rs|
  {
    if i > 0 {
      DisjointPair(rs[1..], i - 1, j - 1);
    } else if j > 0 {
      DisjointPair(rs[1..], 0, j - 1);
    }
  }

  lemma {:induction false} DisjointPairs(rs: seq<Range>)
    requires Disjoint(rs)
    ensures forall i, j :: 0 <= i <= j < |rs| ==> rs[i].from <= rs[i].to && (i < j ==> rs[i].to < rs[j].from)
  {
    forall i, j | 0 <= i <= j < |rs|
      ensures rs[i].from <= rs[i].to && (i < j ==> rs[i].to < rs[j].from)
    {
      DisjointPair(rs, i, j);
    }
  }

  function Min(x: int, y: int): int { if x < y then x else y }

  function Max(x: int, y: int): int { if x < y then y else x }

  lemma {:induction false} CoversCons(r: Range, rs: seq<Range>, a: Address)
    ensures Covers([r] + rs, a) <==> Within(a, r) || Covers(rs, a)
  {
    assert ([r] + rs)[1..] == rs;
  }

  lemma {:induction false} CoversOne(r: Range, a: Address)
    ensures Covers([r], a) <==> Within(a, r)
  {
    assert [r][1..] == [];
  }

  lemma {:induction false} CoversConcat(xs: seq<Range>, ys: seq<Range>, a: Address)
    ensures Covers(xs + ys, a) <==> Covers(xs, a) || Covers(ys, a)
    decreases |xs|
  {
    if xs == [] {
      assert xs + ys == ys;
    } else {
      assert xs + ys == [xs[0]] + (xs[1..] + ys);
      CoversCons(xs[0], xs[1..] + ys, a);
      CoversConcat(xs[1..], ys, a);
    }
  }

  lemma {:induction false} CoveringRange(rs: seq<Range>, a: Address) returns (i: nat)
    requires Covers(rs, a)
    ensures i < |rs| && Within(a, rs[i])
    decreases |rs|
  {
    if Within(a, rs[0]) {
      i := 0;
    } else {
      var k := CoveringRange(rs[1..], a);
      i := k + 1;
    }
  }

  lemma {:induction false} RangeIsCovered(rs: seq<Range>, i: nat, a: Address)
    requires i < |rs| && Within(a, rs[i])
    ensures Covers(rs, a)
    decreases |rs|
  {
    if i > 0 {
      RangeIsCovered(rs[1..], i - 1, a);
    }
  }

  // ---------------------------------------------------------------- union

  /** Adds one range to a built set, joining every range it overlaps or touches. */
  function Insert(rs: seq<Range>, r: Range): (out: seq<Range>)
    requires Canonical(rs) && r.from <= r.to
    ensures Canonical(out)
    ensures |out| > 0
    ensures out[0].from >= (if |rs| > 0 then Min(rs[0].from, r.from) else r.from)
    decreases |rs|
  {
    if rs == [] then [r]
    else if r.to + 1 < rs[0].from then [r] + rs
    else if rs[0].to + 1 < r.from then [rs[0]] + Insert(rs[1..], r)
    else Insert(rs[1..], Range(Min(rs[0].from, r.from), Max(rs[0].to, r.to)))
  }

  lemma {:induction false} InsertMembers(rs: seq<Range>, r: Range, a: Address)
    requires Canonical(rs) && r.from <= r.to
    ensures Covers(Insert(rs, r), a) <==> Covers(rs, a) || Within(a, r)
    decreases |rs|
  {
    if rs == [] {
      CoversOne(r, a);
    } else if r.to + 1 < rs[0].from {
      CoversCons(r, rs, a);
    } else if rs[0].to + 1 < r.from {
      InsertMembers(rs[1..], r, a);
      CoversCons(rs[0], Insert(rs[1..], r), a);
    } else {
      InsertMembers(rs[1..], Range(Min(rs[0].from, r.from), Max(rs[0].to, r.to)), a);
    }
  }

  ghost predicate AllValid(rs: seq<Range>) {
    forall i :: 0 <= i < |rs| ==> rs[i].from <= rs[i].to
  }

  /** The set built from a list of ranges in any order. */
  function Merge(rs: seq<Range>): (out: seq<Range>)
    requires AllValid(rs)
    ensures Canonical(out)
  {
    if rs == [] then [] else Insert(Merge(rs[1..]), rs[0])
  }

  lemma {:induction false} MergeMember(rs: seq<Range>, a: Address)
    requires AllValid(rs)
    ensures Covers(Merge(rs), a) <==> Covers(rs, a)
    decreases |rs|
  {
    if rs != [] {
      MergeMember(rs[1..], a);
      InsertMembers(Merge(rs[1..]), rs[0], a);
    }
  }

  /** A built set holds exactly the addresses of the ranges it was built from. */
  lemma {:induction false} MergeMembers(rs: seq<Range>)
    requires AllValid(rs)
    ensures forall a: Address :: Covers(Merge(rs), a) <==> Covers(rs, a)
  {
    forall a: Address {
      MergeMember(rs, a);
    }
  }

  // ---------------------------------------------------------------- complement

  /** Everything from `low` up that the set does not hold. */
  function GapsFrom(rs: seq<Range>, low: int): (out: seq<Range>)
    requires Canonical(rs) && 0 <= low <= MAX_ADDRESS + 1
    requires |rs| > 0 ==> low <= rs[0].from
    ensures Canonical(out)
    ensures |out| > 0 ==> low <= out[0].from
    decreases |rs|
  {
    if rs == [] then
      if low > MAX_ADDRESS then [] else [Range(low, MAX_ADDRESS)]
    else
      var rest := GapsFrom(rs[1..], rs[0].to + 1);
      if low == rs[0].from then rest else [Range(low, rs[0].from - 1)] + rest
  }

  /** Nothing up to the address after the first range is in the rest of the set. */
  lemma {:induction false} BelowTail(rs: seq<Range>, a: int)
    requires Canonical(rs) && rs != []
    ensures 0 <= a <= rs[0].to + 1 && a <= MAX_ADDRESS ==> !Covers(rs[1..], a)
    decreases |rs|
  {
    if |rs| > 1 && 0 <= a <= rs[0].to + 1 && a <= MAX_ADDRESS {
      BelowTail(rs[1..], a);
    }
  }

  lemma {:induction false} GapsMembers(rs: seq<Range>, low: int, a: Address)
    requires Canonical(rs) && 0 <= low <= MAX_ADDRESS + 1
    requires |rs| > 0 ==> low <= rs[0].from
    ensures Covers(GapsFrom(rs, low), a) <==> low <= a && !Covers(rs, a)
    decreases |rs|
  {
    if rs == [] {
      if low <= MAX_ADDRESS {
        CoversOne(Range(low, MAX_ADDRESS), a);
      }
    } else {
      var rest := GapsFrom(rs[1..], rs[0].to + 1);
      BelowTail(rs, a);
      GapsMembers(rs[1..], rs[0].to + 1, a);
      if low < rs[0].from {
        CoversCons(Range(low, rs[0].from - 1), rest, a);
      }
    }
  }

  function Complement(rs: seq<Range>): (out: seq<Range>)
    requires Canonical(rs)
    ensures Canonical(out)
  {
    GapsFrom(rs, 0)
  }

  lemma {:induction false} ComplementMembers(rs: seq<Range>)
    requires Canonical(rs)
    ensures forall a: Address :: Covers(Complement(rs), a) <==> !Covers(rs, a)
  {
    forall a: Address {
      GapsMembers(rs, 0, a);
    }
  }

  // ---------------------------------------------------------------- canonical lists are unique

  /** How a built set starts. */
  lemma {:induction false} FirstRange(rs: seq<Range>)
    requires Canonical(rs)
    ensures rs != [] ==> Covers(rs, rs[0].from) && Covers(rs, rs[0].to)
    ensures rs != [] ==> forall a: Address :: a < rs[0].from || a == rs[0].to + 1 ==> !Covers(rs, a)
  {
    if rs != [] {
      forall a: Address | a < rs[0].from || a == rs[0].to + 1
        ensures !Covers(rs, a)
      {
        BelowTail(rs, a);
      }
    }
  }

  lemma {:induction false} SameFirst(xs: seq<Range>, ys: seq<Range>)
    requires Canonical(xs) && Canonical(ys)
    requires forall a: Address :: Covers(xs, a) <==> Covers(ys, a)
    ensures (xs == []) == (ys == [])
    ensures xs != [] ==> xs[0] == ys[0]
  {
    FirstRange(xs);
    FirstRange(ys);
    if xs != [] && ys != [] {
      assert xs[0].from == ys[0].from;
      EndsNoLater(xs, ys);
      EndsNoLater(ys, xs);
    }
  }

  lemma {:induction false} EndsNoLater(xs: seq<Range>, ys: seq<Range>)
    requires Canonical(xs) && Canonical(ys) && xs != [] && ys != [] && xs[0].from == ys[0].from
    requires forall a: Address :: Covers(xs, a) <==> Covers(ys, a)
    ensures xs[0].to <= ys[0].to
  {
    FirstRange(ys);
    if ys[0].to < xs[0].to {
      var next: Address := ys[0].to + 1;
      assert Covers(xs, next) == Covers(ys, next);
    }
  }

  /** A built set is determined by its members: two of them with the same members are the same list. */
  lemma {:induction false} CanonicalUnique(xs: seq<Range>, ys: seq<Range>)
    requires Canonical(xs) && Canonical(ys)
    requires forall a: Address :: Covers(xs, a) <==> Covers(ys, a)
    ensures xs == ys
    decreases |xs|
  {
    SameFirst(xs, ys);
    if xs != [] && ys != [] {
      forall a: Address
        ensures Covers(xs[1..], a) <==> Covers(ys[1..], a)
      {
        BelowTail(xs, a);
        BelowTail(ys, a);
        assert Covers(xs, a) == Covers(ys, a);
      }
      CanonicalUnique(xs[1..], ys[1..]);
      assert xs == [xs[0]] + xs[1..] && ys == [ys[0]] + ys[1..];
    }
  }

  ghost predicate CoversAll(rs: seq<Range>) {
    forall a: Address :: Covers(rs, a)
  }

  lemma {:induction false} FullSet(rs: seq<Range>)
    requires Canonical(rs)
    ensures rs == [EVERYTHING] <==> CoversAll(rs)
  {
    var all := [EVERYTHING];
    assert all[1..] == [];
    forall a: Address
      ensures Covers(all, a)
    {
      CoversOne(EVERYTHING, a);
    }
    if CoversAll(rs) {
      CanonicalUnique(rs, all);
    }
  }

  /** Whole-range containment test of the set library. */
  predicate CoversRange(rs: seq<Range>, r: Range) {
    exists i :: 0 <= i < |rs| && rs[i].from <= r.from && r.to <= rs[i].to
  }

  lemma {:induction false} CoversRangeMeaning(rs: seq<Range>, r: Range)
    requires Canonical(rs) && r.from <= r.to
    ensures CoversRange(rs, r) <==> forall a: Address :: Within(a, r) ==> Covers(rs, a)
  {
    if i :| 0 <= i < |rs| && rs[i].from <= r.from && r.to <= rs[i].to {
      forall a: Address | Within(a, r)
        ensures Covers(rs, a)
      {
        RangeIsCovered(rs, i, a);
      }
    }
    if Covers(rs, r.from) {
      var i := CoveringRange(rs, r.from);
      RangeEnds(rs, i);
      assert rs[i].to < r.to ==> Within(rs[i].to + 1, r);
    } else {
      assert Within(r.from, r);
    }
  }

  lemma {:induction false} RangeEnds(rs: seq<Range>, i: nat)
    requires Canonical(rs) && i < |rs|
    ensures rs[i].to < MAX_ADDRESS ==> !Covers(rs, rs[i].to + 1)
    decreases |rs|
  {
    FirstRange(rs);
    if i > 0 {
      RangeEnds(rs[1..], i - 1);
      assert rs[1..][i - 1] == rs[i];
      CanonicalIsDisjoint(rs);
      DisjointPair(rs, 0, i);
      DisjointPair(rs, i, i);
    }
  }

  // ---------------------------------------------------------------- prefixes

  datatype Prefix = Prefix(base: Address, bits: nat)

  lemma {:induction false} Pow2Of32()
    ensures Pow2(32) == MAX_ADDRESS + 1
  {
    assert Pow2(8) == 256;
    assert Pow2(16) == 256 * Pow2(8);
    assert Pow2(24) == 256 * Pow2(16);
    assert Pow2(32) == 256 * Pow2(24);
  }

  predicate InBlock(a: Address, base: int, size: nat) {
    base <= a < base + size
  }

  /** A block of addresses in prefix notation, by base, size and prefix length. */
  predicate IsBlock(base: int, size: nat, bits: nat) {
    bits <= 32 && size == Pow2(32 - bits) && 0 <= base && base + size <= MAX_ADDRESS + 1
  }

  lemma {:induction false} HalfBlock(base: int, size: nat, bits: nat)
    requires IsBlock(base, size, bits) && size > 1
    ensures size == 2 * (size / 2)
    ensures IsBlock(base, size / 2, bits + 1) && IsBlock(base + size / 2, size / 2, bits + 1)
  {
  }

  /** The maximal aligned blocks inside a range, found by halving the block at `base`. */
  function BlocksWithin(r: Range, base: int, size: nat, bits: nat): (out: seq<Prefix>)
    requires IsBlock(base, size, bits)
    decreases size
  {
    if r.to < base || base + size <= r.from then []
    else if r.from <= base && base + size - 1 <= r.to then [Prefix(base, bits)]
    else if size == 1 then []
    else
      HalfBlock(base, size, bits);
      BlocksWithin(r, base, size / 2, bits + 1) + BlocksWithin(r, base + size / 2, size / 2, bits + 1)
  }

  /** Prefix notation of a built set. */
  function Prefixes(rs: seq<Range>): seq<Prefix> {
    Pow2Of32();
    if rs == [] then [] else BlocksWithin(rs[0], 0, MAX_ADDRESS + 1, 0) + Prefixes(rs[1..])
  }

  ghost predicate InPrefix(p: Prefix, a: Address) {
    p.bits <= 32 && InBlock(a, p.base, Pow2(32 - p.bits))
  }

  ghost predicate InPrefixes(ps: seq<Prefix>, a: Address) {
    exists p :: p in ps && InPrefix(p, a)
  }

  lemma {:induction false} InPrefixesConcat(xs: seq<Prefix>, ys: seq<Prefix>, a: Address)
    ensures InPrefixes(xs + ys, a) <==> InPrefixes(xs, a) || InPrefixes(ys, a)
  {
    forall p
      ensures p in xs + ys <==> p in xs || p in ys
    {
    }
  }

  lemma {:induction false} InOnePrefix(p: Prefix, a: Address)
    ensures InPrefixes([p], a) <==> InPrefix(p, a)
  {
    assert p in [p];
  }

  /** Blocks of the lower and of the upper half make up the blocks of the whole. */
  lemma {:induction false} HalvesExact(r: Range, base: int, half: nat, low: seq<Prefix>, high: seq<Prefix>, a: Address)
    requires InPrefixes(low, a) <==> Within(a, r) && InBlock(a, base, half)
    requires InPrefixes(high, a) <==> Within(a, r) && InBlock(a, base + half, half)
    ensures InPrefixes(low + high, a) <==> Within(a, r) && InBlock(a, base, 2 * half)
  {
    InPrefixesConcat(low, high, a);
  }

  /** A block outside a range or inside it. */
  lemma {:induction false} WholeBlock(r: Range, base: int, size: nat, a: Address)
    ensures r.to < base || base + size <= r.from ==> !(Within(a, r) && InBlock(a, base, size))
    ensures r.from <= base && base + size - 1 <= r.to && InBlock(a, base, size) ==> Within(a, r)
  {
  }

  lemma {:induction false} BlocksExact(r: Range, base: int, size: nat, bits: nat, a: Address)
    requires IsBlock(base, size, bits)
    ensures InPrefixes(BlocksWithin(r, base, size, bits), a) <==> Within(a, r) && InBlock(a, base, size)
    decreases size
  {
    WholeBlock(r, base, size, a);
    if r.to < base || base + size <= r.from {
    } else if r.from <= base && base + size - 1 <= r.to {
      InOnePrefix(Prefix(base, bits), a);
    } else if size > 1 {
      var half := size / 2;
      HalfBlock(base, size, bits);
      BlocksExact(r, base, half, bits + 1, a);
      BlocksExact(r, base + half, half, bits + 1, a);
      HalvesExact(r, base, half, BlocksWithin(r, base, half, bits + 1), BlocksWithin(r, base + half, half, bits + 1), a);
    }
  }

  /** The prefixes of a set hold exactly the addresses of the set. */
  lemma {:induction false} PrefixesExact(rs: seq<Range>, a: Address)
    ensures InPrefixes(Prefixes(rs), a) <==> Covers(rs, a)
  {
    Pow2Of32();
    if rs != [] {
      PrefixesExact(rs[1..], a);
      BlocksExact(rs[0], 0, MAX_ADDRESS + 1, 0, a);
      InPrefixesConcat(BlocksWithin(rs[0], 0, MAX_ADDRESS + 1, 0), Prefixes(rs[1..]), a);
    }
  }

  /** The single prefix of length zero appears exactly for the set of all addresses. */
  lemma {:induction false} FullPrefix(rs: seq<Range>)
    requires Canonical(rs)
    ensures Prefixes(rs) == [Prefix(0, 0)] <==> rs == [EVERYTHING]
  {
    Pow2Of32();
    if rs == [EVERYTHING] {
      assert rs[1..] == [];
      assert BlocksWithin(EVERYTHING, 0, MAX_ADDRESS + 1, 0) == [Prefix(0, 0)];
      assert Prefixes(rs) == [Prefix(0, 0)] + [];
    }
    if Prefixes(rs) == [Prefix(0, 0)] {
      forall a: Address
        ensures Covers(rs, a)
      {
        InOnePrefix(Prefix(0, 0), a);
        PrefixesExact(rs, a);
      }
      FullSet(rs);
    }
  }

  // ---------------------------------------------------------------- alignment

  lemma {:induction false} FloorBlock(n: nat, size: nat)
    requires size > 0
    ensures 0 <= n / size * size <= n < n / size * size + size
  {
    assert n == size * (n / size) + n % size;
    assert size * (n / size) == n / size * size;
  }

  lemma {:induction false} MulMonotone(x: nat, y: nat, size: nat)
    requires x <= y
    ensures x * size <= y * size
  {
    assert (y - x) * size >= 0;
    assert y * size == x * size + (y - x) * size;
  }

  lemma {:induction false} MulStep(x: nat, y: nat, size: nat)
    requires x < y
    ensures x * size + size <= y * size
  {
    MulMonotone(x + 1, y, size);
    assert (x + 1) * size == x * size + size;
  }

  /** The block an address lies in is found by division. */
  lemma {:induction false} SameBlock(a: nat, k: nat, size: nat)
    requires size > 0 && k * size <= a < k * size + size
    ensures a / size == k
  {
    FloorBlock(a, size);
    var q := a / size;
    if q < k {
      MulStep(q, k, size);
    } else if k < q {
      MulStep(k, q, size);
    }
  }

  predicate Aligned(base: nat, size: nat)
    requires size > 0
  {
    base == base / size * size
  }

  lemma {:induction false} Multiple(k: nat, size: nat)
    requires size > 0
    ensures Aligned(k * size, size)
  {
    SameBlock(k * size, k, size);
  }

  /** Halving an aligned block leaves both halves aligned. */
  lemma {:induction false} HalvesAligned(base: nat, half: nat)
    requires half > 0 && Aligned(base, 2 * half)
    ensures Aligned(base, half) && Aligned(base + half, half)
  {
    var k := base / (2 * half);
    assert k * (2 * half) == (2 * k) * half;
    assert (2 * k + 1) * half == (2 * k) * half + half;
    Multiple(2 * k, half);
    Multiple(2 * k + 1, half);
  }

  predicate IsAligned(p: Prefix) {
    p.bits <= 32 && Aligned(p.base, Pow2(32 - p.bits))
  }

  predicate AllAligned(ps: seq<Prefix>) {
    forall p :: p in ps ==> IsAligned(p)
  }

  lemma {:induction false} AllAlignedConcat(xs: seq<Prefix>, ys: seq<Prefix>)
    requires AllAligned(xs) && AllAligned(ys)
    ensures AllAligned(xs + ys)
  {
  }

  lemma {:induction false} OneAligned(p: Prefix)
    requires IsAligned(p)
    ensures AllAligned([p])
  {
  }

  lemma {:induction false} AlignedHalves(base: int, size: nat, bits: nat)
    requires IsBlock(base, size, bits) && Aligned(base, size) && size > 1
    ensures Aligned(base, size / 2) && Aligned(base + size / 2, size / 2)
  {
    HalfBlock(base, size, bits);
    HalvesAligned(base, size / 2);
  }

  lemma {:induction false} BlocksAligned(r: Range, base: int, size: nat, bits: nat)
    requires IsBlock(base, size, bits) && Aligned(base, size)
    ensures AllAligned(BlocksWithin(r, base, size, bits))
    decreases size
  {
    if r.to < base || base + size <= r.from {
    } else if r.from <= base && base + size - 1 <= r.to {
      OneAligned(Prefix(base, bits));
    } else if size > 1 {
      var half := size / 2;
      HalfBlock(base, size, bits);
      AlignedHalves(base, size, bits);
      BlocksAligned(r, base, half, bits + 1);
      BlocksAligned(r, base + half, half, bits + 1);
      AllAlignedConcat(BlocksWithin(r, base, half, bits + 1), BlocksWithin(r, base + half, half, bits + 1));
    }
  }

  /** The notation of a set uses masked prefixes only. */
  lemma {:induction false} PrefixesAligned(rs: seq<Range>)
    ensures AllAligned(Prefixes(rs))
  {
    Pow2Of32();
    if rs != [] {
      PrefixesAligned(rs[1..]);
      Multiple(0, MAX_ADDRESS + 1);
      BlocksAligned(rs[0], 0, MAX_ADDRESS + 1, 0);
      AllAlignedConcat(BlocksWithin(rs[0], 0, MAX_ADDRESS + 1, 0), Prefixes(rs[1..]));
    }
  }
}
