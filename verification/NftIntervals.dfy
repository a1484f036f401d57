/** Writing intervals into a kernel set and reading them back from a dump whose order
    means nothing (internal/netstack/nft.go, internal/netstack/diag_nft_linux.go). */
module NftIntervals {
  import opened Ipv4
  import opened Options
  import opened Subnets

  /** A set element. A key that is not a four-byte address is `None`. */
  datatype Element = Element(key: Option<Address>, keyEnd: Option<Address>, intervalEnd: bool)

  // ---------------------------------------------------------------- writer

  function RangeElements(r: Range): seq<Element> {
    [Element(Some(r.from), None, false)] +
    if r.to == MAX_ADDRESS then [] else [Element(Some(r.to + 1), None, true)]
  }

  function ElementsOf(ranges: seq<Range>): seq<Element> {
    if ranges == [] then []
    else ElementsOf(ranges[..|ranges| - 1]) + RangeElements(ranges[|ranges| - 1])
  }

  /** Two elements a range: its start, and an end marker on the next address. A range that
      reaches the last address has no next address and stays open. */
  method SetElements(ranges: seq<Range>) returns (out: seq<Element>)
    ensures out == ElementsOf(ranges)
  {
    out := [];
    for i := 0 to |ranges|
      invariant out == ElementsOf(ranges[..i])
    {
      assert ranges[..i + 1][..i] == ranges[..i];
      out := out + [Element(Some(ranges[i].from), None, false)];
      if ranges[i].to == MAX_ADDRESS {
        continue;
      }
      out := out + [Element(Some(ranges[i].to + 1), None, true)];
    }
    assert ranges[..|ranges|] == ranges;
  }

  // ---------------------------------------------------------------- reader

  datatype Bound = Bound(addr: Address, end: bool)

  /** Address order; at one address an end comes before a start. */
  predicate Before(x: Bound, y: Bound) {
    x.addr < y.addr || (x.addr == y.addr && (x.end || !y.end))
  }

  predicate SortedBounds(bs: seq<Bound>) {
    |bs| >= 2 ==> Before(bs[0], bs[1]) && SortedBounds(bs[1..])
  }

  function InsertBound(b: Bound, bs: seq<Bound>): (out: seq<Bound>)
    requires SortedBounds(bs)
    ensures SortedBounds(out) && |out| == |bs| + 1
    ensures forall x :: x in out <==> x == b || x in bs
    ensures out[0] == b || (|bs| > 0 && out[0] == bs[0])
  {
    if bs == [] then [b]
    else if Before(b, bs[0]) then [b] + bs
    else
      var rest := InsertBound(b, bs[1..]);
      assert ([bs[0]] + rest)[1..] == rest;
      [bs[0]] + rest
  }

  /** The library sort by `Before`; equal bounds are identical, so the result is determined. */
  function SortBounds(bs: seq<Bound>): (out: seq<Bound>)
    ensures SortedBounds(out) && |out| == |bs|
    ensures forall x :: x in out <==> x in bs
  {
    if bs == [] then [] else InsertBound(bs[0], SortBounds(bs[1..]))
  }

  function InsertRange(r: Range, rs: seq<Range>): seq<Range> {
    if rs == [] || r.from < rs[0].from then [r] + rs
    else [rs[0]] + InsertRange(r, rs[1..])
  }

  function SortRanges(rs: seq<Range>): seq<Range> {
    if rs == [] then [] else InsertRange(rs[0], SortRanges(rs[1..]))
  }

  /** A range from possibly crossed or out-of-space bounds; nothing when it is not valid. */
  function ValidRange(from: Address, to: int): seq<Range> {
    if from <= to <= MAX_ADDRESS then [Range(from, to)] else []
  }

  /** Intervals given as one element with both bounds. */
  function WholeRanges(elements: seq<Element>): seq<Range> {
    if elements == [] then []
    else
      var e := elements[|elements| - 1];
      WholeRanges(elements[..|elements| - 1]) +
      if e.key.Some? && e.keyEnd.Some? then ValidRange(e.key.value, e.keyEnd.value) else []
  }

  /** Bounds given as separate elements. */
  function BoundsOf(elements: seq<Element>): seq<Bound> {
    if elements == [] then []
    else
      var e := elements[|elements| - 1];
      BoundsOf(elements[..|elements| - 1]) +
      if e.key.Some? && e.keyEnd.None? then [Bound(e.key.value, e.intervalEnd)] else []
  }

  /** Pairing of sorted bounds into intervals. */
  function Pair(bs: seq<Bound>, open: Option<Address>): seq<Range> {
    if bs == [] then
      if open.Some? then ValidRange(open.value, MAX_ADDRESS) else []
    else
      (if open.Some? then ValidRange(open.value, bs[0].addr - 1) else []) +
      Pair(bs[1..], if bs[0].end then None else Some(bs[0].addr))
  }

  lemma {:induction false} PairStep(done: seq<Range>, bs: seq<Bound>, i: nat, open: Option<Address>)
    requires i < |bs|
    ensures var next := if bs[i].end then None else Some(bs[i].addr);
            done + Pair(bs[i..], open) ==
            if open.Some? then (done + ValidRange(open.value, bs[i].addr - 1)) + Pair(bs[i + 1..], next)
            else done + Pair(bs[i + 1..], next)
  {
    assert bs[i..][1..] == bs[i + 1..];
  }

  /** What a dump means, as a function of its elements. */
  function ReadBack(elements: seq<Element>): seq<Range> {
    SortRanges(WholeRanges(elements) + Pair(SortBounds(BoundsOf(elements)), None))
  }

  /** Whole ranges of a dump, and the bounds given separately. */
  method CollectBounds(elements: seq<Element>) returns (out: seq<Range>, bounds: seq<Bound>)
    ensures out == WholeRanges(elements) && bounds == BoundsOf(elements)
  {
    out, bounds := [], [];
    for i := 0 to |elements|
      invariant out == WholeRanges(elements[..i])
      invariant bounds == BoundsOf(elements[..i])
    {
      var e := elements[i];
      assert elements[..i + 1][..i] == elements[..i];
      if e.key.None? {
        continue;
      }
      if e.keyEnd.Some? {
        out := out + ValidRange(e.key.value, e.keyEnd.value);
        continue;
      }
      bounds := bounds + [Bound(e.key.value, e.intervalEnd)];
    }
    assert elements[..|elements|] == elements;
  }

  function OpenAt(open: bool, start: Address): Option<Address> {
    if open then Some(start) else None
  }

  /** Appends the intervals that sorted bounds pair up to. */
  method PairBounds(whole: seq<Range>, bounds: seq<Bound>) returns (out: seq<Range>)
    ensures out == whole + Pair(bounds, None)
  {
    out := whole;
    var start: Address := 0;
    var open := false;
    for i := 0 to |bounds|
      invariant whole + Pair(bounds, None) == out + Pair(bounds[i..], OpenAt(open, start))
    {
      var b := bounds[i];
      PairStep(out, bounds, i, OpenAt(open, start));
      if b.end {
        if open {
          out := out + ValidRange(start, b.addr - 1);
          open := false;
        }
        // A marker with nothing to close is not an interval of ours.
        continue;
      }
      if open {
        out := out + ValidRange(start, b.addr - 1);
      }
      start, open := b.addr, true;
    }
    assert bounds[|bounds|..] == [];
    if open {
      out := out + ValidRange(start, MAX_ADDRESS);
    }
  }

  method DiagRanges(elements: seq<Element>) returns (out: seq<Range>)
    ensures out == ReadBack(elements)
  {
    var bounds;
    out, bounds := CollectBounds(elements);
    bounds := SortBounds(bounds);
    out := PairBounds(out, bounds);
    out := SortRanges(out);
  }

  // ---------------------------------------------------------------- the reader undoes the writer

  function StartOf(r: Range): Bound { Bound(r.from, false) }

  /** A bound that may stand among those of `ranges`: a start of one of them, or an end marker
      that is neither strictly inside a range nor on its last address. */
  ghost predicate Fits(b: Bound, ranges: seq<Range>) {
    if b.end then forall i :: 0 <= i < |ranges| ==> !(ranges[i].from < b.addr <= ranges[i].to)
    else exists i :: 0 <= i < |ranges| && b == StartOf(ranges[i])
  }

  ghost predicate HasBounds(bs: seq<Bound>, r: Range) {
    StartOf(r) in bs && (r.to < MAX_ADDRESS ==> Bound(r.to + 1, true) in bs)
  }

  ghost predicate AllFit(bs: seq<Bound>, ranges: seq<Range>) {
    forall b :: b in bs ==> Fits(b, ranges)
  }

  ghost predicate AllPresent(bs: seq<Bound>, ranges: seq<Range>) {
    forall i :: 0 <= i < |ranges| ==> HasBounds(bs, ranges[i])
  }

  lemma {:induction false} HeadIsLeast(bs: seq<Bound>, b: Bound)
    requires SortedBounds(bs) && b in bs
    ensures Before(bs[0], b)
    decreases |bs|
  {
    if |bs| > 1 && b != bs[0] {
      HeadIsLeast(bs[1..], b);
    }
  }

  lemma {:induction false} SortedTail(bs: seq<Bound>)
    requires SortedBounds(bs) && bs != []
    ensures SortedBounds(bs[1..]) && forall b :: b in bs <==> b == bs[0] || b in bs[1..]
    ensures forall b :: b in bs ==> Before(bs[0], b)
  {
    forall b | b in bs
      ensures Before(bs[0], b)
    {
      HeadIsLeast(bs, b);
    }
  }

  /** Bounds from the first start on, seen by the ranges after the first one. */
  lemma {:induction false} FitsLater(b: Bound, ranges: seq<Range>)
    requires Disjoint(ranges) && ranges != [] && Fits(b, ranges) && b.addr > ranges[0].to
    ensures Fits(b, ranges[1..])
  {
    DisjointPairs(ranges);
    if b.end {
      forall i | 0 <= i < |ranges[1..]|
        ensures !(ranges[1..][i].from < b.addr <= ranges[1..][i].to)
      {
        assert ranges[1..][i] == ranges[i + 1];
      }
    } else {
      var i :| 0 <= i < |ranges| && b == StartOf(ranges[i]);
      assert ranges[1..][i - 1] == ranges[i];
    }
  }

  lemma {:induction false} FitsPast(b: Bound, ranges: seq<Range>)
    requires Disjoint(ranges) && ranges != [] && Fits(b, ranges)
    requires Before(StartOf(ranges[0]), b)
    ensures b == StartOf(ranges[0]) || b.addr > ranges[0].to
  {
    DisjointPairs(ranges);
    if !b.end {
      var i :| 0 <= i < |ranges| && b == StartOf(ranges[i]);
    }
  }

  /** Pairing sorted bounds that fit disjoint ranges and hold all of theirs gives the ranges. */
  lemma {:induction false} PairRecovers(bs: seq<Bound>, ranges: seq<Range>)
    requires SortedBounds(bs) && Disjoint(ranges) && AllFit(bs, ranges) && AllPresent(bs, ranges)
    ensures Pair(bs, None) == ranges
    decreases |bs|, 0
  {
    assert |ranges| > 0 ==> HasBounds(bs, ranges[0]);
    if bs != [] {
      SortedTail(bs);
      var rest := bs[1..];
      if bs[0].end {
        StaysPresent(bs, ranges);
        PairRecovers(rest, ranges);
      } else {
        FirstStart(bs, ranges);
        assert bs == [StartOf(ranges[0])] + rest;
        PairOpened(rest, ranges);
      }
    }
  }

  lemma {:induction false} FirstStart(bs: seq<Bound>, ranges: seq<Range>)
    requires SortedBounds(bs) && bs != [] && !bs[0].end && Disjoint(ranges)
    requires Fits(bs[0], ranges) && AllPresent(bs, ranges)
    ensures ranges != [] && bs[0] == StartOf(ranges[0])
  {
    var i :| 0 <= i < |ranges| && bs[0] == StartOf(ranges[i]);
    DisjointPair(ranges, 0, i);
    assert HasBounds(bs, ranges[0]);
    HeadIsLeast(bs, StartOf(ranges[0]));
  }

  /** A leading end marker closes nothing: its range would have started before it. */
  lemma {:induction false} StaysPresent(bs: seq<Bound>, ranges: seq<Range>)
    requires SortedBounds(bs) && bs != [] && bs[0].end && Disjoint(ranges) && AllPresent(bs, ranges)
    ensures AllPresent(bs[1..], ranges)
  {
    SortedTail(bs);
    DisjointPairs(ranges);
    forall i | 0 <= i < |ranges|
      ensures HasBounds(bs[1..], ranges[i])
    {
      assert HasBounds(bs, ranges[i]);
      assert Before(bs[0], StartOf(ranges[i]));
    }
  }

  lemma {:induction false} PairOpened(bs: seq<Bound>, ranges: seq<Range>)
    requires SortedBounds(bs) && Disjoint(ranges) && ranges != [] && AllFit(bs, ranges)
    requires AllPresent([StartOf(ranges[0])] + bs, ranges)
    requires forall b :: b in bs ==> Before(StartOf(ranges[0]), b)
    ensures Pair(bs, Some(ranges[0].from)) == ranges
    decreases |bs|, 1
  {
    var first := ranges[0];
    assert HasBounds([StartOf(first)] + bs, first);
    if bs == [] {
      LastOpen(ranges);
    } else {
      SortedTail(bs);
      FitsPast(bs[0], ranges);
      if bs[0] == StartOf(first) {
        SamePresent([StartOf(first)] + bs, [StartOf(first)] + bs[1..], ranges);
        PairOpened(bs[1..], ranges);
      } else {
        NextIsClose(bs, ranges);
        RestFits(bs, ranges);
        PairRecovers(bs[1..], ranges[1..]);
        PairCloses(bs, ranges);
      }
    }
  }

  lemma {:induction false} LastOpen(ranges: seq<Range>)
    requires Disjoint(ranges) && ranges != [] && AllPresent([StartOf(ranges[0])], ranges)
    ensures Pair([], Some(ranges[0].from)) == ranges
  {
    assert HasBounds([StartOf(ranges[0])], ranges[0]);
    MaxIsLast(ranges);
  }

  lemma {:induction false} MaxIsLast(ranges: seq<Range>)
    requires Disjoint(ranges) && ranges != []
    ensures ranges[0].to == MAX_ADDRESS ==> ranges == [ranges[0]]
  {
  }

  lemma {:induction false} PairCloses(bs: seq<Bound>, ranges: seq<Range>)
    requires bs != [] && ranges != [] && ranges[0].from <= ranges[0].to
    requires bs[0].end && bs[0].addr == ranges[0].to + 1 && Pair(bs[1..], None) == ranges[1..]
    ensures Pair(bs, Some(ranges[0].from)) == ranges
  {
    assert ranges == [ranges[0]] + ranges[1..];
  }

  lemma {:induction false} SamePresent(xs: seq<Bound>, ys: seq<Bound>, ranges: seq<Range>)
    requires AllPresent(xs, ranges) && forall b :: b in xs ==> b in ys
    ensures AllPresent(ys, ranges)
  {
    forall i | 0 <= i < |ranges|
      ensures HasBounds(ys, ranges[i])
    {
      assert HasBounds(xs, ranges[i]);
    }
  }

  lemma {:induction false} NextIsClose(bs: seq<Bound>, ranges: seq<Range>)
    requires SortedBounds(bs) && bs != [] && Disjoint(ranges) && ranges != [] && Fits(bs[0], ranges)
    requires HasBounds([StartOf(ranges[0])] + bs, ranges[0])
    requires bs[0].addr > ranges[0].to
    ensures bs[0].end && bs[0].addr == ranges[0].to + 1
  {
    var close := Bound(ranges[0].to + 1, true);
    assert close in bs;
    HeadIsLeast(bs, close);
  }

  lemma {:induction false} RestPresent(bs: seq<Bound>, ranges: seq<Range>, i: nat)
    requires SortedBounds(bs) && bs != [] && Disjoint(ranges) && 0 < i < |ranges|
    requires HasBounds([StartOf(ranges[0])] + bs, ranges[i])
    requires bs[0].end && bs[0].addr == ranges[0].to + 1
    ensures HasBounds(bs[1..], ranges[i])
  {
    SortedTail(bs);
    DisjointPair(ranges, 0, i);
    DisjointPair(ranges, i, i);
    assert StartOf(ranges[i]) in bs;
  }

  lemma {:induction false} RestFits(bs: seq<Bound>, ranges: seq<Range>)
    requires SortedBounds(bs) && bs != [] && Disjoint(ranges) && ranges != [] && AllFit(bs, ranges)
    requires AllPresent([StartOf(ranges[0])] + bs, ranges)
    requires bs[0].end && bs[0].addr == ranges[0].to + 1
    ensures AllFit(bs[1..], ranges[1..]) && AllPresent(bs[1..], ranges[1..]) && Disjoint(ranges[1..])
  {
    SortedTail(bs);
    forall b | b in bs[1..]
      ensures Fits(b, ranges[1..])
    {
      assert Before(bs[0], b);
      FitsLater(b, ranges);
    }
    forall i | 0 <= i < |ranges[1..]|
      ensures HasBounds(bs[1..], ranges[1..][i])
    {
      assert ranges[1..][i] == ranges[i + 1];
      RestPresent(bs, ranges, i + 1);
    }
  }

  /** Membership in the bounds of a dump does not depend on its order. */
  lemma {:induction false} BoundMembers(elements: seq<Element>, b: Bound)
    ensures b in BoundsOf(elements) <==> Element(Some(b.addr), None, b.end) in elements
    decreases |elements|
  {
    if elements != [] {
      var n := |elements| - 1;
      BoundMembers(elements[..n], b);
      assert elements == elements[..n] + [elements[n]];
    }
  }

  ghost predicate SomeRangeHas(ranges: seq<Range>, e: Element) {
    exists i :: 0 <= i < |ranges| && e in RangeElements(ranges[i])
  }

  lemma {:induction false} RangeHasSnoc(ranges: seq<Range>, r: Range, e: Element)
    ensures SomeRangeHas(ranges + [r], e) <==> SomeRangeHas(ranges, e) || e in RangeElements(r)
  {
    var all := ranges + [r];
    if i :| 0 <= i < |ranges| && e in RangeElements(ranges[i]) {
      assert all[i] == ranges[i];
    }
    assert all[|ranges|] == r;
  }

  lemma {:induction false} WrittenMembers(ranges: seq<Range>, e: Element)
    ensures e in ElementsOf(ranges) <==> SomeRangeHas(ranges, e)
    decreases |ranges|
  {
    if ranges != [] {
      var front, last := ranges[..|ranges| - 1], ranges[|ranges| - 1];
      WrittenMembers(front, e);
      RangeHasSnoc(front, last, e);
      assert ranges == front + [last];
    }
  }

  predicate OnlyMarkers(elements: seq<Element>) {
    forall e <- elements :: e.key.Some? && e.keyEnd.None? && e.intervalEnd
  }

  /** Stray end markers in the gaps: never strictly inside an interval nor on its last address. */
  ghost predicate InGaps(strays: seq<Element>, ranges: seq<Range>) {
    OnlyMarkers(strays) && forall e <- strays :: Fits(Bound(e.key.value, true), ranges)
  }

  lemma {:induction false} NoWholeRanges(dump: seq<Element>)
    requires forall e <- dump :: e.keyEnd.None?
    ensures WholeRanges(dump) == []
    decreases |dump|
  {
    if dump != [] {
      NoWholeRanges(dump[..|dump| - 1]);
    }
  }

  lemma {:induction false} SortedAlready(rs: seq<Range>)
    requires Disjoint(rs)
    ensures SortRanges(rs) == rs
    decreases |rs|
  {
    if rs != [] {
      SortedAlready(rs[1..]);
      assert rs == [rs[0]] + rs[1..];
    }
  }

  /** A dump in any order, with strays, has the members of both and nothing else. */
  ghost predicate DumpOf(dump: seq<Element>, ranges: seq<Range>, strays: seq<Element>) {
    forall e :: e in dump <==> e in ElementsOf(ranges) || e in strays
  }

  lemma {:induction false} PermutationIsDump(dump: seq<Element>, ranges: seq<Range>, strays: seq<Element>)
    requires multiset(dump) == multiset(ElementsOf(ranges)) + multiset(strays)
    ensures DumpOf(dump, ranges, strays)
  {
    forall e
      ensures e in dump <==> e in ElementsOf(ranges) || e in strays
    {
      assert e in dump <==> e in multiset(dump);
    }
  }

  lemma {:induction false} StartFits(ranges: seq<Range>, i: nat)
    requires i < |ranges|
    ensures Fits(StartOf(ranges[i]), ranges)
  {
  }

  lemma {:induction false} EndFits(ranges: seq<Range>, i: nat)
    requires Disjoint(ranges) && i < |ranges| && ranges[i].to < MAX_ADDRESS
    ensures Fits(Bound(ranges[i].to + 1, true), ranges)
  {
    DisjointPairs(ranges);
    forall k | 0 <= k < |ranges|
      ensures !(ranges[k].from < ranges[i].to + 1 <= ranges[k].to)
    {
      if k < i {
        assert ranges[k].to < ranges[i].from <= ranges[i].to;
      } else if i < k {
        assert ranges[i].to < ranges[k].from;
      }
    }
  }

  lemma {:induction false} BoundOfRange(r: Range, b: Bound)
    requires Element(Some(b.addr), None, b.end) in RangeElements(r)
    ensures b == StartOf(r) || (r.to < MAX_ADDRESS && b == Bound(r.to + 1, true))
  {
  }

  lemma {:induction false} DumpFits(ranges: seq<Range>, strays: seq<Element>, dump: seq<Element>, b: Bound)
    requires Disjoint(ranges) && InGaps(strays, ranges) && DumpOf(dump, ranges, strays)
    requires b in BoundsOf(dump)
    ensures Fits(b, ranges)
  {
    var e := Element(Some(b.addr), None, b.end);
    BoundMembers(dump, b);
    WrittenMembers(ranges, e);
    if e in strays {
      assert b == Bound(e.key.value, true);
    } else {
      var i :| 0 <= i < |ranges| && e in RangeElements(ranges[i]);
      BoundOfRange(ranges[i], b);
      StartFits(ranges, i);
      if b != StartOf(ranges[i]) {
        EndFits(ranges, i);
      }
    }
  }

  lemma {:induction false} DumpPresent(ranges: seq<Range>, strays: seq<Element>, dump: seq<Element>, i: nat)
    requires DumpOf(dump, ranges, strays) && i < |ranges|
    ensures HasBounds(BoundsOf(dump), ranges[i])
  {
    var r := ranges[i];
    var start := RangeElements(r)[0];
    WrittenMembers(ranges, start);
    BoundMembers(dump, StartOf(r));
    if r.to < MAX_ADDRESS {
      var close := RangeElements(r)[1];
      WrittenMembers(ranges, close);
      BoundMembers(dump, Bound(r.to + 1, true));
    }
  }

  lemma {:induction false} DumpIsPlain(ranges: seq<Range>, strays: seq<Element>, dump: seq<Element>)
    requires OnlyMarkers(strays) && DumpOf(dump, ranges, strays)
    ensures WholeRanges(dump) == []
  {
    forall e <- dump
      ensures e.keyEnd.None?
    {
      WrittenMembers(ranges, e);
    }
    NoWholeRanges(dump);
  }

  /** Any order of what was written, with stray end markers in the gaps, reads back as the ranges,
      also when they touch each other or reach the last address. */
  lemma {:induction false} DumpRoundTrip(ranges: seq<Range>, strays: seq<Element>, dump: seq<Element>)
    requires Disjoint(ranges) && InGaps(strays, ranges)
    requires multiset(dump) == multiset(ElementsOf(ranges)) + multiset(strays)
    ensures ReadBack(dump) == ranges
  {
    PermutationIsDump(dump, ranges, strays);
    DumpIsPlain(ranges, strays, dump);
    var bs := SortBounds(BoundsOf(dump));
    forall b | b in bs
      ensures Fits(b, ranges)
    {
      DumpFits(ranges, strays, dump, b);
    }
    forall i | 0 <= i < |ranges|
      ensures HasBounds(bs, ranges[i])
    {
      DumpPresent(ranges, strays, dump, i);
    }
    PairRecovers(bs, ranges);
    SortedAlready(ranges);
    assert WholeRanges(dump) + Pair(bs, None) == ranges;
  }

  // ---------------------------------------------------------------- diagnostics

  predicate IsMissing(index: seq<Range>, e: Entry)
  {
    match e
    case Single(a) => !CoversRange(index, Range(a, a))
    case Block(base, bits) => !CoversRange(index, MaskedRange(base, bits))
    case _ => false
  }

  function MissingOf(index: seq<Range>, want: seq<Entry>): seq<Entry>
  {
    if want == [] then []
    else
      MissingOf(index, want[..|want| - 1]) +
      if IsMissing(index, want[|want| - 1]) then [want[|want| - 1]] else []
  }

  /** Index of a set that was read back: the merged ranges. */
  function SubnetIndex(ranges: seq<Range>): seq<Range>
    requires AllValid(ranges)
  {
    Merge(ranges)
  }

  /** Wanted subnets that the loaded set does not cover, in order. */
  method Missing(index: seq<Range>, want: seq<Entry>) returns (out: seq<Entry>)
    ensures out == MissingOf(index, want)
  {
    out := [];
    for i := 0 to |want|
      invariant out == MissingOf(index, want[..i])
    {
      assert want[..i + 1][..i] == want[..i];
      match want[i] {
        case Block(base, bits) =>
          if !CoversRange(index, MaskedRange(base, bits)) {
            out := out + [want[i]];
          }
        case Single(a) =>
          if !CoversRange(index, Range(a, a)) {
            out := out + [want[i]];
          }
        case _ =>
      }
    }
    assert want[..|want|] == want;
  }

  lemma {:induction false} MissingMembers(index: seq<Range>, want: seq<Entry>, e: Entry)
    ensures e in MissingOf(index, want) <==> e in want && IsMissing(index, e)
  {
    if want != [] {
      MissingMembers(index, want[..|want| - 1], e);
      assert want == want[..|want| - 1] + [want[|want| - 1]];
    }
  }

  /** Diagnostics name exactly the entries with an address outside the loaded set. */
  lemma {:induction false} MissingMeaning(index: seq<Range>, want: seq<Entry>, e: Entry)
    requires Canonical(index)
    ensures e in MissingOf(index, want) <==>
            e in want && exists a: Address :: Covers(EntryRanges(e), a) && !Covers(index, a)
  {
    MissingMembers(index, want, e);
    if e in want && (e.Single? || e.Block?) {
      var rs := EntryRanges(e);
      CoversRangeMeaning(index, rs[0]);
      forall a: Address {
        CoversOne(rs[0], a);
      }
    }
  }

  lemma {:induction false} NothingMissing(index: seq<Range>, want: seq<Entry>)
    requires Canonical(index)
    requires forall e <- want :: forall a: Address :: Covers(EntryRanges(e), a) ==> Covers(index, a)
    ensures MissingOf(index, want) == []
    decreases |want|
  {
    if want != [] {
      var n := |want| - 1;
      assert want[n] in want;
      NothingMissing(index, want[..n]);
      MissingMeaning(index, want, want[n]);
      MissingMembers(index, want, want[n]);
    }
  }

  lemma {:induction false} MergedIsValid(entries: seq<Entry>)
    ensures AllValid(Merge(AllRanges(entries)))
  {
    CanonicalIsDisjoint(Merge(AllRanges(entries)));
    DisjointPairs(Merge(AllRanges(entries)));
  }

  lemma {:induction false} EntryHolds(entries: seq<Entry>, e: Entry, a: Address)
    requires e in entries && Covers(EntryRanges(e), a)
    ensures AnyEntry(entries, a)
  {
    var k :| 0 <= k < |entries| && entries[k] == e;
    assert Covers(EntryRanges(entries[k]), a);
  }

  lemma {:induction false} EntryInMerged(entries: seq<Entry>, e: Entry, a: Address)
    requires e in entries && Covers(EntryRanges(e), a)
    ensures var ranges := Merge(AllRanges(entries)); AllValid(ranges) && Covers(Merge(ranges), a)
  {
    MergedIsValid(entries);
    EntryHolds(entries, e, a);
    MergedMembers(entries, a);
    MergeMember(Merge(AllRanges(entries)), a);
  }

  /** Nothing that was merged and loaded is ever reported missing, whatever order the kernel dumps. */
  lemma {:induction false} LoadedIsNeverMissing(
    entries: seq<Entry>, want: seq<Entry>, strays: seq<Element>, dump: seq<Element>)
    requires forall e <- want :: e in entries
    requires InGaps(strays, Merge(AllRanges(entries)))
    requires multiset(dump) == multiset(ElementsOf(Merge(AllRanges(entries)))) + multiset(strays)
    ensures AllValid(ReadBack(dump)) && MissingOf(SubnetIndex(ReadBack(dump)), want) == []
  {
    var ranges := Merge(AllRanges(entries));
    CanonicalIsDisjoint(ranges);
    DumpRoundTrip(ranges, strays, dump);
    DisjointPairs(ranges);
    assert AllValid(ranges);
    forall e, a: Address | e in want && Covers(EntryRanges(e), a)
      ensures Covers(SubnetIndex(ranges), a)
    {
      EntryInMerged(entries, e, a);
    }
    NothingMissing(SubnetIndex(ranges), want);
  }
}
