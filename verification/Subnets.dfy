/** Subnet entries of lists and rules, merged into the intervals of a kernel set. */
module Subnets {
  import opened Basics
  import opened Ipv4

  /** A trimmed list entry after address parsing. `Junk` is everything the merge skips:
      malformed text and IPv6. A prefix need not be aligned; it is masked before use. */
  datatype ParsedEntry = Blank | Junk | Single(address: Address) | Block(base: Address, bits: nat)

  type Entry = e: ParsedEntry | e.Block? ==> e.bits <= 32 witness Blank

  /** The range of the masked prefix that holds `base`. */
  function MaskedRange(base: Address, bits: nat): (r: Range)
    requires bits <= 32
    ensures Within(base, r)
  {
    var size := Pow2(32 - bits);
    var from := base / size * size;
    AlignedInSpace(base, bits);
    Range(from, from + size - 1)
  }

  /** A block that starts inside a space of whole blocks ends inside it. */
  lemma {:induction false} LastBlock(k: nat, blocks: nat, size: nat)
    requires size > 0 && k * size < blocks * size
    ensures k * size + size <= blocks * size
  {
    if k >= blocks {
      MulMonotone(blocks, k, size);
      assert false;
    }
    assert (blocks - 1 - k) * size >= 0;
    assert blocks * size == k * size + size + (blocks - 1 - k) * size;
  }

  lemma {:induction false} AlignedInSpace(base: Address, bits: nat)
    requires bits <= 32
    ensures var size := Pow2(32 - bits); var from := base / size * size;
            0 <= from <= base < from + size <= MAX_ADDRESS + 1
  {
    var size := Pow2(32 - bits);
    Pow2Of32();
    Pow2Split(bits, 32 - bits);
    FloorBlock(base, size);
    LastBlock(base / size, Pow2(bits), size);
  }

  /** The range an entry adds to a set; none when the merge skips it. */
  function EntryRanges(e: Entry): (rs: seq<Range>)
    ensures AllValid(rs) && |rs| <= 1
  {
    match e
    case Single(a) => [Range(a, a)]
    case Block(base, bits) => [MaskedRange(base, bits)]
    case _ => []
  }

  function AllRanges(entries: seq<Entry>): (rs: seq<Range>)
    ensures AllValid(rs)
  {
    if entries == [] then []
    else AllRanges(entries[..|entries| - 1]) + EntryRanges(entries[|entries| - 1])
  }

  predicate Skipped(e: Entry) {
    e.Blank? || e.Junk?
  }

  function SkippedCount(entries: seq<Entry>): nat {
    if entries == [] then 0
    else SkippedCount(entries[..|entries| - 1]) + if Skipped(entries[|entries| - 1]) then 1 else 0
  }

  /** Merges entries into canonical intervals and counts the entries it could not use.
      The kernel refuses overlapping intervals, so the merge is not optional. */
  method MergeSubnets(entries: seq<Entry>) returns (ranges: seq<Range>, skipped: nat)
    ensures Canonical(ranges)
    ensures ranges == Merge(AllRanges(entries))
    ensures skipped == SkippedCount(entries)
  {
    var builder: seq<Range> := [];
    skipped := 0;
    for i := 0 to |entries|
      invariant builder == AllRanges(entries[..i])
      invariant skipped == SkippedCount(entries[..i])
    {
      var e := entries[i];
      assert entries[..i + 1][..i] == entries[..i];
      match e {
        case Blank => skipped := skipped + 1;
        case Junk => skipped := skipped + 1;
        case Single(a) => builder := builder + [Range(a, a)];
        case Block(base, bits) =>
          builder := builder + [MaskedRange(base, bits)];
      }
    }
    assert entries[..|entries|] == entries;
    ranges := Merge(builder);
  }

  lemma {:induction false} AllRangesSnoc(entries: seq<Entry>, e: Entry, a: Address)
    ensures Covers(AllRanges(entries + [e]), a) <==> Covers(AllRanges(entries), a) || Covers(EntryRanges(e), a)
  {
    assert (entries + [e])[..|entries|] == entries;
    CoversConcat(AllRanges(entries), EntryRanges(e), a);
  }

  lemma {:induction false} EntryIsCovered(entries: seq<Entry>, k: nat, a: Address)
    requires k < |entries| && Covers(EntryRanges(entries[k]), a)
    ensures Covers(AllRanges(entries), a)
    decreases |entries|
  {
    var n := |entries| - 1;
    var before, last := entries[..n], entries[n];
    assert entries == before + [last];
    AllRangesSnoc(before, last, a);
    if k < n {
      EntryIsCovered(before, k, a);
    }
  }

  lemma {:induction false} CoveredByEntry(entries: seq<Entry>, a: Address) returns (k: nat)
    requires Covers(AllRanges(entries), a)
    ensures k < |entries| && Covers(EntryRanges(entries[k]), a)
    decreases |entries|
  {
    var n := |entries| - 1;
    var before, last := entries[..n], entries[n];
    assert entries == before + [last];
    AllRangesSnoc(before, last, a);
    if Covers(AllRanges(before), a) {
      k := CoveredByEntry(before, a);
    } else {
      k := n;
    }
  }

  /** Some usable entry holds the address. */
  ghost predicate AnyEntry(entries: seq<Entry>, a: Address) {
    exists k :: 0 <= k < |entries| && Covers(EntryRanges(entries[k]), a)
  }

  lemma {:induction false} EntriesMembers(entries: seq<Entry>, a: Address)
    ensures Covers(AllRanges(entries), a) <==> AnyEntry(entries, a)
  {
    if Covers(AllRanges(entries), a) {
      var k := CoveredByEntry(entries, a);
    }
    if k :| 0 <= k < |entries| && Covers(EntryRanges(entries[k]), a) {
      EntryIsCovered(entries, k, a);
    }
  }

  /** The merged set holds an address exactly when some usable entry does. */
  lemma {:induction false} MergedMembers(entries: seq<Entry>, a: Address)
    ensures Covers(Merge(AllRanges(entries)), a) <==> AnyEntry(entries, a)
  {
    MergeMember(AllRanges(entries), a);
    EntriesMembers(entries, a);
  }
}
