/** Compiling whole native rule sets into DNS rules and address sets (internal/lists/native.go). */
module NativeProject {
  import opened Ipv4
  import opened Options
  import opened Subnets
  import opened NativeRules
  import opened NativeProjection
  import opened NativeRegex
  import opened NativeCompiler

  const MAX_PORT := 0xFFFF

  // ---------------------------------------------------------------- what is accepted

  predicate Contextual(d: DefaultRule) {
    |d.networks| + |d.ports| + |d.portRanges| > 0
  }

  // The checks below read a list from position `i` on.

  predicate SizesFit(items: seq<DomainItem>, i: nat := 0)
    requires i <= |items|
    decreases |items| - i
  {
    i < |items| ==> 0 < |items[i].text| <= MAX_TEXT && SizesFit(items, i + 1)
  }

  predicate RegexesParse(items: seq<DomainItem>, parse: RegexParser, i: nat := 0)
    requires i <= |items|
    decreases |items| - i
  {
    i < |items| ==> (items[i].Regex? ==> Loads(parse, items[i].text)) && RegexesParse(items, parse, i + 1)
  }

  predicate NetworksKnown(networks: seq<Network>, i: nat := 0)
    requires i <= |networks|
    decreases |networks| - i
  {
    i < |networks| ==> networks[i] != OtherNetwork && NetworksKnown(networks, i + 1)
  }

  predicate PortsParse(ranges: seq<PortRange>, i: nat := 0)
    requires i <= |ranges|
    decreases |ranges| - i
  {
    i < |ranges| ==> ranges[i].Ports? && ranges[i].lo <= ranges[i].hi <= MAX_PORT && PortsParse(ranges, i + 1)
  }

  predicate AddressesParse(entries: seq<Entry>, i: nat := 0)
    requires i <= |entries|
    decreases |entries| - i
  {
    i < |entries| ==> !entries[i].Blank? && AddressesParse(entries, i + 1)
  }

  /** A default rule the compiler can split, budgets aside. */
  predicate Splittable(d: DefaultRule, legacy: bool, parse: RegexParser) {
    && !d.foreign
    && !(legacy && Contextual(d))
    && SizesFit(d.domains) && RegexesParse(d.domains, parse)
    && AddressesParse(d.addresses) && NetworksKnown(d.networks) && PortsParse(d.portRanges)
    && (Contextual(d) ==> !d.invert && d.domains == [])
    && (d.domains != [] || d.addresses != [] || Contextual(d))
  }

  function DefaultShape(d: DefaultRule): Shape {
    if Contextual(d) then Shape(false, false, true) else Shape(d.domains != [], d.addresses != [], false)
  }

  /** The parts a rule splits into; none when the rule cannot be split. */
  function RuleShape(r: Rule, legacy: bool, parse: RegexParser): Option<Shape>
    decreases r, 1
  {
    match r
    case Default(d) =>
      if Splittable(d, legacy, parse) then InvertedShape(DefaultShape(d), d.invert) else None
    case Logical(mode, rules, invert) =>
      if rules == [] || mode == BadMode || RuleShapes(rules, legacy, parse).None? then None
      else CombinedShape(RuleShapes(rules, legacy, parse).value, mode, invert)
    case UnknownRule => None
  }

  function RuleShapes(rules: seq<Rule>, legacy: bool, parse: RegexParser): Option<seq<Shape>>
    decreases rules, 0
  {
    if rules == [] then Some([])
    else
      var front := RuleShapes(rules[..|rules| - 1], legacy, parse);
      var last := RuleShape(rules[|rules| - 1], legacy, parse);
      if front.None? || last.None? then None else Some(front.value + [last.value])
  }

  /** One rule that cannot be split spoils the list. */
  lemma {:induction false} OneUnsplittable(rules: seq<Rule>, i: nat, legacy: bool, parse: RegexParser)
    requires i < |rules| && RuleShape(rules[i], legacy, parse).None?
    ensures RuleShapes(rules, legacy, parse).None?
    decreases |rules|
  {
    if i < |rules| - 1 {
      OneUnsplittable(rules[..|rules| - 1], i, legacy, parse);
    }
  }

  // ---------------------------------------------------------------- size of a rule

  function Nodes(r: Rule): nat
    decreases r, 1
  {
    match r
    case Logical(_, rules, _) => 1 + NodesOf(rules)
    case _ => 1
  }

  function NodesOf(rules: seq<Rule>): nat
    decreases rules, 0
  {
    if rules == [] then 0 else NodesOf(rules[..|rules| - 1]) + Nodes(rules[|rules| - 1])
  }

  /** Levels below the rule. */
  function Height(r: Rule): nat
    decreases r, 1
  {
    match r
    case Logical(_, rules, _) => HeightOf(rules)
    case _ => 0
  }

  function HeightOf(rules: seq<Rule>): nat
    decreases rules, 0
  {
    if rules == [] then 0 else Max(HeightOf(rules[..|rules| - 1]), 1 + Height(rules[|rules| - 1]))
  }

  function OwnValues(d: DefaultRule): nat {
    |d.domains| + |d.addresses| + |d.networks| + |d.portRanges| + |d.ports|
  }

  function Values(r: Rule): nat
    decreases r, 1
  {
    match r
    case Default(d) => OwnValues(d)
    case Logical(_, rules, _) => ValuesOf(rules)
    case UnknownRule => 0
  }

  function ValuesOf(rules: seq<Rule>): nat
    decreases rules, 0
  {
    if rules == [] then 0 else ValuesOf(rules[..|rules| - 1]) + Values(rules[|rules| - 1])
  }

  // ---------------------------------------------------------------- default rules

  method CheckFields(d: DefaultRule) returns (ok: bool)
    ensures ok == (SizesFit(d.domains) && NetworksKnown(d.networks) && PortsParse(d.portRanges))
  {
    var i := 0;
    while i < |d.domains|
      invariant 0 <= i <= |d.domains| && SizesFit(d.domains) == SizesFit(d.domains, i)
    {
      if d.domains[i].text == "" || |d.domains[i].text| > MAX_TEXT {
        return false;
      }
      i := i + 1;
    }
    i := 0;
    while i < |d.networks|
      invariant 0 <= i <= |d.networks| && NetworksKnown(d.networks) == NetworksKnown(d.networks, i)
    {
      if d.networks[i] == OtherNetwork {
        return false;
      }
      i := i + 1;
    }
    i := 0;
    while i < |d.portRanges|
      invariant 0 <= i <= |d.portRanges| && PortsParse(d.portRanges) == PortsParse(d.portRanges, i)
    {
      var p := d.portRanges[i];
      if p.BadPorts? || p.lo > p.hi || p.hi > MAX_PORT {
        return false;
      }
      i := i + 1;
    }
    return true;
  }

  method AdmitRegexes(items: seq<DomainItem>, work: Budget) returns (failed: Option<Error>)
    requires work.RegexesFit()
    modifies work`regexCount, work`regexBytes, work`regexSpent
    ensures work.RegexesFit()
    ensures failed.None? ==> RegexesParse(items, work.parse)
    ensures failed != Some(Unbounded)
    ensures failed == Some(Unsupported) ==> !RegexesParse(items, work.parse)
  {
    var i := 0;
    while i < |items|
      invariant 0 <= i <= |items| && work.RegexesFit()
      invariant RegexesParse(items, work.parse) == RegexesParse(items, work.parse, i)
    {
      if items[i].Regex? {
        failed := work.AdmitRegex(items[i].text);
        if failed.Some? {
          return;
        }
      }
      i := i + 1;
    }
    return None;
  }

  ghost predicate Holds(rs: seq<Range>, entries: seq<Entry>) {
    Canonical(rs) && forall a: Address :: Covers(rs, a) <==> AnyEntry(entries, a)
  }

  lemma {:induction false} MergedHolds(entries: seq<Entry>)
    ensures Holds(Merge(AllRanges(entries)), entries)
  {
    forall a: Address {
      MergedMembers(entries, a);
    }
  }

  lemma {:induction false} AllRangesStep(entries: seq<Entry>, i: nat)
    requires i < |entries|
    ensures AllRanges(entries[..i + 1]) == AllRanges(entries[..i]) + EntryRanges(entries[i])
  {
    assert entries[..i + 1][..i] == entries[..i];
  }

  /** IPv4 set of the address items; IPv6 items add nothing. */
  method BuildAddresses(entries: seq<Entry>, work: Budget) returns (res: Result<seq<Range>>)
    modifies work`remaining
    ensures res.Ok? ==> AddressesParse(entries) && Holds(res.value, entries)
    ensures res.Err? ==> res.error != Unbounded
    ensures res.Err? && res.error == Unsupported ==> !AddressesParse(entries)
  {
    var ok := work.Charge(|entries|, true);
    if !ok {
      return Err(Exhausted);
    }
    var builder: seq<Range> := [];
    var i := 0;
    while i < |entries|
      invariant 0 <= i <= |entries| && builder == AllRanges(entries[..i])
      invariant AddressesParse(entries) == AddressesParse(entries, i)
    {
      AllRangesStep(entries, i);
      match entries[i] {
        case Blank => return Err(Unsupported);
        case Junk =>
        case Single(a) => builder := builder + [Range(a, a)];
        case Block(base, bits) => builder := builder + [MaskedRange(base, bits)];
      }
      i := i + 1;
    }
    assert entries[..|entries|] == entries;
    MergedHolds(entries);
    return Ok(Merge(builder));
  }

  // ---------------------------------------------------------------- meaning of a default rule

  /** The domain items alone, not inverted. */
  function DomainRule(d: DefaultRule): Rule {
    Default(d.(addresses := [], invert := false))
  }

  /** The parts of a default rule before inversion. */
  ghost predicate PartsOf(d: DefaultRule, e: Expr) {
    && e.domain == (if d.domains == [] then None else Some(DomainRule(d)))
    && !e.emptyDomain
    && (if Contextual(d) then e.address.None? && IsSet(d, e.transport, d.addresses == [])
        else e.transport.None? && if d.addresses == [] then e.address.None? else IsSet(d, e.address, false))
  }

  ghost predicate IsSet(d: DefaultRule, part: Option<seq<Range>>, full: bool) {
    && part.Some? && Canonical(part.value)
    && forall a: Address :: Covers(part.value, a) <==> full || AnyEntry(d.addresses, a)
  }

  lemma {:induction false} PartsSelect(read: DomainReader, d: DefaultRule, e: Expr, c: Connection)
    requires PartsOf(d, e) && !Contextual(d) && (d.domains != [] || d.addresses != [])
    ensures Selects(read, e, c) <==> DefaultHit(read, d, c)
  {
    assert !AnyEntry([], c.address);
    if d.domains == [] {
      assert !DomainHit(read, d.domains, c.domain);
    }
  }

  lemma {:induction false} PartsIntercept(read: DomainReader, d: DefaultRule, e: Expr, c: Connection)
    requires PartsOf(d, e) && Contextual(d) && d.domains == [] && DefaultHit(read, d, c)
    ensures Intercepts(read, e, c) && !Selects(read, e, c)
  {
    assert !DomainHit(read, d.domains, c.domain);
  }

  lemma {:induction false} PartsSound(d: DefaultRule, e: Expr)
    requires PartsOf(d, e) && (Contextual(d) ==> d.domains == [])
    ensures Sound(e) && ShapeOf(e) == DefaultShape(d)
  {
    if d.domains != [] {
      forall read: DomainReader, c: Connection | c.domain.None?
        ensures !Matches(read, e.domain.value, c)
      {
        assert !AnyEntry([], c.address);
        assert !DomainHit(read, d.domains, c.domain);
      }
    }
  }

  /** The parts of a default rule, inverted as the rule is, say what the rule says. */
  lemma {:induction false} PartsFaithful(d: DefaultRule, e: Expr, out: Expr)
    requires PartsOf(d, e) && (Contextual(d) ==> d.domains == [] && !d.invert)
    requires d.domains != [] || d.addresses != [] || Contextual(d)
    requires Inverts(e, d.invert, out) && (d.invert || out == e)
    ensures Faithful(Default(d), out)
  {
    forall read: DomainReader, c: Connection
      ensures FaithfulAt(read, Default(d), out, c)
    {
      if Contextual(d) {
        if DefaultHit(read, d, c) {
          PartsIntercept(read, d, e, c);
        }
      } else {
        PartsSelect(read, d, e, c);
        assert Selects(read, out, c) == (Selects(read, e, c) != d.invert);
      }
    }
  }

  method FullRanges() returns (ranges: seq<Range>)
    ensures Canonical(ranges) && CoversAll(ranges)
  {
    ranges := [EVERYTHING];
    assert ranges[1..] == [];
    FullSet(ranges);
  }

  method CompileDefault(d: DefaultRule, work: Budget) returns (res: Result<Expr>)
    requires work.RegexesFit()
    modifies work
    ensures work.nodes == old(work.nodes) && work.RegexesFit()
    ensures res.Ok? ==> work.values == old(work.values) + OwnValues(d) <= MAX_VALUES
    ensures res.Ok? ==> CompiledOne(Default(d), res.value, work.legacy, work.parse)
    ensures res.Err? ==> res.error != Unbounded
    ensures res.Err? && res.error == Unsupported ==> RuleShape(Default(d), work.legacy, work.parse).None?
  {
    var contextual := |d.networks| + |d.ports| + |d.portRanges| > 0;
    if d.foreign || (contextual && work.legacy) {
      return Err(Unsupported);
    }
    work.values := work.values + |d.domains| + |d.addresses| + |d.networks| + |d.portRanges|;
    var fields := CheckFields(d);
    if !fields {
      return Err(Unsupported);
    }
    work.values := work.values + |d.ports|;
    if contextual && (d.invert || |d.domains| > 0) {
      return Err(Unsupported);
    }
    if work.values > MAX_VALUES {
      return Err(Exhausted);
    }
    var failed := AdmitRegexes(d.domains, work);
    if failed.Some? {
      return Err(failed.value);
    }
    var e := NOTHING;
    if |d.domains| > 0 {
      e := e.(domain := Some(DomainRule(d)));
    }
    if |d.addresses| > 0 {
      var built := BuildAddresses(d.addresses, work);
      if built.Err? {
        return Err(built.error);
      }
      e := e.(address := Some(built.value));
    }
    if contextual {
      if e.address.None? {
        var full := FullRanges();
        e := e.(address := Some(full));
      }
      e := e.(transport := e.address, address := None);
    }
    if e.domain.None? && e.address.None? && e.transport.None? {
      return Err(Unsupported);
    }
    assert PartsOf(d, e);
    PartsSound(d, e);
    res := InvertNative(e, d.invert, work);
    if res.Ok? {
      PartsFaithful(d, e, res.value);
    }
  }

  // ---------------------------------------------------------------- nested rules

  /** `ee` are the projections of the rules, each faithful and of the foretold shape. */
  ghost predicate Compiled(rules: seq<Rule>, ee: seq<Expr>, legacy: bool, parse: RegexParser) {
    && AllFaithful(rules, ee) && AllSound(ee) && AllPartial(ee)
    && RuleShapes(rules, legacy, parse) == Some(ShapesOf(ee))
  }

  ghost predicate CompiledOne(r: Rule, e: Expr, legacy: bool, parse: RegexParser) {
    && Faithful(r, e) && Sound(e) && Partial(e)
    && RuleShape(r, legacy, parse) == Some(ShapeOf(e))
  }

  lemma {:induction false} CompiledSnoc(rules: seq<Rule>, ee: seq<Expr>, r: Rule, e: Expr, legacy: bool, parse: RegexParser)
    requires Compiled(rules, ee, legacy, parse) && CompiledOne(r, e, legacy, parse)
    ensures Compiled(rules + [r], ee + [e], legacy, parse)
  {
    assert (rules + [r])[..|rules|] == rules && (ee + [e])[..|ee|] == ee;
    ShapesSnoc(ee, e);
  }

  /** The counters moved by the size of the rules, within the limits. */
  ghost predicate Paid(rules: seq<Rule>, depth: nat, nodes: int, values: int) {
    && nodes == NodesOf(rules) && values == ValuesOf(rules)
    && (rules != [] ==> depth + HeightOf(rules) - 1 <= MAX_DEPTH)
  }

  lemma {:induction false} PaidSnoc(rules: seq<Rule>, r: Rule, depth: nat, nodes: int, values: int)
    requires Paid(rules, depth, nodes, values) && depth + Height(r) <= MAX_DEPTH
    ensures Paid(rules + [r], depth, nodes + Nodes(r), values + Values(r))
  {
    assert (rules + [r])[..|rules|] == rules;
  }

  /** The first `i` rules are compiled and paid for, from `start` on. */
  ghost predicate Listed(rules: seq<Rule>, i: nat, ee: seq<Expr>, legacy: bool, parse: RegexParser, depth: nat,
      start: (int, int), nodes: int, values: int) {
    && i <= |rules| && Compiled(rules[..i], ee, legacy, parse)
    && Paid(rules[..i], depth, nodes - start.0, values - start.1)
    && nodes <= MAX_NODES && (start.1 <= MAX_VALUES ==> values <= MAX_VALUES)
  }

  lemma {:induction false} OneMoreRule(rules: seq<Rule>, i: nat, ee: seq<Expr>, e: Expr, legacy: bool, parse: RegexParser,
      depth: nat, start: (int, int), nodes: int, values: int)
    requires i < |rules| && Listed(rules, i, ee, legacy, parse, depth, start, nodes, values)
    requires CompiledOne(rules[i], e, legacy, parse) && depth + Height(rules[i]) <= MAX_DEPTH
    requires nodes + Nodes(rules[i]) <= MAX_NODES && (values <= MAX_VALUES ==> values + Values(rules[i]) <= MAX_VALUES)
    ensures Listed(rules, i + 1, ee + [e], legacy, parse, depth, start, nodes + Nodes(rules[i]), values + Values(rules[i]))
  {
    assert rules[..i + 1] == rules[..i] + [rules[i]];
    CompiledSnoc(rules[..i], ee, rules[i], e, legacy, parse);
    PaidSnoc(rules[..i], rules[i], depth, nodes - start.0, values - start.1);
  }

  lemma {:induction false} AllListed(rules: seq<Rule>, ee: seq<Expr>, legacy: bool, parse: RegexParser, depth: nat,
      start: (int, int), nodes: int, values: int)
    requires Listed(rules, |rules|, ee, legacy, parse, depth, start, nodes, values)
    ensures Compiled(rules, ee, legacy, parse) && Paid(rules, depth, nodes - start.0, values - start.1)
  {
    assert rules[..|rules|] == rules;
  }

  lemma {:induction false} CombinedIsPartial(ee: seq<Expr>, mode: Mode, invert: bool, out: Expr)
    requires AllPartial(ee) && ee != [] && CombinedShape(ShapesOf(ee), mode, invert) == Some(ShapeOf(out))
    ensures Partial(out)
  {
    ContextIsTransport(ee);
    if !HasTransport(ee) {
      PartialShapes(ee);
    }
  }

  /** Splits a rule of any nesting. A result selects only what the rule matches and intercepts all of it,
      has the parts the rule's shape foretells, and was paid for node by node and value by value. */
  method CompileNative(r: Rule, depth: nat, work: Budget) returns (res: Result<Expr>)
    requires work.RegexesFit()
    modifies work
    ensures work.RegexesFit()
    ensures res.Ok? ==> CompiledOne(r, res.value, work.legacy, work.parse)
    ensures res.Ok? ==> work.nodes == old(work.nodes) + Nodes(r) <= MAX_NODES && depth + Height(r) <= MAX_DEPTH
    ensures res.Ok? ==> work.values == old(work.values) + Values(r)
    ensures res.Ok? && old(work.values) <= MAX_VALUES ==> work.values <= MAX_VALUES
    ensures res.Err? ==> res.error != Unbounded
    ensures res.Err? && res.error == Unsupported ==> RuleShape(r, work.legacy, work.parse).None?
    decreases r, 1
  {
    work.nodes := work.nodes + 1;
    if depth > MAX_DEPTH || work.nodes > MAX_NODES {
      return Err(Exhausted);
    }
    match r {
      case Logical(mode, rules, invert) =>
        if |rules| == 0 || mode == BadMode {
          return Err(Unsupported);
        }
        var parts := CompileList(rules, depth + 1, work);
        if parts.Err? {
          return Err(parts.error);
        }
        res := CombineNative(parts.value, mode, invert, work);
        if res.Ok? {
          CombinedIsFaithful(rules, parts.value, mode, invert, res.value);
          CombinedIsPartial(parts.value, mode, invert, res.value);
        }
      case UnknownRule => return Err(Unsupported);
      case Default(d) => res := CompileDefault(d, work);
    }
  }

  method CompileList(rules: seq<Rule>, depth: nat, work: Budget) returns (res: Result<seq<Expr>>)
    requires work.RegexesFit() && work.nodes <= MAX_NODES
    modifies work
    ensures work.RegexesFit()
    ensures res.Ok? ==> Compiled(rules, res.value, work.legacy, work.parse)
    ensures res.Ok? ==> Paid(rules, depth, work.nodes - old(work.nodes), work.values - old(work.values))
    ensures res.Ok? ==> work.nodes <= MAX_NODES && (old(work.values) <= MAX_VALUES ==> work.values <= MAX_VALUES)
    ensures res.Err? ==> res.error != Unbounded
    ensures res.Err? && res.error == Unsupported ==> RuleShapes(rules, work.legacy, work.parse).None?
    decreases rules, 0
  {
    var ee: seq<Expr> := [];
    ghost var start := (work.nodes, work.values);
    for i := 0 to |rules|
      invariant Listed(rules, i, ee, work.legacy, work.parse, depth, start, work.nodes, work.values)
      invariant work.RegexesFit()
    {
      ghost var nodes, values := work.nodes, work.values;
      var e := CompileNative(rules[i], depth, work);
      if e.Err? {
        if e.error == Unsupported {
          OneUnsplittable(rules, i, work.legacy, work.parse);
        }
        return Err(e.error);
      }
      OneMoreRule(rules, i, ee, e.value, work.legacy, work.parse, depth, start, nodes, values);
      ee := ee + [e.value];
    }
    AllListed(rules, ee, work.legacy, work.parse, depth, start, work.nodes, work.values);
    return Ok(ee);
  }

  // ---------------------------------------------------------------- the projection of a rule set

  /** What the routing configuration receives. */
  datatype Projection = Projection(dns: Option<Rule>, subnets: seq<Prefix>, transportSubnets: seq<Prefix>)

  const ALL_ADDRESSES := [Prefix(0, 0)]

  predicate HasContext(r: Rule)
    decreases r, 1
  {
    match r
    case Default(d) => Contextual(d)
    case Logical(_, rules, _) => AnyHasContext(rules)
    case UnknownRule => false
  }

  predicate AnyHasContext(rules: seq<Rule>)
    decreases rules, 0
  {
    rules != [] && (AnyHasContext(rules[..|rules| - 1]) || HasContext(rules[|rules| - 1]))
  }

  /** Only rules with network or port fields produce a transport part. */
  lemma {:induction false} ContextOfShape(r: Rule, legacy: bool, parse: RegexParser)
    ensures RuleShape(r, legacy, parse).Some? ==> RuleShape(r, legacy, parse).value.context == HasContext(r)
    decreases r, 1
  {
    match r
    case Default(d) =>
    case Logical(_, rules, _) => ContextOfShapes(rules, legacy, parse);
    case UnknownRule =>
  }

  lemma {:induction false} ContextOfShapes(rules: seq<Rule>, legacy: bool, parse: RegexParser)
    ensures RuleShapes(rules, legacy, parse).Some? ==>
              AnyContext(RuleShapes(rules, legacy, parse).value) == AnyHasContext(rules)
    decreases rules, 0
  {
    if rules != [] && RuleShapes(rules, legacy, parse).Some? {
      ContextOfShapes(rules[..|rules| - 1], legacy, parse);
      ContextOfShape(rules[|rules| - 1], legacy, parse);
      var front := RuleShapes(rules[..|rules| - 1], legacy, parse).value;
      var last := RuleShape(rules[|rules| - 1], legacy, parse).value;
      assert (front + [last])[..|front|] == front;
    }
  }

  ghost predicate DnsHit(read: DomainReader, p: Projection, c: Connection) {
    p.dns.Some? && Matches(read, p.dns.value, c)
  }

  /** The split at one connection: DNS and subnets are always matches, and every match is found by
      DNS, by the subnets, or, for TCP and UDP, by the transport subnets. */
  ghost predicate SplitAt(read: DomainReader, rules: seq<Rule>, p: Projection, c: Connection) {
    && (DnsHit(read, p, c) || InPrefixes(p.subnets, c.address) ==> AnyMatch(read, rules, c))
    && (AnyMatch(read, rules, c) ==>
          || DnsHit(read, p, c)
          || InPrefixes(p.subnets, c.address)
          || (Proxyable(c) && InPrefixes(p.transportSubnets, c.address)))
    && (c.domain.None? ==> !DnsHit(read, p, c))
  }

  ghost predicate Splits(rules: seq<Rule>, p: Projection) {
    forall read: DomainReader, c: Connection :: SplitAt(read, rules, p, c)
  }

  /** Some address lies outside everything the projection intercepts by address. */
  ghost predicate LeavesSome(p: Projection) {
    exists a: Address :: !InPrefixes(p.subnets, a) && !InPrefixes(p.transportSubnets, a)
  }

  /** The rules match every connection that has no known domain. */
  ghost predicate MatchesAllAddresses(rules: seq<Rule>) {
    forall read: DomainReader, c: Connection :: c.domain.None? ==> AnyMatch(read, rules, c)
  }

  function PartPrefixes(part: Option<seq<Range>>): seq<Prefix> {
    if part.None? then [] else Prefixes(part.value)
  }

  function ProjectionOf(e: Expr): Projection {
    Projection(e.domain, PartPrefixes(e.address), PartPrefixes(e.transport))
  }

  lemma {:induction false} PartMembers(part: Option<seq<Range>>, a: Address)
    ensures InPrefixes(PartPrefixes(part), a) <==> InSet(part, a)
  {
    if part.Some? {
      PrefixesExact(part.value, a);
    }
  }

  lemma {:induction false} PartAligned(part: Option<seq<Range>>)
    ensures AllAligned(PartPrefixes(part))
  {
    if part.Some? {
      PrefixesAligned(part.value);
    }
  }

  lemma {:induction false} ProjectionSplits(rules: seq<Rule>, e: Expr)
    requires Faithful(Logical(Or, rules, false), e) && Sound(e) && !e.emptyDomain
    ensures Splits(rules, ProjectionOf(e))
  {
    forall read: DomainReader, c: Connection
      ensures SplitAt(read, rules, ProjectionOf(e), c)
    {
      assert FaithfulAt(read, Logical(Or, rules, false), e, c);
      PartMembers(e.address, c.address);
      PartMembers(e.transport, c.address);
    }
  }

  /** A part that is not everything leaves an address out. */
  lemma {:induction false} PartLeavesSome(rs: seq<Range>)
    requires Canonical(rs)
    ensures Prefixes(rs) != ALL_ADDRESSES <==> !CoversAll(rs)
  {
    FullPrefix(rs);
    FullSet(rs);
  }

  lemma {:induction false} Leaves(e: Expr, m: Expr)
    requires Sound(e)
    requires e.address.Some? ==> !CoversAll(e.address.value)
    requires e.transport.Some? ==> !CoversAll(e.transport.value)
    requires e.address.Some? && e.transport.Some? ==> EnvelopeOf(AddressOnly(e), m) && !CoversAll(m.address.value)
    ensures LeavesSome(ProjectionOf(e))
  {
    var a: Address;
    if e.address.Some? && e.transport.Some? {
      a :| !Covers(m.address.value, a);
    } else if e.address.Some? {
      a :| !Covers(e.address.value, a);
    } else if e.transport.Some? {
      a :| !Covers(e.transport.value, a);
    } else {
      a := 0;
    }
    PartMembers(e.address, a);
    PartMembers(e.transport, a);
  }

  lemma {:induction false} EmptyDomainMatchesAll(rules: seq<Rule>, e: Expr)
    requires Faithful(Logical(Or, rules, false), e) && Sound(e)
    requires e.emptyDomain || (e.address.Some? && CoversAll(e.address.value))
    ensures MatchesAllAddresses(rules)
  {
    forall read: DomainReader, c: Connection | c.domain.None?
      ensures AnyMatch(read, rules, c)
    {
      assert FaithfulAt(read, Logical(Or, rules, false), e, c);
    }
  }

  function AddressOnly(e: Expr): Expr {
    Expr(None, e.address, false, e.transport)
  }

  /** A set that leaves something out and whose notation stays within the value budget. */
  method CheckPrefixes(ranges: seq<Range>) returns (failed: Option<Error>)
    requires Canonical(ranges)
    ensures failed.None? ==> !CoversAll(ranges) && |Prefixes(ranges)| <= MAX_VALUES
    ensures failed == Some(Unbounded) <==> CoversAll(ranges)
    ensures failed.Some? ==> failed.value != Unsupported
  {
    PartLeavesSome(ranges);
    var prefixes := Prefixes(ranges);
    if |prefixes| == 1 && prefixes[0] == Prefix(0, 0) {
      assert prefixes == ALL_ADDRESSES;
      return Some(Unbounded);
    }
    if |prefixes| > MAX_VALUES {
      return Some(Exhausted);
    }
    return None;
  }

  /** Refuses a split that would take in the whole address space. */
  method CheckBounded(e: Expr, work: Budget) returns (failed: Option<Error>)
    requires Sound(e) && Partial(e)
    modifies work`remaining
    ensures failed.None? ==> !e.emptyDomain && LeavesSome(ProjectionOf(e))
    ensures failed.None? ==> |PartPrefixes(e.address)| <= MAX_VALUES && |PartPrefixes(e.transport)| <= MAX_VALUES
    ensures failed.Some? ==> failed.value != Unsupported
    ensures failed == Some(Unbounded) && e.transport.None? ==>
              e.emptyDomain || (e.address.Some? && CoversAll(e.address.value))
  {
    var both := AddressOnly(e);
    if e.transport.Some? && e.address.Some? {
      var envelope := Envelope(both, work);
      if envelope.Err? {
        return Some(Exhausted);
      }
      both := envelope.value;
      var prefixes := Prefixes(both.address.value);
      PartLeavesSome(both.address.value);
      if |prefixes| == 1 && prefixes[0].bits == 0 {
        return Some(Unbounded);
      }
      assert prefixes != ALL_ADDRESSES;
    }
    if e.emptyDomain {
      return Some(Unbounded);
    }
    if e.address.Some? {
      failed := CheckPrefixes(e.address.value);
      if failed.Some? {
        return;
      }
    }
    if e.transport.Some? {
      failed := CheckPrefixes(e.transport.value);
      if failed.Some? {
        return;
      }
    }
    Leaves(e, both);
    return None;
  }

  /** Compiles a decoded rule set. Rules are alternatives. Whatever the nesting, the projection keeps
      the meaning of the set, exactly when no rule carries context, and never covers every address;
      a refusal means that the set cannot be split, is too large, or really is unbounded. */
  method ProjectNative(rules: seq<Rule>, legacy: bool, parse: RegexParser) returns (res: Result<Projection>)
    ensures res.Ok? ==> Splits(rules, res.value) && LeavesSome(res.value)
    ensures res.Ok? ==> AllAligned(res.value.subnets) && AllAligned(res.value.transportSubnets)
    ensures res.Ok? && !AnyHasContext(rules) ==> res.value.transportSubnets == []
    ensures res.Ok? && res.value.dns.Some? ==> DomainOnly(res.value.dns.value)
    ensures res.Ok? ==> NodesOf(rules) <= MAX_NODES && HeightOf(rules) <= MAX_DEPTH + 1 && ValuesOf(rules) <= MAX_VALUES
    ensures res.Ok? ==> |res.value.subnets| <= MAX_VALUES && |res.value.transportSubnets| <= MAX_VALUES
    ensures res.Err? && res.error == Unsupported ==> RuleShape(Logical(Or, rules, false), legacy, parse).None?
    ensures res.Ok? ==> RuleShape(Logical(Or, rules, false), legacy, parse).Some?
    ensures res.Err? && res.error == Unbounded && !AnyHasContext(rules) ==> MatchesAllAddresses(rules)
  {
    if |rules| == 0 {
      return Err(Unsupported);
    }
    var work := new Budget(legacy, parse);
    var parts := CompileList(rules, 0, work);
    if parts.Err? {
      return Err(parts.error);
    }
    var combined := CombineNative(parts.value, Or, false, work);
    if combined.Err? {
      return Err(combined.error);
    }
    var e := combined.value;
    CombinedIsFaithful(rules, parts.value, Or, false, e);
    CombinedIsPartial(parts.value, Or, false, e);
    ContextOfShapes(rules, legacy, parse);
    var failed := CheckBounded(e, work);
    if failed.Some? {
      if failed.value == Unbounded && e.transport.None? {
        EmptyDomainMatchesAll(rules, e);
      }
      return Err(failed.value);
    }
    ProjectionSplits(rules, e);
    PartAligned(e.address);
    PartAligned(e.transport);
    return Ok(ProjectionOf(e));
  }

  /** Without context the split is exact: a connection matches exactly when its domain or its address is listed. */
  lemma {:induction false} ExactSplit(read: DomainReader, rules: seq<Rule>, p: Projection, c: Connection)
    requires Splits(rules, p) && p.transportSubnets == []
    ensures AnyMatch(read, rules, c) <==> DnsHit(read, p, c) || InPrefixes(p.subnets, c.address)
  {
    assert SplitAt(read, rules, p, c);
  }
}
