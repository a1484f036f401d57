/** Native rule sets: what the runtime makes of a nested AND/OR/NOT rule
    (internal/lists/native.go states the meaning its compiler relies on). */
module NativeRules {
  import opened Ipv4
  import opened Options
  import opened Subnets

  datatype DomainItem = Exact(text: string) | Suffix(text: string) | Keyword(text: string) | Regex(text: string)

  datatype Network = Tcp | Udp | OtherNetwork

  /** A parsed port range; `BadPorts` is text that does not parse or has its ends crossed. */
  datatype PortRange = Ports(lo: nat, hi: nat) | BadPorts

  /** Address items are parsed entries: `Junk` is IPv6, `Blank` is text that does not parse. */
  datatype DefaultRule = DefaultRule(
    domains: seq<DomainItem>,
    addresses: seq<Entry>,
    networks: seq<Network>,
    ports: seq<nat>,
    portRanges: seq<PortRange>,
    invert: bool,
    foreign: bool)  // carries a field outside the whitelist

  datatype Mode = And | Or | BadMode

  datatype Rule =
    | Default(rule: DefaultRule)
    | Logical(mode: Mode, rules: seq<Rule>, invert: bool)
    | UnknownRule

  /** Transport of a connection. Ports belong to TCP and UDP only. */
  datatype Transport = TcpTo(port: nat) | UdpTo(port: nat) | OtherTransport

  datatype Connection = Connection(domain: Option<string>, address: Address, transport: Transport)

  /** How one domain item reads a domain name; left to the runtime. */
  type DomainReader = (DomainItem, string) -> bool

  predicate Proxyable(c: Connection) {
    !c.transport.OtherTransport?
  }

  // ---------------------------------------------------------------- meaning

  ghost predicate AnyReads(read: DomainReader, items: seq<DomainItem>, name: string) {
    exists i :: 0 <= i < |items| && read(items[i], name)
  }

  /** Domain items never hold when no domain is known. */
  ghost predicate DomainHit(read: DomainReader, items: seq<DomainItem>, domain: Option<string>) {
    domain.Some? && AnyReads(read, items, domain.value)
  }

  ghost predicate NetworkHit(networks: seq<Network>, t: Transport) {
    || networks == []
    || (t.TcpTo? && Tcp in networks)
    || (t.UdpTo? && Udp in networks)
  }

  ghost predicate InPorts(ports: seq<nat>, ranges: seq<PortRange>, port: nat) {
    port in ports || exists i :: 0 <= i < |ranges| && ranges[i].Ports? && ranges[i].lo <= port <= ranges[i].hi
  }

  ghost predicate PortHit(ports: seq<nat>, ranges: seq<PortRange>, t: Transport) {
    (ports == [] && ranges == []) || (!t.OtherTransport? && InPorts(ports, ranges, t.port))
  }

  /** Domain and address items are alternatives; network and port items restrict them. */
  ghost predicate DefaultHit(read: DomainReader, d: DefaultRule, c: Connection) {
    && (|| (d.domains == [] && d.addresses == [])
        || DomainHit(read, d.domains, c.domain)
        || AnyEntry(d.addresses, c.address))
    && NetworkHit(d.networks, c.transport)
    && PortHit(d.ports, d.portRanges, c.transport)
  }

  /** Whether the runtime matches a connection against a rule. */
  ghost predicate Matches(read: DomainReader, r: Rule, c: Connection)
    decreases r, 1
  {
    match r
    case Default(d) => DefaultHit(read, d, c) != d.invert
    case Logical(mode, rules, invert) =>
      (if mode == And then AllMatch(read, rules, c) else AnyMatch(read, rules, c)) != invert
    case UnknownRule => false
  }

  ghost predicate AllMatch(read: DomainReader, rules: seq<Rule>, c: Connection)
    decreases rules, 0
  {
    rules != [] ==> AllMatch(read, rules[..|rules| - 1], c) && Matches(read, rules[|rules| - 1], c)
  }

  ghost predicate AnyMatch(read: DomainReader, rules: seq<Rule>, c: Connection)
    decreases rules, 0
  {
    rules != [] && (AnyMatch(read, rules[..|rules| - 1], c) || Matches(read, rules[|rules| - 1], c))
  }

  lemma {:induction false} MatchSnoc(read: DomainReader, rules: seq<Rule>, r: Rule, c: Connection)
    ensures AllMatch(read, rules + [r], c) <==> AllMatch(read, rules, c) && Matches(read, r, c)
    ensures AnyMatch(read, rules + [r], c) <==> AnyMatch(read, rules, c) || Matches(read, r, c)
  {
    assert (rules + [r])[..|rules|] == rules;
  }

  // ---------------------------------------------------------------- domain rules

  /** A rule made of domain items only. */
  predicate DomainOnly(r: Rule)
    decreases r, 1
  {
    match r
    case Default(d) =>
      d.domains != [] && d.addresses == [] && d.networks == [] && d.ports == [] && d.portRanges == []
    case Logical(mode, rules, _) => AllDomainOnly(rules)
    case UnknownRule => false
  }

  predicate AllDomainOnly(rules: seq<Rule>)
    decreases rules, 0
  {
    rules != [] ==> AllDomainOnly(rules[..|rules| - 1]) && DomainOnly(rules[|rules| - 1])
  }

  /** A domain rule looks at the domain and nothing else. */
  lemma {:induction false} DomainOnlyIgnoresRest(read: DomainReader, r: Rule, c: Connection, e: Connection)
    requires DomainOnly(r) && c.domain == e.domain
    ensures Matches(read, r, c) == Matches(read, r, e)
    decreases r, 1
  {
    match r
    case Default(d) =>
    case Logical(mode, rules, invert) => AllDomainOnlyIgnoreRest(read, rules, c, e);
  }

  lemma {:induction false} AllDomainOnlyIgnoreRest(read: DomainReader, rules: seq<Rule>, c: Connection, e: Connection)
    requires AllDomainOnly(rules) && c.domain == e.domain
    ensures AllMatch(read, rules, c) == AllMatch(read, rules, e)
    ensures AnyMatch(read, rules, c) == AnyMatch(read, rules, e)
    decreases rules, 0
  {
    if rules != [] {
      AllDomainOnlyIgnoreRest(read, rules[..|rules| - 1], c, e);
      DomainOnlyIgnoresRest(read, rules[|rules| - 1], c, e);
    }
  }

  /** The rule with its inversion toggled. */
  function Negated(r: Rule): Rule {
    match r
    case Default(d) => Default(d.(invert := !d.invert))
    case Logical(mode, rules, invert) => Logical(mode, rules, !invert)
    case UnknownRule => UnknownRule
  }

  lemma {:induction false} NegatedMatches(read: DomainReader, r: Rule, c: Connection)
    requires DomainOnly(r)
    ensures DomainOnly(Negated(r)) && Matches(read, Negated(r), c) == !Matches(read, r, c)
  {
    match r
    case Default(d) => assert DefaultHit(read, d.(invert := !d.invert), c) == DefaultHit(read, d, c);
    case Logical(mode, rules, invert) =>
  }
}
