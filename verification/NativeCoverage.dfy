/** From a native rule set to the kernel table: which matched packets the table marks. */
module NativeCoverage {
  import opened Basics
  import opened Ipv4
  import opened Options
  import opened Subnets
  import opened NativeRules
  import opened NativeProject
  import opened NftTable

  /** The prefixes of a projection are among the entries a table is built from. */
  predicate Carries(entries: seq<Entry>, ps: seq<Prefix>) {
    forall p :: p in ps ==> p.bits <= 32 && Block(p.base, p.bits) in entries
  }

  lemma {:induction false} CarriedPrefix(entries: seq<Entry>, ps: seq<Prefix>, a: Address)
    requires Carries(entries, ps) && AllAligned(ps) && InPrefixes(ps, a)
    ensures AnyEntry(entries, a)
  {
    var p :| p in ps && InPrefix(p, a);
    var k :| 0 <= k < |entries| && entries[k] == Block(p.base, p.bits);
    AlignedInSpace(p.base, p.bits);
    assert IsAligned(p);
    assert MaskedRange(p.base, p.bits) == Range(p.base, p.base + Pow2(32 - p.bits) - 1);
    CoversOne(MaskedRange(p.base, p.bits), a);
    assert Covers(EntryRanges(entries[k]), a);
  }

  /** The connection a packet opens, with no known domain. */
  function ConnectionOf(p: Packet): Connection {
    Connection(None, p.dst,
               if p.l4.Tcp? then TcpTo(p.port) else if p.l4.Udp? then UdpTo(p.port) else OtherTransport)
  }

  /** A table built from a configuration that carries the projection of accepted rules. */
  ghost predicate Serves(cfg: NftConfig, t: Ruleset, rules: seq<Rule>, projection: Projection) {
    && Enforces(cfg, t) && Splits(rules, projection)
    && AllAligned(projection.subnets) && AllAligned(projection.transportSubnets)
    && Carries(cfg.subnets, projection.subnets) && Carries(cfg.transportSubnets, projection.transportSubnets)
  }

  /** A client's IPv4 packet that the rules match and that is neither for a DNS port nor for a local address. */
  ghost predicate IsMatched(read: DomainReader, cfg: NftConfig, rules: seq<Rule>, p: Packet) {
    && p.iif == WgName(cfg) && p.family == V4
    && AnyMatch(read, rules, ConnectionOf(p))
    && !ToDnsPort(p) && !IsLocal(p.dst)
  }

  /** A matched packet is marked, and over TCP or UDP reaches the proxy, unless its source sends everything
      through the proxy and the packet is for the resolver or over another protocol. The exception is exact. */
  lemma {:induction false} MatchedIsMarked(read: DomainReader, cfg: NftConfig, t: Ruleset, rules: seq<Rule>,
                                           projection: Projection, p: Packet)
    requires Serves(cfg, t, rules, projection) && IsMatched(read, cfg, rules, p)
    ensures Mangled(t, p).mark == (if FromEgress(cfg, p) && (!HasPort(p) || p.dst == ResolverOf(cfg)) then p.mark else FWMARK)
    ensures !FromEgress(cfg, p) ==> Mangled(t, p).mark == FWMARK && (HasPort(p) ==> ReachesProxy(t, Mangled(t, p)))
    ensures FromEgress(cfg, p) && HasPort(p) && p.dst != ResolverOf(cfg) ==> ReachesProxy(t, Mangled(t, p))
  {
    assert SplitAt(read, rules, projection, ConnectionOf(p));
    if InPrefixes(projection.subnets, p.dst) {
      CarriedPrefix(cfg.subnets, projection.subnets, p.dst);
    } else {
      CarriedPrefix(cfg.transportSubnets, projection.transportSubnets, p.dst);
    }
    assert EnforcesAt(cfg, t, p);
    assert EnforcesAt(cfg, t, Mangled(t, p));
  }

  // ---------------------------------------------------------------- the exception is real

  /** 8.8.8.8 and 10.8.0.2 */
  const LISTED_ADDRESS: Address := 0x0808_0808
  const EGRESS_SOURCE: Address := 0x0A08_0002

  const PING_CONFIG := NftConfig([Single(EGRESS_SOURCE)], "wg0", "eth0", NoResolver, [Block(LISTED_ADDRESS, 32)], [])
  const PING_RULES := [Default(DefaultRule([], [Single(LISTED_ADDRESS)], [], [], [], false, false))]
  const PING_PROJECTION := Projection(None, [Prefix(LISTED_ADDRESS, 32)], [])
  const PING := Packet("wg0", "", V4, OtherLayer4, EGRESS_SOURCE, LISTED_ADDRESS, 0, false, 0)

  lemma {:induction false} OneEntry(e: Entry, a: Address)
    ensures AnyEntry([e], a) <==> Covers(EntryRanges(e), a)
  {
    assert [e][0] == e;
  }

  lemma {:induction false} OtherBlock(a: nat, base: nat, size: nat)
    requires size > 0 && a / size != base / size
    ensures !(base / size * size <= a < base / size * size + size)
  {
    if base / size * size <= a < base / size * size + size {
      SameBlock(a, base / size, size);
    }
  }

  lemma {:induction false} NotInBlock(base: Address, bits: nat, a: Address)
    requires bits <= 32 && a / Pow2(32 - bits) != base / Pow2(32 - bits)
    ensures !Covers(EntryRanges(Block(base, bits)), a)
  {
    CoversOne(MaskedRange(base, bits), a);
    OtherBlock(a, base, Pow2(32 - bits));
  }

  lemma {:induction false} ListedIsNotLocal()
    ensures !IsLocal(LISTED_ADDRESS)
  {
    assert Pow2(8) == 0x100;
    assert Pow2(16) == 0x100 * Pow2(8);
    assert Pow2(20) == 0x10 * Pow2(16);
    assert Pow2(24) == 0x10 * Pow2(20);
    assert Pow2(28) == 0x10 * Pow2(24);
    forall k | 0 <= k < |LOCAL_V4|
      ensures !Covers(EntryRanges(LOCAL_V4[k]), LISTED_ADDRESS)
    {
      NotInBlock(LOCAL_V4[k].base, LOCAL_V4[k].bits, LISTED_ADDRESS);
    }
  }

  /** The rule set matches the listed address and nothing else. */
  lemma {:induction false} PingRuleMatches(read: DomainReader, c: Connection)
    ensures AnyMatch(read, PING_RULES, c) <==> c.address == LISTED_ADDRESS
  {
    OneEntry(Single(LISTED_ADDRESS), c.address);
    CoversOne(Range(LISTED_ADDRESS, LISTED_ADDRESS), c.address);
    assert PING_RULES == [] + [PING_RULES[0]];
    MatchSnoc(read, [], PING_RULES[0], c);
  }

  lemma {:induction false} PingIsMatched(read: DomainReader)
    ensures IsMatched(read, PING_CONFIG, PING_RULES, PING)
  {
    ListedIsNotLocal();
    PingRuleMatches(read, ConnectionOf(PING));
  }

  lemma {:induction false} PingSplits()
    ensures Splits(PING_RULES, PING_PROJECTION)
    ensures AllAligned(PING_PROJECTION.subnets) && Carries(PING_CONFIG.subnets, PING_PROJECTION.subnets)
  {
    var listed := Prefix(LISTED_ADDRESS, 32);
    assert Pow2(0) == 1;
    assert IsAligned(listed);
    assert Block(LISTED_ADDRESS, 32) == PING_CONFIG.subnets[0];
    forall read: DomainReader, c: Connection
      ensures SplitAt(read, PING_RULES, PING_PROJECTION, c)
    {
      PingRuleMatches(read, c);
      InOnePrefix(listed, c.address);
    }
  }

  lemma {:induction false} PingIsAccepted()
    ensures Refusal(PING_CONFIG) == None
  {
    assert !IsBlank("wg0") && !IsBlank("eth0");
    assert ExactSources(PING_CONFIG.peerEgress, 1);
  }

  /** The daemon builds a table for that configuration. */
  method PingIsServed() returns (t: Ruleset)
    ensures Serves(PING_CONFIG, t, PING_RULES, PING_PROJECTION)
  {
    PingIsAccepted();
    PingSplits();
    var res := BuildNftRuleset(PING_CONFIG);
    t := res.ruleset;
  }

  /** A ping from a whole-Internet source to a listed address is matched and yet stays unmarked. */
  lemma {:induction false} EgressPingStaysUnmarked(read: DomainReader, t: Ruleset)
    requires Serves(PING_CONFIG, t, PING_RULES, PING_PROJECTION)
    ensures IsMatched(read, PING_CONFIG, PING_RULES, PING) && Mangled(t, PING).mark == 0
  {
    PingIsMatched(read);
    OneEntry(Single(EGRESS_SOURCE), EGRESS_SOURCE);
    CoversOne(Range(EGRESS_SOURCE, EGRESS_SOURCE), EGRESS_SOURCE);
    MatchedIsMarked(read, PING_CONFIG, t, PING_RULES, PING_PROJECTION, PING);
  }
}
