/** The kernel table built from the daemon's state, and what its chains do to a packet
    (internal/netstack/nft_rules.go). */
module NftTable {
  import opened Basics
  import opened Ipv4
  import opened Options
  import opened Subnets

  const FWMARK: bv32 := 0x0010_0000
  const DNS_PORT := 53
  const DOT_PORT := 853
  const DEFAULT_WG := "wg0"

  /** 10.8.0.1, the address the daemon's DNS listens on unless told otherwise. */
  const DEFAULT_RESOLVER: Address := 0x0A08_0001

  /** 198.18.0.0/15 */
  const FAKE_IP := Prefix(0xC612_0000, 15)

  /** Private and special destinations, which clients reach directly even when a list names them:
      0/8, 10/8, 127/8, 169.254/16, 172.16/12, 192.168/16, 224/4 and 240/4. */
  const LOCAL_V4: seq<Entry> := [
    Block(0x0000_0000, 8), Block(0x0A00_0000, 8), Block(0x7F00_0000, 8), Block(0xA9FE_0000, 16),
    Block(0xAC10_0000, 12), Block(0xC0A8_0000, 16), Block(0xE000_0000, 4), Block(0xF000_0000, 4)]

  // ---------------------------------------------------------------- rules and packets

  datatype Family = V4 | V6

  datatype Layer4 = Tcp | Udp | OtherLayer4

  /** The first packet of a connection at one hook. Addresses mean something for IPv4 only,
      the port for TCP and UDP only. */
  datatype Packet = Packet(
    iif: string, oif: string, family: Family, l4: Layer4,
    src: Address, dst: Address, port: nat, syn: bool, mark: bv32)

  datatype SetName = LocalV4 | ListSubnets | TransportSubnets | PeerEgress

  datatype Action = Return | Mark | TProxy | Masquerade | ClampMss | Reject | Dnat(to: Address, toPort: nat)

  /** Conditions of one rule; an absent, empty or zero condition matches anything. The only mark
      a rule ever matches is `FWMARK`. */
  datatype NftRule = NftRule(
    iif: string, iifNeq: bool, oif: string, family: Option<Family>,
    dstPrefix: Option<Prefix>, dstPrefixNeq: bool,
    dstSet: Option<SetName>, srcSet: Option<SetName>,
    l4: Option<Layer4>, dstPort: nat, markMatch: bool, tcpSyn: bool,
    action: Action)

  const ANY_PACKET := NftRule("", false, "", None, None, false, None, None, None, 0, false, false, Return)
  const ANY_V4 := ANY_PACKET.(family := Some(V4))

  datatype NftSet = NftSet(name: SetName, elements: seq<Range>)

  datatype Ruleset = Ruleset(
    sets: seq<NftSet>,
    mangle: seq<NftRule>, proxy: seq<NftRule>, dnsnat: seq<NftRule>,
    forward: seq<NftRule>, postrouting: seq<NftRule>,
    skipped: nat)

  // ---------------------------------------------------------------- what the kernel does with them

  ghost predicate InNamed(sets: seq<NftSet>, name: SetName, a: Address) {
    sets != [] && (if sets[0].name == name then Covers(sets[0].elements, a) else InNamed(sets[1..], name, a))
  }

  ghost predicate RuleMatches(sets: seq<NftSet>, r: NftRule, p: Packet) {
    && (r.iif != "" ==> (p.iif == r.iif) != r.iifNeq)
    && (r.oif != "" ==> p.oif == r.oif)
    && (r.family.Some? ==> p.family == r.family.value)
    && (r.markMatch ==> p.mark & FWMARK == FWMARK)
    && (r.l4.Some? ==> p.l4 == r.l4.value)
    && (r.dstPrefix.Some? ==> InPrefix(r.dstPrefix.value, p.dst) != r.dstPrefixNeq)
    && (r.srcSet.Some? ==> InNamed(sets, r.srcSet.value, p.src))
    && (r.dstSet.Some? ==> InNamed(sets, r.dstSet.value, p.dst))
    && (r.dstPort != 0 ==> p.port == r.dstPort)
    && (r.tcpSyn ==> p.syn)
  }

  /** How a chain left a packet: it ran to its end, left early, or had a verdict. */
  datatype Verdict = Continued | Returned | Proxied | Masqueraded | Rejected | Rewritten

  datatype Outcome = Outcome(packet: Packet, verdict: Verdict)

  /** Marking and MSS clamping are not terminal; everything else ends the chain. */
  function Act(a: Action, p: Packet): Outcome {
    match a
    case Return => Outcome(p, Returned)
    case Mark => Outcome(p.(mark := FWMARK), Continued)
    case TProxy => Outcome(p, Proxied)
    case Masquerade => Outcome(p, Masqueraded)
    case ClampMss => Outcome(p, Continued)
    case Reject => Outcome(p, Rejected)
    case Dnat(to, toPort) => Outcome(p.(dst := to, port := toPort), Rewritten)
  }

  ghost function RunRule(sets: seq<NftSet>, r: NftRule, p: Packet): Outcome {
    if RuleMatches(sets, r, p) then Act(r.action, p) else Outcome(p, Continued)
  }

  ghost function Run(sets: seq<NftSet>, rules: seq<NftRule>, p: Packet): Outcome {
    if rules == [] then Outcome(p, Continued)
    else
      var first := RunRule(sets, rules[0], p);
      if first.verdict.Continued? then Run(sets, rules[1..], first.packet) else first
  }

  lemma {:induction false} RunConcat(sets: seq<NftSet>, xs: seq<NftRule>, ys: seq<NftRule>, p: Packet)
    ensures Run(sets, xs + ys, p) ==
            var first := Run(sets, xs, p);
            if first.verdict.Continued? then Run(sets, ys, first.packet) else first
    decreases |xs|
  {
    if xs == [] {
      assert xs + ys == ys;
    } else {
      assert (xs + ys)[1..] == xs[1..] + ys;
      RunConcat(sets, xs[1..], ys, RunRule(sets, xs[0], p).packet);
    }
  }

  lemma {:induction false} RunOne(sets: seq<NftSet>, r: NftRule, p: Packet)
    ensures Run(sets, [r], p) == RunRule(sets, r, p)
  {
    assert [r][1..] == [];
  }

  // ---------------------------------------------------------------- configuration

  datatype ResolverText = NoResolver | Resolver(address: Address) | BadResolver

  datatype NftConfig = NftConfig(
    peerEgress: seq<Entry>, wg: string, wan: string, resolver: ResolverText,
    subnets: seq<Entry>, transportSubnets: seq<Entry>)

  datatype ConfigError = NoWg | NoWan | UnusableResolver | BadEgress

  datatype Built = Ok(ruleset: Ruleset) | Err(error: ConfigError)

  predicate IsBlank(s: string) {
    s != "" ==> s[0] in " \t\n\U{B}\U{C}\r" && IsBlank(s[1..])
  }

  function WgName(cfg: NftConfig): string {
    if cfg.wg == "" then DEFAULT_WG else cfg.wg
  }

  function ResolverOf(cfg: NftConfig): Address {
    if cfg.resolver.Resolver? then cfg.resolver.address else DEFAULT_RESOLVER
  }

  predicate ExactSources(entries: seq<Entry>, i: nat := 0)
    requires i <= |entries|
    decreases |entries| - i
  {
    i < |entries| ==> entries[i].Single? && ExactSources(entries, i + 1)
  }

  /** Why a configuration is refused, if it is. */
  function Refusal(cfg: NftConfig): Option<ConfigError> {
    if IsBlank(WgName(cfg)) then Some(NoWg)
    else if IsBlank(cfg.wan) then Some(NoWan)
    else if cfg.resolver.BadResolver? then Some(UnusableResolver)
    else if !ExactSources(cfg.peerEgress) then Some(BadEgress)
    else None
  }

  // ---------------------------------------------------------------- building the table

  /** The rule for UDP and for TCP. */
  function PortRules(base: NftRule): seq<NftRule> {
    [base.(l4 := Some(Udp)), base.(l4 := Some(Tcp))]
  }

  function DnsExits(): seq<NftRule> {
    PortRules(ANY_V4.(dstPort := DNS_PORT, action := Return)) + PortRules(ANY_V4.(dstPort := DOT_PORT, action := Return))
  }

  function EgressResolverExit(resolver: Address): seq<NftRule> {
    [ANY_V4.(srcSet := Some(PeerEgress), dstPrefix := Some(Prefix(resolver, 32)), action := Return)]
  }

  function EgressMarks(): seq<NftRule> {
    PortRules(ANY_V4.(srcSet := Some(PeerEgress), action := Mark)) +
    [ANY_V4.(srcSet := Some(PeerEgress), action := Return)]
  }

  function ListMarks(): seq<NftRule> {
    [ANY_V4.(dstPrefix := Some(FAKE_IP), action := Mark), ANY_V4.(dstSet := Some(ListSubnets), action := Mark)]
  }

  function TransportMarks(): seq<NftRule> {
    PortRules(ANY_V4.(dstSet := Some(TransportSubnets), action := Mark))
  }

  function ProxyRules(): seq<NftRule> {
    [ANY_V4.(markMatch := true, l4 := Some(Tcp), action := TProxy),
     ANY_V4.(markMatch := true, l4 := Some(Udp), action := TProxy)]
  }

  function DnsNatRules(wg: string, resolver: Address): seq<NftRule> {
    PortRules(ANY_V4.(iif := wg, dstPort := DNS_PORT, dstPrefix := Some(Prefix(resolver, 32)), dstPrefixNeq := true,
                      action := Dnat(resolver, DNS_PORT)))
  }

  function ForwardHead(wg: string): seq<NftRule> {
    [ANY_V4.(iif := wg, l4 := Some(Tcp), tcpSyn := true, action := ClampMss),
     ANY_V4.(oif := wg, l4 := Some(Tcp), tcpSyn := true, action := ClampMss),
     ANY_PACKET.(iif := wg, family := Some(V6), action := Reject)]
  }

  function EgressReject(wg: string): seq<NftRule> {
    [ANY_V4.(iif := wg, srcSet := Some(PeerEgress), action := Reject)]
  }

  function DotReject(wg: string): seq<NftRule> {
    PortRules(ANY_V4.(iif := wg, dstPort := DOT_PORT, action := Reject))
  }

  // ---------------------------------------------------------------- what the table is for

  predicate HasPort(p: Packet) {
    p.l4.Tcp? || p.l4.Udp?
  }

  predicate ToDnsPort(p: Packet) {
    HasPort(p) && (p.port == DNS_PORT || p.port == DOT_PORT)
  }

  ghost predicate IsLocal(a: Address) {
    AnyEntry(LOCAL_V4, a)
  }

  ghost predicate FromEgress(cfg: NftConfig, p: Packet) {
    AnyEntry(cfg.peerEgress, p.src)
  }

  /** Destinations that are proxied for ordinary sources. */
  ghost predicate Listed(cfg: NftConfig, p: Packet) {
    || InPrefix(FAKE_IP, p.dst)
    || AnyEntry(cfg.subnets, p.dst)
    || (HasPort(p) && AnyEntry(cfg.transportSubnets, p.dst))
  }

  /** The one condition under which a packet is marked. */
  ghost predicate Marks(cfg: NftConfig, p: Packet) {
    && p.iif == WgName(cfg) && p.family == V4
    && !ToDnsPort(p) && !IsLocal(p.dst)
    && if FromEgress(cfg, p) then HasPort(p) && p.dst != ResolverOf(cfg) else Listed(cfg, p)
  }

  predicate CarriesMark(p: Packet) {
    p.mark & FWMARK == FWMARK
  }

  predicate IsProxied(p: Packet) {
    p.family == V4 && CarriesMark(p) && HasPort(p)
  }

  predicate IsRedirected(cfg: NftConfig, p: Packet) {
    && p.iif == WgName(cfg) && p.family == V4
    && HasPort(p) && p.port == DNS_PORT && p.dst != ResolverOf(cfg)
  }

  ghost predicate IsRefused(cfg: NftConfig, p: Packet) {
    && p.iif == WgName(cfg)
    && (p.family == V6 || FromEgress(cfg, p) || (HasPort(p) && p.port == DOT_PORT))
  }

  /** A table that does for one packet, chain by chain, what the configuration asks for. */
  ghost predicate EnforcesAt(cfg: NftConfig, t: Ruleset, p: Packet) {
    && Run(t.sets, t.mangle, p).packet == p.(mark := if Marks(cfg, p) then FWMARK else p.mark)
    && Run(t.sets, t.proxy, p) == Outcome(p, if IsProxied(p) then Proxied else Continued)
    && Run(t.sets, t.dnsnat, p) == (if IsRedirected(cfg, p) then Outcome(p.(dst := ResolverOf(cfg), port := DNS_PORT), Rewritten)
                                    else Outcome(p, Continued))
    && Run(t.sets, t.forward, p) == Outcome(p, if IsRefused(cfg, p) then Rejected else Continued)
    && Run(t.sets, t.postrouting, p) ==
         Outcome(p, if p.iif == WgName(cfg) && p.oif == cfg.wan then Masqueraded else Continued)
  }

  ghost predicate Enforces(cfg: NftConfig, t: Ruleset) {
    forall p: Packet :: EnforcesAt(cfg, t, p)
  }

  // ---------------------------------------------------------------- chain by chain

  lemma {:induction false} RunPair(sets: seq<NftSet>, x: NftRule, y: NftRule, p: Packet)
    ensures Run(sets, [x, y], p) ==
            var first := RunRule(sets, x, p);
            if first.verdict.Continued? then RunRule(sets, y, first.packet) else first
  {
    assert [x] + [y] == [x, y];
    RunConcat(sets, [x], [y], p);
    RunOne(sets, x, p);
    RunOne(sets, y, RunRule(sets, x, p).packet);
  }

  /** A condition repeated for UDP and TCP. */
  ghost predicate PortRuleMatches(sets: seq<NftSet>, base: NftRule, p: Packet) {
    HasPort(p) && RuleMatches(sets, base, p)
  }

  lemma {:induction false} PortHalf(sets: seq<NftSet>, base: NftRule, l4: Layer4, p: Packet)
    requires base.l4.None?
    ensures RuleMatches(sets, base.(l4 := Some(l4)), p) == (RuleMatches(sets, base, p) && p.l4 == l4)
    ensures Act(base.action, p).packet.l4 == p.l4
  {
  }

  lemma {:induction false} RunPortRules(sets: seq<NftSet>, base: NftRule, p: Packet)
    requires base.l4.None?
    ensures Run(sets, PortRules(base), p) == if PortRuleMatches(sets, base, p) then Act(base.action, p) else Outcome(p, Continued)
  {
    PortHalf(sets, base, Udp, p);
    PortHalf(sets, base, Tcp, p);
    RunPair(sets, base.(l4 := Some(Udp)), base.(l4 := Some(Tcp)), p);
    if p.l4.Udp? && RuleMatches(sets, base, p) {
      PortHalf(sets, base, Tcp, Act(base.action, p).packet);
    }
  }

  /** The sets a table of this configuration has; a set that would be empty is not created. */
  ghost predicate HasSets(cfg: NftConfig, sets: seq<NftSet>) {
    && SetHolds(sets, LocalV4, LOCAL_V4)
    && SetHolds(sets, ListSubnets, cfg.subnets)
    && SetHolds(sets, TransportSubnets, cfg.transportSubnets)
    && SetHolds(sets, PeerEgress, cfg.peerEgress)
  }

  ghost predicate SetHolds(sets: seq<NftSet>, name: SetName, entries: seq<Entry>) {
    forall a: Address :: InNamed(sets, name, a) <==> AnyEntry(entries, a)
  }

  lemma {:induction false} OneAddress(base: Address, a: Address)
    ensures InPrefix(Prefix(base, 32), a) <==> a == base
  {
    assert Pow2(0) == 1;
  }

  lemma {:induction false} DnsExitsRun(sets: seq<NftSet>, p: Packet)
    ensures Run(sets, DnsExits(), p) == Outcome(p, if p.family == V4 && ToDnsPort(p) then Returned else Continued)
  {
    var dns, dot := ANY_V4.(dstPort := DNS_PORT, action := Return), ANY_V4.(dstPort := DOT_PORT, action := Return);
    RunPortRules(sets, dns, p);
    RunPortRules(sets, dot, p);
    RunConcat(sets, PortRules(dns), PortRules(dot), p);
  }

  lemma {:induction false} EgressResolverExitRun(cfg: NftConfig, sets: seq<NftSet>, p: Packet)
    requires HasSets(cfg, sets)
    ensures Run(sets, EgressResolverExit(ResolverOf(cfg)), p) ==
            Outcome(p, if p.family == V4 && FromEgress(cfg, p) && p.dst == ResolverOf(cfg) then Returned else Continued)
  {
    RunOne(sets, EgressResolverExit(ResolverOf(cfg))[0], p);
    OneAddress(ResolverOf(cfg), p.dst);
    assert InNamed(sets, PeerEgress, p.src) == AnyEntry(cfg.peerEgress, p.src);
  }

  lemma {:induction false} EgressMarksRun(cfg: NftConfig, sets: seq<NftSet>, p: Packet)
    requires HasSets(cfg, sets)
    ensures Run(sets, EgressMarks(), p) ==
            if p.family == V4 && FromEgress(cfg, p) then
              Outcome(if HasPort(p) then p.(mark := FWMARK) else p, Returned)
            else Outcome(p, Continued)
  {
    var mark := ANY_V4.(srcSet := Some(PeerEgress), action := Mark);
    var exit := ANY_V4.(srcSet := Some(PeerEgress), action := Return);
    RunPortRules(sets, mark, p);
    var q := Run(sets, PortRules(mark), p).packet;
    RunConcat(sets, PortRules(mark), [exit], p);
    RunOne(sets, exit, q);
    assert InNamed(sets, PeerEgress, p.src) == AnyEntry(cfg.peerEgress, p.src);
  }

  lemma {:induction false} ListMarksRun(cfg: NftConfig, sets: seq<NftSet>, p: Packet)
    requires HasSets(cfg, sets)
    ensures Run(sets, ListMarks(), p) ==
            Outcome(if p.family == V4 && (InPrefix(FAKE_IP, p.dst) || AnyEntry(cfg.subnets, p.dst)) then p.(mark := FWMARK) else p,
                    Continued)
  {
    RunPair(sets, ListMarks()[0], ListMarks()[1], p);
    assert InNamed(sets, ListSubnets, p.dst) == AnyEntry(cfg.subnets, p.dst);
  }

  lemma {:induction false} TransportMarksRun(cfg: NftConfig, sets: seq<NftSet>, p: Packet)
    requires HasSets(cfg, sets)
    ensures Run(sets, TransportMarks(), p) ==
            Outcome(if p.family == V4 && HasPort(p) && AnyEntry(cfg.transportSubnets, p.dst) then p.(mark := FWMARK) else p,
                    Continued)
  {
    RunPortRules(sets, ANY_V4.(dstSet := Some(TransportSubnets), action := Mark), p);
    assert InNamed(sets, TransportSubnets, p.dst) == AnyEntry(cfg.transportSubnets, p.dst);
  }

  function LocalExit(): seq<NftRule> {
    [ANY_V4.(dstSet := Some(LocalV4), action := Return)]
  }

  function ForeignExit(wg: string): seq<NftRule> {
    [ANY_PACKET.(iif := wg, iifNeq := true, action := Return)]
  }

  lemma {:induction false} LocalExitRun(cfg: NftConfig, sets: seq<NftSet>, p: Packet)
    requires HasSets(cfg, sets)
    ensures Run(sets, LocalExit(), p) == Outcome(p, if p.family == V4 && IsLocal(p.dst) then Returned else Continued)
  {
    RunOne(sets, LocalExit()[0], p);
    assert InNamed(sets, LocalV4, p.dst) == AnyEntry(LOCAL_V4, p.dst);
  }

  /** What is before the marks: exits for foreign interfaces, DNS ports and local destinations. */
  function MangleHead(wg: string, resolver: Address, egress: bool): seq<NftRule> {
    ForeignExit(wg) + DnsExits() + (if egress then EgressResolverExit(resolver) else []) + LocalExit()
  }

  function MangleMarks(egress: bool, transport: bool): seq<NftRule> {
    (if egress then EgressMarks() else []) + ListMarks() + if transport then TransportMarks() else []
  }

  lemma {:induction false} MangleHeadRun(cfg: NftConfig, sets: seq<NftSet>, egress: bool, p: Packet)
    requires HasSets(cfg, sets) && WgName(cfg) != ""
    requires !egress ==> !FromEgress(cfg, p)
    ensures Run(sets, MangleHead(WgName(cfg), ResolverOf(cfg), egress), p) ==
            Outcome(p, if p.iif == WgName(cfg) && (p.family == V4 ==>
                           !ToDnsPort(p) && !IsLocal(p.dst) && !(FromEgress(cfg, p) && p.dst == ResolverOf(cfg)))
                       then Continued else Returned)
  {
    var foreign, dns, local := ForeignExit(WgName(cfg)), DnsExits(), LocalExit();
    var resolver := if egress then EgressResolverExit(ResolverOf(cfg)) else [];
    RunOne(sets, foreign[0], p);
    DnsExitsRun(sets, p);
    if egress {
      EgressResolverExitRun(cfg, sets, p);
    }
    LocalExitRun(cfg, sets, p);
    RunConcat(sets, foreign, dns, p);
    RunConcat(sets, foreign + dns, resolver, p);
    RunConcat(sets, foreign + dns + resolver, local, p);
  }

  lemma {:induction false} MangleMarksRun(cfg: NftConfig, sets: seq<NftSet>, egress: bool, transport: bool, p: Packet)
    requires HasSets(cfg, sets)
    requires !egress ==> !FromEgress(cfg, p)
    requires !transport ==> !AnyEntry(cfg.transportSubnets, p.dst)
    ensures Run(sets, MangleMarks(egress, transport), p).packet ==
            if p.family == V4 && (if FromEgress(cfg, p) then HasPort(p) else Listed(cfg, p)) then p.(mark := FWMARK) else p
  {
    var first := if egress then EgressMarks() else [];
    var last := if transport then TransportMarks() else [];
    if egress {
      EgressMarksRun(cfg, sets, p);
    }
    ListMarksRun(cfg, sets, p);
    var q := Run(sets, ListMarks(), p).packet;
    if transport {
      TransportMarksRun(cfg, sets, q);
    }
    RunConcat(sets, first, ListMarks(), p);
    RunConcat(sets, first + ListMarks(), last, p);
  }

  lemma {:induction false} MangleRun(cfg: NftConfig, sets: seq<NftSet>, egress: bool, transport: bool, p: Packet)
    requires HasSets(cfg, sets) && WgName(cfg) != ""
    requires !egress ==> !FromEgress(cfg, p)
    requires !transport ==> !AnyEntry(cfg.transportSubnets, p.dst)
    ensures Run(sets, MangleHead(WgName(cfg), ResolverOf(cfg), egress) + MangleMarks(egress, transport), p).packet
         == p.(mark := if Marks(cfg, p) then FWMARK else p.mark)
  {
    MangleHeadRun(cfg, sets, egress, p);
    MangleMarksRun(cfg, sets, egress, transport, p);
    RunConcat(sets, MangleHead(WgName(cfg), ResolverOf(cfg), egress), MangleMarks(egress, transport), p);
  }

  lemma {:induction false} ProxyRun(sets: seq<NftSet>, p: Packet)
    ensures Run(sets, ProxyRules(), p) == Outcome(p, if IsProxied(p) then Proxied else Continued)
  {
    RunPair(sets, ProxyRules()[0], ProxyRules()[1], p);
  }

  lemma {:induction false} DnsNatRun(cfg: NftConfig, sets: seq<NftSet>, p: Packet)
    requires WgName(cfg) != ""
    ensures Run(sets, DnsNatRules(WgName(cfg), ResolverOf(cfg)), p) ==
            if IsRedirected(cfg, p) then Outcome(p.(dst := ResolverOf(cfg), port := DNS_PORT), Rewritten)
            else Outcome(p, Continued)
  {
    RunPortRules(sets, ANY_V4.(iif := WgName(cfg), dstPort := DNS_PORT, dstPrefix := Some(Prefix(ResolverOf(cfg), 32)),
                               dstPrefixNeq := true, action := Dnat(ResolverOf(cfg), DNS_PORT)), p);
    OneAddress(ResolverOf(cfg), p.dst);
  }

  lemma {:induction false} ForwardHeadRun(cfg: NftConfig, sets: seq<NftSet>, p: Packet)
    requires WgName(cfg) != ""
    ensures Run(sets, ForwardHead(WgName(cfg)), p) ==
            Outcome(p, if p.iif == WgName(cfg) && p.family == V6 then Rejected else Continued)
  {
    var rules := ForwardHead(WgName(cfg));
    assert rules == [rules[0], rules[1]] + [rules[2]];
    RunPair(sets, rules[0], rules[1], p);
    RunOne(sets, rules[2], p);
    RunConcat(sets, [rules[0], rules[1]], [rules[2]], p);
  }

  function ForwardRules(wg: string, egress: bool): seq<NftRule> {
    ForwardHead(wg) + (if egress then EgressReject(wg) else []) + DotReject(wg)
  }

  lemma {:induction false} ForwardRun(cfg: NftConfig, sets: seq<NftSet>, egress: bool, p: Packet)
    requires HasSets(cfg, sets) && WgName(cfg) != ""
    requires !egress ==> !FromEgress(cfg, p)
    ensures Run(sets, ForwardRules(WgName(cfg), egress), p) == Outcome(p, if IsRefused(cfg, p) then Rejected else Continued)
  {
    var wg := WgName(cfg);
    var mid := if egress then EgressReject(wg) else [];
    ForwardHeadRun(cfg, sets, p);
    if egress {
      RunOne(sets, EgressReject(wg)[0], p);
      assert InNamed(sets, PeerEgress, p.src) == AnyEntry(cfg.peerEgress, p.src);
    }
    RunPortRules(sets, ANY_V4.(iif := wg, dstPort := DOT_PORT, action := Reject), p);
    RunConcat(sets, ForwardHead(wg), mid, p);
    RunConcat(sets, ForwardHead(wg) + mid, DotReject(wg), p);
  }

  // ---------------------------------------------------------------- the builder

  lemma {:induction false} MergedSet(entries: seq<Entry>, ranges: seq<Range>)
    requires ranges == Merge(AllRanges(entries))
    ensures forall a: Address :: Covers(ranges, a) <==> AnyEntry(entries, a)
  {
    forall a: Address {
      MergedMembers(entries, a);
    }
  }

  /** The sets as the builder lists them. */
  function SetList(local: seq<Range>, lists: seq<Range>, transport: seq<Range>, egress: seq<Range>): seq<NftSet> {
    [NftSet(LocalV4, local), NftSet(ListSubnets, lists)] + Optional(TransportSubnets, transport) + Optional(PeerEgress, egress)
  }

  /** A set that is left out when it is empty. */
  function Optional(name: SetName, ranges: seq<Range>): seq<NftSet> {
    if ranges == [] then [] else [NftSet(name, ranges)]
  }

  lemma {:induction false} LookupCons(first: NftSet, rest: seq<NftSet>, name: SetName, a: Address)
    ensures InNamed([first] + rest, name, a) == if first.name == name then Covers(first.elements, a) else InNamed(rest, name, a)
  {
    assert ([first] + rest)[1..] == rest;
  }

  lemma {:induction false} LookupOptional(name: SetName, ranges: seq<Range>, rest: seq<NftSet>, wanted: SetName, a: Address)
    ensures InNamed(Optional(name, ranges) + rest, wanted, a) ==
      if name == wanted && ranges != [] then Covers(ranges, a) else InNamed(rest, wanted, a)
  {
    if ranges == [] {
      assert Optional(name, ranges) + rest == rest;
    } else {
      LookupCons(NftSet(name, ranges), rest, wanted, a);
    }
  }

  /** What a list of sets holds under a name. */
  lemma {:induction false} LookupIn(local: seq<Range>, lists: seq<Range>, transport: seq<Range>, egress: seq<Range>, name: SetName, a: Address)
    ensures InNamed(SetList(local, lists, transport, egress), name, a) ==
      match name
      case LocalV4 => Covers(local, a)
      case ListSubnets => Covers(lists, a)
      case TransportSubnets => Covers(transport, a)
      case PeerEgress => Covers(egress, a)
  {
    var none: seq<NftSet> := [];
    var last := Optional(PeerEgress, egress) + none;
    var rest := Optional(TransportSubnets, transport) + last;
    var more := [NftSet(ListSubnets, lists)] + rest;
    assert SetList(local, lists, transport, egress) == [NftSet(LocalV4, local)] + more;
    LookupCons(NftSet(LocalV4, local), more, name, a);
    LookupCons(NftSet(ListSubnets, lists), rest, name, a);
    LookupOptional(TransportSubnets, transport, last, name, a);
    LookupOptional(PeerEgress, egress, none, name, a);
  }

  /** A lookup by name finds the set of that name, or nothing when the set was left out for being empty. */
  lemma {:induction false} SetListLookup(local: seq<Range>, lists: seq<Range>, transport: seq<Range>, egress: seq<Range>, a: Address)
    ensures var sets := SetList(local, lists, transport, egress);
            && InNamed(sets, LocalV4, a) == Covers(local, a)
            && InNamed(sets, ListSubnets, a) == Covers(lists, a)
            && InNamed(sets, TransportSubnets, a) == Covers(transport, a)
            && InNamed(sets, PeerEgress, a) == Covers(egress, a)
  {
    LookupIn(local, lists, transport, egress, LocalV4, a);
    LookupIn(local, lists, transport, egress, ListSubnets, a);
    LookupIn(local, lists, transport, egress, TransportSubnets, a);
    LookupIn(local, lists, transport, egress, PeerEgress, a);
  }

  lemma {:induction false} BuiltSets(cfg: NftConfig, local: seq<Range>, lists: seq<Range>, transport: seq<Range>, egress: seq<Range>)
    requires local == Merge(AllRanges(LOCAL_V4)) && lists == Merge(AllRanges(cfg.subnets))
    requires transport == Merge(AllRanges(cfg.transportSubnets)) && egress == Merge(AllRanges(cfg.peerEgress))
    ensures HasSets(cfg, SetList(local, lists, transport, egress))
    ensures egress == [] ==> forall a: Address :: !AnyEntry(cfg.peerEgress, a)
    ensures transport == [] ==> forall a: Address :: !AnyEntry(cfg.transportSubnets, a)
  {
    MergedSet(LOCAL_V4, local);
    MergedSet(cfg.subnets, lists);
    MergedSet(cfg.transportSubnets, transport);
    MergedSet(cfg.peerEgress, egress);
    forall a: Address {
      SetListLookup(local, lists, transport, egress, a);
    }
  }

  function PostroutingRules(wg: string, wan: string): seq<NftRule> {
    [ANY_PACKET.(iif := wg, oif := wan, action := Masquerade)]
  }

  lemma {:induction false} PostroutingRun(cfg: NftConfig, sets: seq<NftSet>, p: Packet)
    requires WgName(cfg) != "" && cfg.wan != ""
    ensures Run(sets, PostroutingRules(WgName(cfg), cfg.wan), p) ==
            Outcome(p, if p.iif == WgName(cfg) && p.oif == cfg.wan then Masqueraded else Continued)
  {
    RunOne(sets, PostroutingRules(WgName(cfg), cfg.wan)[0], p);
  }

  lemma {:induction false} BuiltEnforces(cfg: NftConfig, t: Ruleset, egress: bool, transport: bool)
    requires HasSets(cfg, t.sets) && WgName(cfg) != "" && cfg.wan != ""
    requires !egress ==> forall a: Address :: !AnyEntry(cfg.peerEgress, a)
    requires !transport ==> forall a: Address :: !AnyEntry(cfg.transportSubnets, a)
    requires t.mangle == MangleHead(WgName(cfg), ResolverOf(cfg), egress) + MangleMarks(egress, transport)
    requires t.proxy == ProxyRules() && t.dnsnat == DnsNatRules(WgName(cfg), ResolverOf(cfg))
    requires t.forward == ForwardRules(WgName(cfg), egress)
    requires t.postrouting == PostroutingRules(WgName(cfg), cfg.wan)
    ensures Enforces(cfg, t)
  {
    forall p: Packet
      ensures EnforcesAt(cfg, t, p)
    {
      MangleRun(cfg, t.sets, egress, transport, p);
      ProxyRun(t.sets, p);
      DnsNatRun(cfg, t.sets, p);
      ForwardRun(cfg, t.sets, egress, p);
      PostroutingRun(cfg, t.sets, p);
    }
  }

  /** Builds the whole table. It is refused exactly for an unusable interface, resolver or egress source;
      a table that is built does to every packet what the configuration asks for. */
  method BuildNftRuleset(cfg: NftConfig) returns (res: Built)
    ensures res.Err? == Refusal(cfg).Some?
    ensures res.Err? ==> Refusal(cfg) == Some(res.error)
    ensures res.Ok? ==> Enforces(cfg, res.ruleset)
    ensures res.Ok? ==> res.ruleset.skipped == SkippedCount(cfg.subnets) + SkippedCount(cfg.transportSubnets)
  {
    var wg := cfg.wg;
    if wg == "" {
      wg := DEFAULT_WG;
    }
    if IsBlank(wg) {
      return Err(NoWg);
    }
    if IsBlank(cfg.wan) {
      return Err(NoWan);
    }
    if cfg.resolver.BadResolver? {
      return Err(UnusableResolver);
    }
    var resolver := ResolverOf(cfg);
    var i := 0;
    while i < |cfg.peerEgress|
      invariant 0 <= i <= |cfg.peerEgress|
      invariant ExactSources(cfg.peerEgress) == ExactSources(cfg.peerEgress, i)
    {
      if !cfg.peerEgress[i].Single? {
        return Err(BadEgress);
      }
      i := i + 1;
    }
    var egress, _ := MergeSubnets(cfg.peerEgress);
    var local, _ := MergeSubnets(LOCAL_V4);
    var lists, skipped := MergeSubnets(cfg.subnets);
    var transport, transportSkipped := MergeSubnets(cfg.transportSubnets);
    BuiltSets(cfg, local, lists, transport, egress);
    var t := Ruleset(
      SetList(local, lists, transport, egress),
      MangleHead(wg, resolver, egress != []) + MangleMarks(egress != [], transport != []),
      ProxyRules(),
      DnsNatRules(wg, resolver),
      ForwardRules(wg, egress != []),
      PostroutingRules(wg, cfg.wan),
      skipped + transportSkipped);
    BuiltEnforces(cfg, t, egress != [], transport != []);
    return Ok(t);
  }

  // ---------------------------------------------------------------- one packet through prerouting

  ghost function Mangled(t: Ruleset, p: Packet): Packet {
    Run(t.sets, t.mangle, p).packet
  }

  /** The proxy chain takes a packet for the proxy; the packet itself stays as it is. */
  ghost predicate ReachesProxy(t: Ruleset, p: Packet) {
    Run(t.sets, t.proxy, p).verdict == Proxied
  }

  ghost function Redirect(t: Ruleset, p: Packet): Packet {
    Run(t.sets, t.dnsnat, p).packet
  }

  ghost predicate IsRewritten(t: Ruleset, p: Packet) {
    Run(t.sets, t.dnsnat, p).verdict == Rewritten
  }

  /** Proxy and DNS chains share a priority, so the kernel may run them in either order. */
  datatype Prerouted = Prerouted(packet: Packet, proxied: bool, rewritten: bool)

  ghost function ProxyThenNat(t: Ruleset, p: Packet): Prerouted {
    var m := Mangled(t, p);
    Prerouted(Redirect(t, m), ReachesProxy(t, m), IsRewritten(t, m))
  }

  ghost function NatThenProxy(t: Ruleset, p: Packet): Prerouted {
    var m := Mangled(t, p);
    Prerouted(Redirect(t, m), ReachesProxy(t, Redirect(t, m)), IsRewritten(t, m))
  }

  /** Both chains act on a packet exactly when it is a DNS query to a foreign resolver that came in
      with the mark already on it: the table itself never marks a packet it redirects. */
  lemma {:induction false} BothActExactly(cfg: NftConfig, t: Ruleset, p: Packet)
    requires Enforces(cfg, t)
    ensures ReachesProxy(t, Mangled(t, p)) && IsRewritten(t, Mangled(t, p)) <==> CarriesMark(p) && IsRedirected(cfg, p)
  {
    assert EnforcesAt(cfg, t, p);
    assert EnforcesAt(cfg, t, Mangled(t, p));
  }

  /** For packets that arrive unmarked the two chains act on disjoint packets and their order cannot matter. */
  lemma {:induction false} OrderIsIrrelevant(cfg: NftConfig, t: Ruleset, p: Packet)
    requires Enforces(cfg, t) && !CarriesMark(p)
    ensures ProxyThenNat(t, p) == NatThenProxy(t, p)
    ensures !(ProxyThenNat(t, p).proxied && ProxyThenNat(t, p).rewritten)
  {
    BothActExactly(cfg, t, p);
    assert EnforcesAt(cfg, t, Mangled(t, p));
    assert EnforcesAt(cfg, t, Redirect(t, Mangled(t, p)));
  }

  /** A packet can arrive with the mark on it and be taken by both chains. */
  lemma {:induction false} PremarkedIsTakenTwice(cfg: NftConfig, t: Ruleset) returns (p: Packet)
    requires Enforces(cfg, t)
    ensures CarriesMark(p) && ProxyThenNat(t, p).proxied && ProxyThenNat(t, p).rewritten
  {
    var elsewhere: Address := if ResolverOf(cfg) == 0 then 1 else 0;
    p := Packet(WgName(cfg), "", V4, Udp, 0, elsewhere, DNS_PORT, false, FWMARK);
    BothActExactly(cfg, t, p);
  }

  /** Redirecting is idempotent: a redirected query is not redirected again. */
  lemma {:induction false} RedirectIsIdempotent(cfg: NftConfig, t: Ruleset, p: Packet)
    requires Enforces(cfg, t)
    ensures Redirect(t, Redirect(t, p)) == Redirect(t, p) && !IsRewritten(t, Redirect(t, p))
    ensures IsRewritten(t, p) ==> Redirect(t, p).dst == ResolverOf(cfg)
  {
    assert EnforcesAt(cfg, t, p);
    assert EnforcesAt(cfg, t, Redirect(t, p));
  }

  /** Nothing a whole-Internet source sends is ever forwarded over IPv4, whatever happened to it before. */
  lemma {:induction false} EgressIsNeverForwarded(cfg: NftConfig, t: Ruleset, p: Packet, oif: string)
    requires Enforces(cfg, t) && p.iif == WgName(cfg) && p.family == V4 && FromEgress(cfg, p)
    ensures Run(t.sets, t.forward, ProxyThenNat(t, p).packet.(oif := oif)).verdict == Rejected
    ensures Run(t.sets, t.forward, NatThenProxy(t, p).packet.(oif := oif)).verdict == Rejected
  {
    assert EnforcesAt(cfg, t, p);
    assert EnforcesAt(cfg, t, Mangled(t, p));
    assert EnforcesAt(cfg, t, Redirect(t, Mangled(t, p)).(oif := oif));
  }
}
