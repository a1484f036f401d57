/** Public listener endpoints, their coverage, and the packets a guard drops
    (internal/ingressguard/endpoint.go, internal/ingressguard/startup.go, internal/netstack/public_guard.go). */
module Ingress {
  import opened Ipv4
  import opened Options
  import opened Sorting

  const MAX_ENDPOINTS := 64

  /** An IPv6 address as a 128-bit number. */
  type Address6 = a: int | 0 <= a < 0x1_0000_0000_0000_0000_0000_0000_0000_0000

  datatype Ip = V4(v4: Address) | V6(v6: Address6)

  /** Addresses ::ffff:0:0/96, which stand for IPv4 addresses. */
  const MAPPED := 0xFFFF_0000_0000

  predicate IsMapped(ip: Ip) {
    ip.V6? && MAPPED <= ip.v6 <= MAPPED + MAX_ADDRESS
  }

  function Unmap(ip: Ip): (r: Ip)
    ensures !IsMapped(r)
  {
    if IsMapped(ip) then V4(ip.v6 - MAPPED) else ip
  }

  predicate IsUnspecified(ip: Ip) {
    ip == V4(0) || ip == V6(0)
  }

  /** What a listener's address text holds. */
  datatype ListenText = NoText | Literal(ip: Ip, zoned: bool) | NotAnAddress

  /** A listener as configured. */
  datatype Listener = Listener(text: ListenText, port: nat)

  /** A canonical endpoint: an unmapped address and a port. */
  datatype Endpoint = Endpoint(ip: Ip, port: nat)

  // ---------------------------------------------------------------- normal form

  /** None when the listener has no port or no plain address. An empty address means both families. */
  function Canonical1(l: Listener): Option<Endpoint> {
    if l.port == 0 || l.text.NotAnAddress? || (l.text.Literal? && l.text.zoned) then None
    else Some(Endpoint(if l.text.NoText? then V6(0) else Unmap(l.text.ip), l.port))
  }

  predicate AllCanonical(ls: seq<Listener>, i: nat := 0)
    requires i <= |ls|
    decreases |ls| - i
  {
    i < |ls| ==> Canonical1(ls[i]).Some? && AllCanonical(ls, i + 1)
  }

  function EndpointSet(ls: seq<Listener>): set<Endpoint> {
    if ls == [] then {}
    else
      var last := Canonical1(ls[|ls| - 1]);
      EndpointSet(ls[..|ls| - 1]) + if last.Some? then {last.value} else {}
  }

  /** How an address is written. */
  type Naming = Ip -> string

  /** Order of normalized endpoints: by the text of the address, then by port. */
  function EndpointLess(text: Naming): Less<Endpoint> {
    (x: Endpoint, y: Endpoint) => PairLess((text(x.ip), x.port), (text(y.ip), y.port))
  }

  lemma {:induction false} EndpointsRank(text: Naming)
    ensures Ranks(EndpointLess(text))
  {
    forall x, y, z
      ensures InLine(EndpointLess(text), x, y, z)
    {
      PairsInLine((text(x.ip), x.port), (text(y.ip), y.port), (text(z.ip), z.port));
    }
  }

  /** Different addresses are written differently. */
  ghost predicate TellsApart(text: Naming) {
    forall x, y :: text(x) == text(y) ==> x == y
  }

  lemma {:induction false} EndpointsSeparate(text: Naming)
    requires TellsApart(text)
    ensures Separates(EndpointLess(text))
  {
    forall x, y
      ensures Apart(EndpointLess(text), x, y)
    {
      PairsInLine((text(x.ip), x.port), (text(y.ip), y.port), (text(y.ip), y.port));
    }
  }

  /** A sorted list of the listeners' endpoints, each once. */
  ghost predicate NormalFor(es: seq<Endpoint>, ls: seq<Listener>, text: Naming) {
    && (forall e :: e in es <==> e in EndpointSet(ls))
    && NoRepeats(es) && Sorted(EndpointLess(text), es)
  }

  /** Listeners with the same endpoints have the same normal form, whatever their order and repeats. */
  lemma {:induction false} NormalIsUnique(xs: seq<Endpoint>, ls: seq<Listener>, ys: seq<Endpoint>, ms: seq<Listener>, text: Naming)
    requires TellsApart(text) && NormalFor(xs, ls, text) && NormalFor(ys, ms, text)
    ensures xs == ys <==> EndpointSet(ls) == EndpointSet(ms)
  {
    if EndpointSet(ls) == EndpointSet(ms) {
      forall e
        ensures multiset(xs)[e] == multiset(ys)[e]
      {
        assert e in xs <==> e in ys;
        assert multiset(xs)[e] <= 1 && multiset(ys)[e] <= 1;
      }
      EndpointsRank(text);
      EndpointsSeparate(text);
      SortedIsUnique(EndpointLess(text), xs, ys);
    }
  }

  /** One more endpoint in the list that was not there. */
  lemma {:induction false} NewEndpoint(out: seq<Endpoint>, e: Endpoint)
    requires NoRepeats(out) && e !in out
    ensures NoRepeats(out + [e])
  {
    forall x
      ensures multiset(out + [e])[x] <= 1
    {
      assert multiset(out)[x] <= 1;
    }
  }

  /** Validates, deduplicates and sorts listeners; refused for too many, a missing port or a name. */
  method NormalizeEndpoints(ls: seq<Listener>, text: Naming) returns (res: Option<seq<Endpoint>>)
    ensures res.Some? <==> |ls| <= MAX_ENDPOINTS && AllCanonical(ls)
    ensures res.Some? ==> NormalFor(res.value, ls, text)
  {
    if |ls| > MAX_ENDPOINTS {
      return None;
    }
    var out: seq<Endpoint> := [];
    var seen: set<Endpoint> := {};
    var i := 0;
    while i < |ls|
      invariant 0 <= i <= |ls| && AllCanonical(ls) == AllCanonical(ls, i)
      invariant seen == EndpointSet(ls[..i]) && NoRepeats(out)
      invariant forall e :: e in out <==> e in seen
    {
      assert ls[..i + 1][..i] == ls[..i];
      if ls[i].port == 0 {
        return None;
      }
      var ip := V6(0);
      if !ls[i].text.NoText? {
        if ls[i].text.NotAnAddress? || ls[i].text.zoned {
          return None;
        }
        ip := Unmap(ls[i].text.ip);
      }
      var e := Endpoint(ip, ls[i].port);
      if e !in seen {
        NewEndpoint(out, e);
        seen := seen + {e};
        out := out + [e];
      }
      i := i + 1;
    }
    assert ls[..|ls|] == ls;
    EndpointsRank(text);
    SortSorts(EndpointLess(text), out);
    var sorted := Sort(EndpointLess(text), out);
    SameMembers(sorted, out);
    return Some(sorted);
  }

  lemma {:induction false} SameMembers<T(!new)>(xs: seq<T>, ys: seq<T>)
    requires multiset(xs) == multiset(ys)
    ensures forall x :: x in xs <==> x in ys
    ensures NoRepeats(xs) == NoRepeats(ys)
  {
    forall x
      ensures x in xs <==> x in ys
    {
      assert x in xs <==> x in multiset(xs);
    }
  }

  // ---------------------------------------------------------------- packets

  /** A TCP packet delivered locally. Mapped addresses never appear on the wire. */
  datatype Packet = Packet(dst: Ip, port: nat)

  predicate OnWire(p: Packet) {
    !IsMapped(p.dst)
  }

  /** Whether a socket bound to an address hears a packet. An IPv6 wildcard socket hears both families,
      a socket bound to a mapped address is bound to the IPv4 address it stands for. */
  predicate Hears(bound: Ip, port: nat, p: Packet) {
    var ip := Unmap(bound);
    && p.port == port
    && (ip == V6(0) || (ip == V4(0) && p.dst.V4?) || p.dst == ip)
  }

  predicate ListenerHears(l: Listener, p: Packet) {
    if l.text.Literal? then Hears(l.text.ip, l.port, p) else l.text.NoText? && Hears(V6(0), l.port, p)
  }

  predicate EndpointHears(e: Endpoint, p: Packet) {
    Hears(e.ip, e.port, p)
  }

  /** Some listener of a normalized list hears exactly what some endpoint of the result hears. */
  lemma {:induction false} NormalHearsSame(ls: seq<Listener>, p: Packet)
    requires AllCanonical(ls)
    ensures (exists l :: l in ls && ListenerHears(l, p)) <==> (exists e :: e in EndpointSet(ls) && EndpointHears(e, p))
  {
    forall l | l in ls
      ensures Canonical1(l).Some? && Canonical1(l).value in EndpointSet(ls)
      ensures ListenerHears(l, p) == EndpointHears(Canonical1(l).value, p)
    {
      var i :| 0 <= i < |ls| && ls[i] == l;
      CanonicalAt(ls, 0, i);
      MemberOfSet(ls, i);
    }
    forall e | e in EndpointSet(ls) && EndpointHears(e, p)
      ensures exists l :: l in ls && ListenerHears(l, p)
    {
      var i := SetMember(ls, e);
      assert ListenerHears(ls[i], p);
    }
  }

  lemma {:induction false} CanonicalAt(ls: seq<Listener>, i: nat, k: nat)
    requires i <= k < |ls| && AllCanonical(ls, i)
    ensures Canonical1(ls[k]).Some?
    decreases k - i
  {
    if i < k {
      CanonicalAt(ls, i + 1, k);
    }
  }

  lemma {:induction false} MemberOfSet(ls: seq<Listener>, i: nat)
    requires i < |ls| && Canonical1(ls[i]).Some?
    ensures Canonical1(ls[i]).value in EndpointSet(ls)
    decreases |ls|
  {
    if i < |ls| - 1 {
      MemberOfSet(ls[..|ls| - 1], i);
    }
  }

  lemma {:induction false} SetMember(ls: seq<Listener>, e: Endpoint) returns (i: nat)
    requires e in EndpointSet(ls)
    ensures i < |ls| && Canonical1(ls[i]) == Some(e)
    decreases |ls|
  {
    if e in EndpointSet(ls[..|ls| - 1]) {
      i := SetMember(ls[..|ls| - 1], e);
    } else {
      i := |ls| - 1;
    }
  }

  // ---------------------------------------------------------------- coverage

  predicate Covers(have: Endpoint, want: Endpoint) {
    if have.port != want.port then false
    else if IsUnspecified(have.ip) then have.ip.V6? || want.ip.V4?
    else have.ip == want.ip
  }

  /** One endpoint covers another exactly when it hears every packet the other hears. */
  lemma {:induction false} CoverageIsHearing(have: Endpoint, want: Endpoint)
    requires !IsMapped(have.ip) && !IsMapped(want.ip)
    ensures Covers(have, want) <==> forall p :: OnWire(p) && EndpointHears(want, p) ==> EndpointHears(have, p)
  {
    if forall p :: OnWire(p) && EndpointHears(want, p) ==> EndpointHears(have, p) {
      var own := Packet(want.ip, want.port);
      assert OnWire(own) && EndpointHears(want, own);
      assert EndpointHears(have, own);
      if want.ip == V4(0) || want.ip == V6(0) {
        var other := Packet(if want.ip.V4? || have.ip == V4(1) then V4(2) else V4(1), want.port);
        var third := Packet(if have.ip == V6(1) then V6(2) else V6(1), want.port);
        assert OnWire(other) && EndpointHears(want, other);
        assert want.ip.V6? ==> OnWire(third) && EndpointHears(want, third);
        var fourth := Packet(V4(3), want.port);
        assert OnWire(fourth) && EndpointHears(want, fourth);
      }
    }
  }

  // ---------------------------------------------------------------- the guard

  datatype Family = Four | Six

  /** A drop rule: a family, an address unless any, and a port. */
  datatype GuardRule = GuardRule(family: Family, address: Option<Ip>, port: nat)

  predicate RuleDrops(r: GuardRule, p: Packet) {
    && p.port == r.port
    && p.dst.V4? == r.family.Four?
    && (r.address.Some? ==> p.dst == r.address.value)
  }

  ghost predicate Drops(rules: seq<GuardRule>, p: Packet) {
    rules != [] && (Drops(rules[..|rules| - 1], p) || RuleDrops(rules[|rules| - 1], p))
  }

  function RulesOf(e: Endpoint): seq<GuardRule> {
    if IsUnspecified(e.ip) then
      [GuardRule(Four, None, e.port)] + if e.ip.V6? then [GuardRule(Six, None, e.port)] else []
    else [GuardRule(if e.ip.V4? then Four else Six, Some(e.ip), e.port)]
  }

  function PlanOf(es: seq<Endpoint>): seq<GuardRule> {
    if es == [] then [] else PlanOf(es[..|es| - 1]) + RulesOf(es[|es| - 1])
  }

  ghost predicate AnyHears(es: seq<Endpoint>, p: Packet) {
    es != [] && (AnyHears(es[..|es| - 1], p) || EndpointHears(es[|es| - 1], p))
  }

  lemma {:induction false} DropsConcat(xs: seq<GuardRule>, ys: seq<GuardRule>, p: Packet)
    ensures Drops(xs + ys, p) <==> Drops(xs, p) || Drops(ys, p)
    decreases |ys|
  {
    if ys == [] {
      assert xs + ys == xs;
    } else {
      assert (xs + ys)[..|xs| + |ys| - 1] == xs + ys[..|ys| - 1];
      DropsConcat(xs, ys[..|ys| - 1], p);
    }
  }

  lemma {:induction false} RulesExact(e: Endpoint, p: Packet)
    requires !IsMapped(e.ip) && OnWire(p)
    ensures Drops(RulesOf(e), p) <==> EndpointHears(e, p)
  {
    DropsOne(RulesOf(e)[0], p);
    if e.ip.V6? && IsUnspecified(e.ip) {
      DropsOne(GuardRule(Six, None, e.port), p);
      DropsConcat([GuardRule(Four, None, e.port)], [GuardRule(Six, None, e.port)], p);
    } else {
      assert RulesOf(e) == [RulesOf(e)[0]];
    }
  }

  lemma {:induction false} DropsOne(r: GuardRule, p: Packet)
    ensures Drops([r], p) <==> RuleDrops(r, p)
  {
    assert [r][..0] == [];
  }

  ghost predicate AllUnmapped(es: seq<Endpoint>) {
    es != [] ==> AllUnmapped(es[..|es| - 1]) && !IsMapped(es[|es| - 1].ip)
  }

  /** The plan drops exactly the TCP packets that one of the endpoints hears. */
  lemma {:induction false} PlanExact(es: seq<Endpoint>, p: Packet)
    requires AllUnmapped(es) && OnWire(p)
    ensures Drops(PlanOf(es), p) <==> AnyHears(es, p)
    decreases |es|
  {
    if es != [] {
      PlanExact(es[..|es| - 1], p);
      RulesExact(es[|es| - 1], p);
      DropsConcat(PlanOf(es[..|es| - 1]), RulesOf(es[|es| - 1]), p);
    }
  }

  /** Rules of the guard for a list of listeners. */
  method GuardPlan(ls: seq<Listener>, text: Naming) returns (res: Option<seq<GuardRule>>)
    ensures res.Some? <==> |ls| <= MAX_ENDPOINTS && AllCanonical(ls)
    ensures res.Some? ==> forall p :: OnWire(p) ==> (Drops(res.value, p) <==> exists l :: l in ls && ListenerHears(l, p))
  {
    var normal := NormalizeEndpoints(ls, text);
    if normal.None? {
      return None;
    }
    var es := normal.value;
    var rules: seq<GuardRule> := [];
    for i := 0 to |es|
      invariant rules == PlanOf(es[..i])
    {
      assert es[..i + 1][..i] == es[..i];
      var ip, port := es[i].ip, es[i].port;
      if IsUnspecified(ip) {
        rules := rules + [GuardRule(Four, None, port)];
        if ip.V6? {
          rules := rules + [GuardRule(Six, None, port)];
        }
        continue;
      }
      var family := Six;
      if ip.V4? {
        family := Four;
      }
      rules := rules + [GuardRule(family, Some(ip), port)];
    }
    assert es[..|es|] == es;
    forall p | OnWire(p)
      ensures Drops(rules, p) <==> exists l :: l in ls && ListenerHears(l, p)
    {
      SetUnmapped(es, ls);
      PlanExact(es, p);
      NormalHearsSame(ls, p);
      AnyHearsMember(es, p);
    }
    return Some(rules);
  }

  lemma {:induction false} SetUnmapped(es: seq<Endpoint>, ls: seq<Listener>)
    requires forall e :: e in es ==> e in EndpointSet(ls)
    ensures AllUnmapped(es)
    decreases |es|
  {
    if es != [] {
      SetUnmapped(es[..|es| - 1], ls);
      var i := SetMember(ls, es[|es| - 1]);
    }
  }

  lemma {:induction false} AnyHearsMember(es: seq<Endpoint>, p: Packet)
    ensures AnyHears(es, p) <==> exists e :: e in es && EndpointHears(e, p)
    decreases |es|
  {
    if es != [] {
      assert es == es[..|es| - 1] + [es[|es| - 1]];
      AnyHearsMember(es[..|es| - 1], p);
    }
  }

  // ---------------------------------------------------------------- startup approval

  const MANIFEST_VERSION := 1
  const MAX_HASHES := 8

  /** A hash as written; only 64 hexadecimal digits are one, in either case. */
  datatype HashText<+H> = Digest(hash: H) | NotADigest

  /** A manifest as written. */
  datatype ManifestText<+H> = ManifestText(version: int, listeners: seq<Listener>, hashes: seq<HashText<H>>)

  predicate AllDigests<H>(hashes: seq<HashText<H>>) {
    hashes != [] ==> AllDigests(hashes[..|hashes| - 1]) && hashes[|hashes| - 1].Digest?
  }

  function Digests<H>(hashes: seq<HashText<H>>): set<H> {
    if hashes == [] then {}
    else Digests(hashes[..|hashes| - 1]) + if hashes[|hashes| - 1].Digest? then {hashes[|hashes| - 1].hash} else {}
  }

  /** What may be read as a manifest and what may be written as one. */
  predicate IsManifest<H>(m: ManifestText<H>) {
    && m.version == MANIFEST_VERSION
    && |m.listeners| <= MAX_ENDPOINTS && AllCanonical(m.listeners)
    && 0 < |m.hashes| <= MAX_HASHES && AllDigests(m.hashes)
  }

  /** What a manifest allows: configurations by hash, and the endpoints the guard covers. */
  datatype Authority<+H> = Authority(hashes: seq<H>, endpoints: seq<Endpoint>)

  lemma {:induction false} OneBadDigest<H>(hashes: seq<HashText<H>>, i: nat)
    requires i < |hashes| && hashes[i].NotADigest?
    ensures !AllDigests(hashes)
    decreases |hashes|
  {
    if i < |hashes| - 1 {
      OneBadDigest(hashes[..|hashes| - 1], i);
    }
  }

  /** Validates a manifest and puts it in normal form; the hashes keep their order here. */
  method NormalizeManifest<H(==)>(m: ManifestText<H>, text: Naming) returns (res: Option<Authority<H>>)
    ensures res.Some? <==> IsManifest(m)
    ensures res.Some? ==> NormalFor(res.value.endpoints, m.listeners, text)
    ensures res.Some? ==> forall h :: h in res.value.hashes <==> h in Digests(m.hashes)
  {
    if m.version != MANIFEST_VERSION {
      return None;
    }
    var endpoints := NormalizeEndpoints(m.listeners, text);
    if endpoints.None? || |m.hashes| == 0 || |m.hashes| > MAX_HASHES {
      return None;
    }
    var hashes: seq<H> := [];
    for i := 0 to |m.hashes|
      invariant AllDigests(m.hashes[..i])
      invariant forall h :: h in hashes <==> h in Digests(m.hashes[..i])
    {
      assert m.hashes[..i + 1][..i] == m.hashes[..i];
      match m.hashes[i] {
        case NotADigest =>
          OneBadDigest(m.hashes, i);
          return None;
        case Digest(hash) =>
          if hash !in hashes {
            hashes := hashes + [hash];
          }
      }
    }
    assert m.hashes[..|m.hashes|] == m.hashes;
    return Some(Authority(hashes, endpoints.value));
  }

  ghost predicate IsCovered(have: set<Endpoint>, want: Endpoint) {
    exists e :: e in have && Covers(e, want)
  }

  ghost predicate AllCovered(have: set<Endpoint>, want: seq<Endpoint>) {
    forall e :: e in want ==> IsCovered(have, e)
  }

  method CoveredBy(have: seq<Endpoint>, want: Endpoint, ghost all: set<Endpoint>) returns (covered: bool)
    requires forall e :: e in have <==> e in all
    ensures covered <==> IsCovered(all, want)
  {
    covered := false;
    for k := 0 to |have|
      invariant covered <==> exists j :: 0 <= j < k && Covers(have[j], want)
    {
      covered := covered || Covers(have[k], want);
    }
    if e :| e in all && Covers(e, want) {
      var j :| 0 <= j < |have| && have[j] == e;
    }
  }

  /** A manifest authorizes a configuration that it lists by hash and whose listeners, if they can be told
      (none for a configuration that is refused), are all covered. */
  ghost predicate Authorizes<H>(m: ManifestText<H>, hash: H, listeners: Option<seq<Endpoint>>) {
    && IsManifest(m) && hash in Digests(m.hashes)
    && listeners.Some? && AllCovered(EndpointSet(m.listeners), listeners.value)
  }

  method ValidateConfig<H(==)>(hash: H, listeners: Option<seq<Endpoint>>, m: ManifestText<H>, text: Naming) returns (ok: bool)
    ensures ok <==> Authorizes(m, hash, listeners)
  {
    var authority := NormalizeManifest(m, text);
    if authority.None? {
      return false;
    }
    var hashes, have := authority.value.hashes, authority.value.endpoints;
    var approved := false;
    for i := 0 to |hashes|
      invariant approved <==> hash in hashes[..i]
    {
      approved := approved || hashes[i] == hash;
    }
    if !approved || listeners.None? {
      return false;
    }
    var want := listeners.value;
    for i := 0 to |want|
      invariant AllCovered(EndpointSet(m.listeners), want[..i])
    {
      var covered := CoveredBy(have, want[i], EndpointSet(m.listeners));
      if !covered {
        assert want[i] in want;
        return false;
      }
    }
    assert want[..|want|] == want;
    return true;
  }

  /** The guard installed for an authorized configuration drops every TCP packet any of its listeners could hear. */
  lemma {:induction false} ApprovedIsGuarded(ls: seq<Listener>, have: seq<Endpoint>, want: seq<Endpoint>, p: Packet)
    requires AllCanonical(ls) && forall e :: e in have <==> e in EndpointSet(ls)
    requires AllCovered(EndpointSet(ls), want) && AllUnmapped(want) && OnWire(p) && AnyHears(want, p)
    ensures Drops(PlanOf(have), p)
  {
    AnyHearsMember(want, p);
    var e :| e in want && EndpointHears(e, p);
    assert IsCovered(EndpointSet(ls), e);
    var h :| h in EndpointSet(ls) && Covers(h, e);
    SetUnmapped(have, ls);
    UnmappedMember(have, h);
    UnmappedMember(want, e);
    CoverageIsHearing(h, e);
    AnyHearsMember(have, p);
    PlanExact(have, p);
  }

  lemma {:induction false} UnmappedMember(es: seq<Endpoint>, e: Endpoint)
    requires AllUnmapped(es) && e in es
    ensures !IsMapped(e.ip)
    decreases |es|
  {
    if e != es[|es| - 1] {
      UnmappedMember(es[..|es| - 1], e);
    }
  }

  /** Endpoints cover themselves. */
  lemma {:induction false} ListedIsCovered(have: set<Endpoint>, want: seq<Endpoint>)
    requires forall e :: e in want ==> e in have
    ensures AllCovered(have, want)
  {
    forall e | e in want
      ensures IsCovered(have, e)
    {
      assert e in have && Covers(e, e);
    }
  }
}
