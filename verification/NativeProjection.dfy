/** Partial projections of native rules and the algebra the compiler combines them by
    (internal/lists/native.go). */
module NativeProjection {
  import opened Ipv4
  import opened Options
  import opened NativeRules

  /** A domain rule, an exact IPv4 set, and a set intercepted for TCP and UDP only. An absent part
      selects nothing; `emptyDomain` is what the domain rule says when no domain is known. */
  datatype Expr = Expr(
    domain: Option<Rule>,
    address: Option<seq<Range>>,
    emptyDomain: bool,
    transport: Option<seq<Range>>)

  const NOTHING := Expr(None, None, false, None)

  // ---------------------------------------------------------------- meaning of a projection

  ghost predicate InSet(part: Option<seq<Range>>, a: Address) {
    part.Some? && Covers(part.value, a)
  }

  ghost predicate InDomain(read: DomainReader, rule: Option<Rule>, c: Connection) {
    rule.Some? && Matches(read, rule.value, c)
  }

  /** What a projection certainly selects. */
  ghost predicate Selects(read: DomainReader, e: Expr, c: Connection) {
    InDomain(read, e.domain, c) || InSet(e.address, c.address)
  }

  /** What a projection hands to the runtime: its selection and its TCP and UDP envelope. */
  ghost predicate Intercepts(read: DomainReader, e: Expr, c: Connection) {
    Selects(read, e, c) || (Proxyable(c) && InSet(e.transport, c.address))
  }

  ghost predicate EmptyValue(r: Rule, v: bool) {
    forall read: DomainReader, c: Connection :: c.domain.None? ==> Matches(read, r, c) == v
  }

  ghost predicate Sound(e: Expr) {
    && (e.address.Some? ==> Canonical(e.address.value))
    && (e.transport.Some? ==> Canonical(e.transport.value))
    && (e.domain.Some? ==> DomainOnly(e.domain.value) && EmptyValue(e.domain.value, e.emptyDomain))
    && (e.domain.None? ==> !e.emptyDomain)
  }

  ghost predicate AllSound(ee: seq<Expr>) {
    ee != [] ==> AllSound(ee[..|ee| - 1]) && Sound(ee[|ee| - 1])
  }

  ghost predicate AllSelect(read: DomainReader, ee: seq<Expr>, c: Connection) {
    ee != [] ==> AllSelect(read, ee[..|ee| - 1], c) && Selects(read, ee[|ee| - 1], c)
  }

  ghost predicate AnySelects(read: DomainReader, ee: seq<Expr>, c: Connection) {
    ee != [] && (AnySelects(read, ee[..|ee| - 1], c) || Selects(read, ee[|ee| - 1], c))
  }

  ghost predicate AllIntercept(read: DomainReader, ee: seq<Expr>, c: Connection) {
    ee != [] ==> AllIntercept(read, ee[..|ee| - 1], c) && Intercepts(read, ee[|ee| - 1], c)
  }

  ghost predicate AnyIntercepts(read: DomainReader, ee: seq<Expr>, c: Connection) {
    ee != [] && (AnyIntercepts(read, ee[..|ee| - 1], c) || Intercepts(read, ee[|ee| - 1], c))
  }

  predicate HasTransport(ee: seq<Expr>) {
    ee != [] && (HasTransport(ee[..|ee| - 1]) || ee[|ee| - 1].transport.Some?)
  }

  /** `out` is the AND or OR of `ee` on both sides of the approximation, inverted on request. */
  ghost predicate Combines(ee: seq<Expr>, mode: Mode, invert: bool, out: Expr) {
    && (invert ==> !HasTransport(ee))
    && forall read: DomainReader, c: Connection :: CombinesAt(read, ee, mode, invert, out, c)
  }

  ghost predicate CombinesAt(read: DomainReader, ee: seq<Expr>, mode: Mode, invert: bool, out: Expr, c: Connection) {
    && Selects(read, out, c) == ((if mode == And then AllSelect(read, ee, c) else AnySelects(read, ee, c)) != invert)
    && Intercepts(read, out, c) == ((if mode == And then AllIntercept(read, ee, c) else AnyIntercepts(read, ee, c)) != invert)
  }

  // ---------------------------------------------------------------- faithful projections of rules

  /** The projection selects only what the rule matches and intercepts all that it matches. */
  ghost predicate Faithful(r: Rule, e: Expr) {
    forall read: DomainReader, c: Connection :: FaithfulAt(read, r, e, c)
  }

  ghost predicate FaithfulAt(read: DomainReader, r: Rule, e: Expr, c: Connection) {
    && (Selects(read, e, c) ==> Matches(read, r, c))
    && (Matches(read, r, c) ==> Intercepts(read, e, c))
  }

  ghost predicate AllFaithful(rules: seq<Rule>, ee: seq<Expr>) {
    && |rules| == |ee|
    && (ee != [] ==> AllFaithful(rules[..|ee| - 1], ee[..|ee| - 1]) && Faithful(rules[|ee| - 1], ee[|ee| - 1]))
  }

  lemma {:induction false} Between(read: DomainReader, rules: seq<Rule>, ee: seq<Expr>, c: Connection)
    requires AllFaithful(rules, ee)
    ensures AllSelect(read, ee, c) ==> AllMatch(read, rules, c)
    ensures AllMatch(read, rules, c) ==> AllIntercept(read, ee, c)
    ensures AnySelects(read, ee, c) ==> AnyMatch(read, rules, c)
    ensures AnyMatch(read, rules, c) ==> AnyIntercepts(read, ee, c)
    decreases |ee|
  {
    if ee != [] {
      var n := |ee| - 1;
      Between(read, rules[..n], ee[..n], c);
      assert FaithfulAt(read, rules[n], ee[n], c);
    }
  }

  lemma {:induction false} SelectionIsAll(read: DomainReader, ee: seq<Expr>, c: Connection)
    requires !HasTransport(ee)
    ensures AllSelect(read, ee, c) == AllIntercept(read, ee, c)
    ensures AnySelects(read, ee, c) == AnyIntercepts(read, ee, c)
    decreases |ee|
  {
    if ee != [] {
      SelectionIsAll(read, ee[..|ee| - 1], c);
    }
  }

  /** Combining faithful projections of the parts is a faithful projection of the logical rule. */
  lemma {:induction false} CombinedIsFaithful(rules: seq<Rule>, ee: seq<Expr>, mode: Mode, invert: bool, out: Expr)
    requires AllFaithful(rules, ee) && Combines(ee, mode, invert, out)
    ensures Faithful(Logical(mode, rules, invert), out)
  {
    forall read: DomainReader, c: Connection
      ensures FaithfulAt(read, Logical(mode, rules, invert), out, c)
    {
      Between(read, rules, ee, c);
      assert CombinesAt(read, ee, mode, invert, out, c);
      if invert {
        SelectionIsAll(read, ee, c);
      }
    }
  }

  // ---------------------------------------------------------------- which rules can be split

  /** The parts a projection has. */
  datatype Shape = Shape(domain: bool, address: bool, context: bool)

  function ShapeOf(e: Expr): Shape {
    Shape(e.domain.Some?, e.address.Some?, e.transport.Some?)
  }

  function ShapesOf(ee: seq<Expr>): (ss: seq<Shape>)
    ensures |ss| == |ee|
  {
    if ee == [] then [] else ShapesOf(ee[..|ee| - 1]) + [ShapeOf(ee[|ee| - 1])]
  }

  predicate AnyDomain(ss: seq<Shape>) {
    ss != [] && (AnyDomain(ss[..|ss| - 1]) || ss[|ss| - 1].domain)
  }

  predicate AnyAddress(ss: seq<Shape>) {
    ss != [] && (AnyAddress(ss[..|ss| - 1]) || ss[|ss| - 1].address)
  }

  predicate AnyContext(ss: seq<Shape>) {
    ss != [] && (AnyContext(ss[..|ss| - 1]) || ss[|ss| - 1].context)
  }

  predicate AllAddress(ss: seq<Shape>) {
    ss != [] ==> AllAddress(ss[..|ss| - 1]) && ss[|ss| - 1].address
  }

  predicate AllPureDomain(ss: seq<Shape>) {
    ss != [] ==> AllPureDomain(ss[..|ss| - 1]) && ss[|ss| - 1].domain && !ss[|ss| - 1].address
  }

  predicate AllPureAddress(ss: seq<Shape>) {
    ss != [] ==> AllPureAddress(ss[..|ss| - 1]) && !ss[|ss| - 1].domain && ss[|ss| - 1].address
  }

  /** Shape of a combination; none when the parts cannot be combined: context may not be inverted
      nor mixed with domains in an AND, and a mixed domain and address part may be neither ANDed nor inverted. */
  function CombinedShape(ss: seq<Shape>, mode: Mode, invert: bool): Option<Shape> {
    if AnyContext(ss) then
      if invert then None
      else if mode == And then
        if AnyDomain(ss) then None else Some(Shape(false, AllAddress(ss), true))
      else Some(Shape(AnyDomain(ss), AnyAddress(ss), true))
    else if mode == And && !AllPureDomain(ss) && !AllPureAddress(ss) then None
    else InvertedShape(Shape(AnyDomain(ss), AnyAddress(ss), false), invert)
  }

  function InvertedShape(s: Shape, invert: bool): Option<Shape> {
    if invert && s.domain && s.address then None else Some(s)
  }

  lemma {:induction false} ShapesSnoc(ee: seq<Expr>, e: Expr)
    ensures ShapesOf(ee + [e]) == ShapesOf(ee) + [ShapeOf(e)]
    ensures var ss := ShapesOf(ee + [e]); ss[..|ss| - 1] == ShapesOf(ee) && ss[|ss| - 1] == ShapeOf(e)
  {
    assert (ee + [e])[..|ee|] == ee;
  }

  lemma {:induction false} ContextIsTransport(ee: seq<Expr>)
    ensures AnyContext(ShapesOf(ee)) == HasTransport(ee)
    decreases |ee|
  {
    if ee != [] {
      var front, last := ee[..|ee| - 1], ee[|ee| - 1];
      assert ee == front + [last];
      ShapesSnoc(front, last);
      ContextIsTransport(front);
    }
  }

  // ---------------------------------------------------------------- parts of a list of projections

  function DomainsOf(ee: seq<Expr>): seq<Rule> {
    if ee == [] then []
    else if ee[|ee| - 1].domain.Some? then DomainsOf(ee[..|ee| - 1]) + [ee[|ee| - 1].domain.value]
    else DomainsOf(ee[..|ee| - 1])
  }

  function SetsOf(ee: seq<Expr>): seq<seq<Range>> {
    if ee == [] then []
    else if ee[|ee| - 1].address.Some? then SetsOf(ee[..|ee| - 1]) + [ee[|ee| - 1].address.value]
    else SetsOf(ee[..|ee| - 1])
  }

  ghost predicate AllSets(sets: seq<seq<Range>>) {
    forall s <- sets :: Canonical(s)
  }

  ghost predicate AnyCovers(sets: seq<seq<Range>>, a: Address) {
    sets != [] && (AnyCovers(sets[..|sets| - 1], a) || Covers(sets[|sets| - 1], a))
  }

  ghost predicate AllCover(sets: seq<seq<Range>>, a: Address) {
    sets != [] ==> AllCover(sets[..|sets| - 1], a) && Covers(sets[|sets| - 1], a)
  }

  lemma {:induction false} CoverSnoc(sets: seq<seq<Range>>, s: seq<Range>, a: Address)
    ensures AnyCovers(sets + [s], a) <==> AnyCovers(sets, a) || Covers(s, a)
    ensures AllCover(sets + [s], a) <==> AllCover(sets, a) && Covers(s, a)
  {
    assert (sets + [s])[..|sets|] == sets;
  }

  lemma {:induction false} PartsSound(ee: seq<Expr>)
    requires AllSound(ee)
    ensures AllDomainOnly(DomainsOf(ee)) && AllSets(SetsOf(ee))
    decreases |ee|
  {
    if ee != [] {
      var front, last := ee[..|ee| - 1], ee[|ee| - 1];
      PartsSound(front);
      if last.domain.Some? {
        assert (DomainsOf(front) + [last.domain.value])[..|DomainsOf(front)|] == DomainsOf(front);
      }
    }
  }

  /** In an OR, domain parts and address parts can be gathered apart. */
  lemma {:induction false} OrParts(read: DomainReader, ee: seq<Expr>, c: Connection)
    ensures AnySelects(read, ee, c) <==>
            AnyMatch(read, DomainsOf(ee), c) || AnyCovers(SetsOf(ee), c.address)
    decreases |ee|
  {
    if ee != [] {
      var front, last := ee[..|ee| - 1], ee[|ee| - 1];
      OrParts(read, front, c);
      if last.domain.Some? {
        MatchSnoc(read, DomainsOf(front), last.domain.value, c);
      }
      if last.address.Some? {
        CoverSnoc(SetsOf(front), last.address.value, c.address);
      }
    }
  }

  lemma {:induction false} DomainsOnly(ee: seq<Expr>)
    requires AllPureDomain(ShapesOf(ee))
    ensures SetsOf(ee) == [] && |DomainsOf(ee)| == |ee|
    decreases |ee|
  {
    if ee != [] {
      var front, last := ee[..|ee| - 1], ee[|ee| - 1];
      assert ee == front + [last];
      ShapesSnoc(front, last);
      DomainsOnly(front);
    }
  }

  lemma {:induction false} AndOfDomains(read: DomainReader, ee: seq<Expr>, c: Connection)
    requires AllPureDomain(ShapesOf(ee))
    ensures SetsOf(ee) == [] && |DomainsOf(ee)| == |ee|
    ensures AllSelect(read, ee, c) <==> AllMatch(read, DomainsOf(ee), c)
    decreases |ee|
  {
    DomainsOnly(ee);
    if ee != [] {
      var front, last := ee[..|ee| - 1], ee[|ee| - 1];
      assert ee == front + [last];
      ShapesSnoc(front, last);
      AndOfDomains(read, front, c);
      MatchSnoc(read, DomainsOf(front), last.domain.value, c);
    }
  }

  lemma {:induction false} AddressesOnly(ee: seq<Expr>)
    requires AllPureAddress(ShapesOf(ee))
    ensures DomainsOf(ee) == [] && |SetsOf(ee)| == |ee|
    decreases |ee|
  {
    if ee != [] {
      var front, last := ee[..|ee| - 1], ee[|ee| - 1];
      assert ee == front + [last];
      ShapesSnoc(front, last);
      AddressesOnly(front);
    }
  }

  lemma {:induction false} AndOfAddresses(read: DomainReader, ee: seq<Expr>, c: Connection)
    requires AllPureAddress(ShapesOf(ee))
    ensures DomainsOf(ee) == [] && |SetsOf(ee)| == |ee|
    ensures AllSelect(read, ee, c) <==> AllCover(SetsOf(ee), c.address)
    decreases |ee|
  {
    AddressesOnly(ee);
    if ee != [] {
      var front, last := ee[..|ee| - 1], ee[|ee| - 1];
      assert ee == front + [last];
      ShapesSnoc(front, last);
      AndOfAddresses(read, front, c);
      CoverSnoc(SetsOf(front), last.address.value, c.address);
    }
  }

  lemma {:induction false} PartShapes(ee: seq<Expr>)
    ensures (DomainsOf(ee) != []) == AnyDomain(ShapesOf(ee))
    ensures (SetsOf(ee) != []) == AnyAddress(ShapesOf(ee))
    decreases |ee|
  {
    if ee != [] {
      var front, last := ee[..|ee| - 1], ee[|ee| - 1];
      assert ee == front + [last];
      ShapesSnoc(front, last);
      PartShapes(front);
    }
  }

  // ---------------------------------------------------------------- joining domain rules

  /** One rule for several domain rules. */
  function JoinDomains(mode: Mode, rules: seq<Rule>): Option<Rule> {
    if |rules| == 0 then None
    else if |rules| == 1 then Some(rules[0])
    else Some(Logical(mode, rules, false))
  }

  lemma {:induction false} JoinedMatches(read: DomainReader, mode: Mode, rules: seq<Rule>, c: Connection)
    ensures InDomain(read, JoinDomains(mode, rules), c) <==>
            rules != [] && (if mode == And then AllMatch(read, rules, c) else AnyMatch(read, rules, c))
  {
    if |rules| == 1 {
      assert rules[..0] == [];
    }
  }

  lemma {:induction false} JoinedIsDomainOnly(mode: Mode, rules: seq<Rule>)
    requires AllDomainOnly(rules)
    ensures JoinDomains(mode, rules).Some? ==> DomainOnly(JoinDomains(mode, rules).value)
  {
  }

  /** What the domain parts say together when no domain is known. */
  function EmptyOf(mode: Mode, ee: seq<Expr>): bool {
    if ee == [] then mode == And
    else
      var before := EmptyOf(mode, ee[..|ee| - 1]);
      if mode == And then before && ee[|ee| - 1].emptyDomain else before || ee[|ee| - 1].emptyDomain
  }

  lemma {:induction false} EmptyOr(read: DomainReader, ee: seq<Expr>, mode: Mode, c: Connection)
    requires AllSound(ee) && mode != And && c.domain.None?
    ensures AnyMatch(read, DomainsOf(ee), c) == EmptyOf(mode, ee)
    decreases |ee|
  {
    if ee != [] {
      var front, last := ee[..|ee| - 1], ee[|ee| - 1];
      EmptyOr(read, front, mode, c);
      if last.domain.Some? {
        MatchSnoc(read, DomainsOf(front), last.domain.value, c);
      }
    }
  }

  lemma {:induction false} EmptyAnd(read: DomainReader, ee: seq<Expr>, c: Connection)
    requires AllSound(ee) && AllPureDomain(ShapesOf(ee)) && c.domain.None?
    ensures AllMatch(read, DomainsOf(ee), c) == EmptyOf(And, ee)
    decreases |ee|
  {
    if ee != [] {
      var front, last := ee[..|ee| - 1], ee[|ee| - 1];
      assert ee == front + [last];
      ShapesSnoc(front, last);
      EmptyAnd(read, front, c);
      MatchSnoc(read, DomainsOf(front), last.domain.value, c);
    }
  }

  lemma {:induction false} NoDomainNoEmpty(mode: Mode, ee: seq<Expr>)
    requires AllSound(ee) && ee != [] && DomainsOf(ee) == []
    ensures !EmptyOf(mode, ee)
    decreases |ee|
  {
    if |ee| > 1 {
      NoDomainNoEmpty(mode, ee[..|ee| - 1]);
    }
  }
}
