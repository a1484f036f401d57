/** What loading the regular expressions of a rule set costs, estimated before anything is expanded
    (internal/lists/native_regex.go). */
module NativeRegex {
  import opened Options

  const MAX_REGEX_COUNT := 1024
  const MAX_REGEX_BYTES := 0x8000
  const MAX_REGEX_TREE := 0x1_0000
  const MAX_REGEX_INSTRUCTIONS := 0x1_0000
  const MAX_REGEX_RUNES := 0x2_0000

  /** No budget holds this much. */
  const CEILING := MAX_REGEX_RUNES + 1

  /** Operations of a parsed expression. A counted repetition has a least number of copies and, if it is
      bounded, how many more there may be. */
  datatype Op =
    | Assertion | Literal | CharClass | AnyChar | AnyCharNotNewline
    | Capture | Star | Plus | Quest | Concat | Alternate
    | Repeat(min: nat, more: Option<nat>)
    | OtherOp

  /** A parsed expression: `runes` counts the characters or class bounds it lists. */
  datatype Regexp = Regexp(op: Op, runes: nat, subs: seq<Regexp>)

  datatype RegexCost = RegexCost(tree: nat, instructions: nat, runes: nat)

  /** The parser; none for a text it does not take. */
  type RegexParser = string -> Option<Regexp>

  // ---------------------------------------------------------------- the cost itself

  /** Operations of Go's simplifier, and one operand under a repetition. */
  predicate Known(re: Regexp)
    decreases re, 1
  {
    !re.op.OtherOp? && (re.op.Repeat? ==> |re.subs| == 1) && AllKnown(re.subs)
  }

  predicate AllKnown(subs: seq<Regexp>)
    decreases subs, 0
  {
    subs != [] ==> AllKnown(subs[..|subs| - 1]) && Known(subs[|subs| - 1])
  }

  predicate Loads(parse: RegexParser, pattern: string) {
    parse(pattern).Some? && Known(parse(pattern).value)
  }

  function AtLeastOne(n: nat): nat {
    if n < 1 then 1 else n
  }

  /** Copies of the operand that a repetition expands to, and the instructions that join them. */
  function Copies(op: Op): nat
    requires op.Repeat?
  {
    if op.more.Some? then op.min + op.more.value else AtLeastOne(op.min)
  }

  function Joints(op: Op): nat
    requires op.Repeat?
  {
    if op.more.Some? then op.more.value else 2
  }

  function OwnInstructions(re: Regexp, below: nat): nat {
    match re.op
    case Literal => re.runes
    case Capture => below + 2
    case Star => below + 2
    case Plus => below + 1
    case Quest => below + 1
    case Concat => below
    case Alternate => below + if |re.subs| > 1 then |re.subs| - 1 else 0
    case Repeat(_, _) => Copies(re.op) * below + Joints(re.op)
    case OtherOp => 0
    case _ => 1
  }

  function OwnRunes(re: Regexp, below: nat): nat {
    match re.op
    case Assertion => 0
    case Literal => re.runes
    case CharClass => re.runes
    case AnyChar => 2
    case AnyCharNotNewline => 4
    case Repeat(_, _) => Copies(re.op) * below
    case OtherOp => 0
    case _ => below
  }

  /** Size of the tree, and of the program with its counted repetitions written out. */
  function CostOf(re: Regexp): RegexCost
    decreases re, 1
  {
    var below := CostOfAll(re.subs);
    RegexCost(1 + re.runes + below.tree,
              AtLeastOne(OwnInstructions(re, below.instructions)),
              OwnRunes(re, below.runes))
  }

  function CostOfAll(subs: seq<Regexp>): RegexCost
    decreases subs, 0
  {
    if subs == [] then RegexCost(0, 0, 0)
    else
      var front, last := CostOfAll(subs[..|subs| - 1]), CostOf(subs[|subs| - 1]);
      RegexCost(front.tree + last.tree, front.instructions + last.instructions, front.runes + last.runes)
  }

  // ---------------------------------------------------------------- saturating arithmetic

  /** The same number, or both at the ceiling. */
  predicate Same(estimate: nat, exact: nat) {
    estimate == exact || (estimate >= CEILING && exact >= CEILING)
  }

  predicate SameCost(estimate: RegexCost, exact: RegexCost) {
    Same(estimate.tree, exact.tree) && Same(estimate.instructions, exact.instructions) && Same(estimate.runes, exact.runes)
  }

  function CappedAdd(a: nat, b: nat): nat {
    if a >= CEILING - b then CEILING else a + b
  }

  function CappedMultiply(a: nat, b: nat): nat {
    if a != 0 && b > CEILING / a then CEILING else a * b
  }

  lemma {:induction false} AddIsSame(a: nat, x: nat, b: nat, y: nat)
    requires Same(a, x) && Same(b, y)
    ensures Same(CappedAdd(a, b), x + y)
  {
  }

  lemma {:induction false} Above(a: nat, b: nat)
    requires a > 0
    ensures b > CEILING / a ==> a * b > CEILING
  {
    var q := CEILING / a;
    assert CEILING < a * q + a;
    if b > q {
      Grows(a, q + 1, b);
      assert a * (q + 1) == a * q + a;
    }
  }

  lemma {:induction false} Grows(a: nat, b: nat, c: nat)
    requires b <= c
    ensures a * b <= a * c
  {
    assert a * c == a * b + a * (c - b);
    assert a * (c - b) >= 0;
  }

  lemma {:induction false} MultiplyIsSame(a: nat, b: nat, y: nat)
    requires Same(b, y)
    ensures Same(CappedMultiply(a, b), a * y)
  {
    if a > 0 {
      Above(a, b);
      if b != y {
        Grows(a, CEILING, b);
        Grows(a, CEILING, y);
        assert a * CEILING >= CEILING;
      }
    }
  }

  // ---------------------------------------------------------------- the estimate

  predicate AllSame(children: seq<RegexCost>, subs: seq<Regexp>) {
    |children| == |subs| &&
    (subs != [] ==>
       AllSame(children[..|subs| - 1], subs[..|subs| - 1]) && SameCost(children[|subs| - 1], CostOf(subs[|subs| - 1])))
  }

  lemma {:induction false} AllSameSnoc(children: seq<RegexCost>, subs: seq<Regexp>, child: RegexCost, sub: Regexp)
    requires AllSame(children, subs) && SameCost(child, CostOf(sub))
    ensures AllSame(children + [child], subs + [sub])
  {
    assert (children + [child])[..|subs|] == children && (subs + [sub])[..|subs|] == subs;
  }

  lemma {:induction false} AllSameAt(children: seq<RegexCost>, subs: seq<Regexp>, i: nat)
    requires AllSame(children, subs) && i < |subs|
    ensures SameCost(children[i], CostOf(subs[i]))
    decreases |subs|
  {
    if i < |subs| - 1 {
      AllSameAt(children[..|subs| - 1], subs[..|subs| - 1], i);
    }
  }

  lemma {:induction false} CostSnoc(subs: seq<Regexp>, i: nat)
    requires i < |subs|
    ensures var front, last, all := CostOfAll(subs[..i]), CostOf(subs[i]), CostOfAll(subs[..i + 1]);
            && all.tree == front.tree + last.tree && all.instructions == front.instructions + last.instructions
            && all.runes == front.runes + last.runes
    ensures AllKnown(subs[..i + 1]) == (AllKnown(subs[..i]) && Known(subs[i]))
  {
    assert subs[..i + 1][..i] == subs[..i];
  }

  lemma {:induction false} OneUnknown(subs: seq<Regexp>, i: nat)
    requires i < |subs| && !Known(subs[i])
    ensures !AllKnown(subs)
    decreases |subs|
  {
    if i < |subs| - 1 {
      OneUnknown(subs[..|subs| - 1], i);
    }
  }

  /** Instructions and runes of all operands. */
  method SumChildren(children: seq<RegexCost>, ghost subs: seq<Regexp>) returns (instructions: nat, runes: nat)
    requires AllSame(children, subs)
    ensures Same(instructions, CostOfAll(subs).instructions) && Same(runes, CostOfAll(subs).runes)
  {
    instructions, runes := 0, 0;
    for i := 0 to |children|
      invariant Same(instructions, CostOfAll(subs[..i]).instructions) && Same(runes, CostOfAll(subs[..i]).runes)
    {
      CostSnoc(subs, i);
      AllSameAt(children, subs, i);
      AddIsSame(instructions, CostOfAll(subs[..i]).instructions, children[i].instructions, CostOf(subs[i]).instructions);
      AddIsSame(runes, CostOfAll(subs[..i]).runes, children[i].runes, CostOf(subs[i]).runes);
      instructions := CappedAdd(instructions, children[i].instructions);
      runes := CappedAdd(runes, children[i].runes);
    }
    assert subs[..|subs|] == subs;
  }

  /** What an expression adds to its operands. */
  method EstimateOwn(re: Regexp, children: seq<RegexCost>) returns (instructions: nat, runes: nat)
    requires AllSame(children, re.subs) && !re.op.OtherOp? && (re.op.Repeat? ==> |re.subs| == 1)
    ensures Same(instructions, OwnInstructions(re, CostOfAll(re.subs).instructions))
    ensures Same(runes, OwnRunes(re, CostOfAll(re.subs).runes))
  {
    ghost var below := CostOfAll(re.subs);
    match re.op {
      case Assertion => instructions, runes := 1, 0;
      case Literal => instructions, runes := re.runes, re.runes;
      case CharClass => instructions, runes := 1, re.runes;
      case AnyChar => instructions, runes := 1, 2;
      case AnyCharNotNewline => instructions, runes := 1, 4;
      case Concat => instructions, runes := SumChildren(children, re.subs);
      case Alternate =>
        instructions, runes := SumChildren(children, re.subs);
        if |children| > 1 {
          AddIsSame(instructions, below.instructions, |children| - 1, |children| - 1);
          instructions := CappedAdd(instructions, |children| - 1);
        }
      case Repeat(min, more) =>
        instructions, runes := EstimateRepeat(re, children[0], re.subs[0]);
        OneOperand(re.subs[0]);
        assert re.subs == [re.subs[0]];
      case Capture | Star => instructions, runes := EstimateWrapped(children, re.subs, 2);
      case Plus | Quest => instructions, runes := EstimateWrapped(children, re.subs, 1);
    }
  }

  method EstimateWrapped(children: seq<RegexCost>, ghost subs: seq<Regexp>, extra: nat) returns (instructions: nat, runes: nat)
    requires AllSame(children, subs)
    ensures Same(instructions, CostOfAll(subs).instructions + extra) && Same(runes, CostOfAll(subs).runes)
  {
    instructions, runes := SumChildren(children, subs);
    AddIsSame(instructions, CostOfAll(subs).instructions, extra, extra);
    instructions := CappedAdd(instructions, extra);
  }

  lemma {:induction false} OneOperand(sub: Regexp)
    ensures CostOfAll([sub]).instructions == CostOf(sub).instructions && CostOfAll([sub]).runes == CostOf(sub).runes
  {
    assert [sub][..0] == [];
  }

  method EstimateRepeat(re: Regexp, child: RegexCost, ghost sub: Regexp) returns (instructions: nat, runes: nat)
    requires re.op.Repeat? && SameCost(child, CostOf(sub))
    ensures Same(instructions, OwnInstructions(re, CostOf(sub).instructions))
    ensures Same(runes, OwnRunes(re, CostOf(sub).runes))
  {
    var copies, extra := re.op.min, 2;
    if re.op.more.Some? {
      copies, extra := re.op.min + re.op.more.value, re.op.more.value;
    } else if copies < 1 {
      copies := 1;
    }
    MultiplyIsSame(copies, child.instructions, CostOf(sub).instructions);
    MultiplyIsSame(copies, child.runes, CostOf(sub).runes);
    AddIsSame(CappedMultiply(copies, child.instructions), copies * CostOf(sub).instructions, extra, extra);
    instructions := CappedAdd(CappedMultiply(copies, child.instructions), extra);
    runes := CappedMultiply(copies, child.runes);
  }

  lemma {:induction false} NextChild(re: Regexp, i: nat, tree: nat, children: seq<RegexCost>, child: RegexCost)
    requires i < |re.subs| && AllSame(children, re.subs[..i]) && SameCost(child, CostOf(re.subs[i]))
    requires Same(tree, 1 + re.runes + CostOfAll(re.subs[..i]).tree)
    ensures AllSame(children + [child], re.subs[..i + 1])
    ensures Same(CappedAdd(tree, child.tree), 1 + re.runes + CostOfAll(re.subs[..i + 1]).tree)
  {
    CostSnoc(re.subs, i);
    AddIsSame(tree, 1 + re.runes + CostOfAll(re.subs[..i]).tree, child.tree, CostOf(re.subs[i]).tree);
    AllSameSnoc(children, re.subs[..i], child, re.subs[i]);
    assert re.subs[..i + 1] == re.subs[..i] + [re.subs[i]];
  }

  /** The capped estimate is the true cost, as far as the cost is below the ceiling. None for an operation
      it does not know. */
  method EstimateNativeRegex(re: Regexp) returns (res: Option<RegexCost>)
    ensures res.Some? == Known(re)
    ensures res.Some? ==> SameCost(res.value, CostOf(re))
    decreases re
  {
    var tree := CappedAdd(1, re.runes);
    var children: seq<RegexCost> := [];
    for i := 0 to |re.subs|
      invariant AllSame(children, re.subs[..i]) && AllKnown(re.subs[..i])
      invariant Same(tree, 1 + re.runes + CostOfAll(re.subs[..i]).tree)
    {
      var child := EstimateNativeRegex(re.subs[i]);
      CostSnoc(re.subs, i);
      if child.None? {
        OneUnknown(re.subs, i);
        return None;
      }
      NextChild(re, i, tree, children, child.value);
      tree := CappedAdd(tree, child.value.tree);
      children := children + [child.value];
    }
    assert re.subs[..|re.subs|] == re.subs;
    if re.op.OtherOp? || (re.op.Repeat? && |children| != 1) {
      return None;
    }
    var instructions, runes := EstimateOwn(re, children);
    if instructions < 1 {
      instructions := 1;
    }
    return Some(RegexCost(tree, instructions, runes));
  }

  // ---------------------------------------------------------------- the budget

  /** What an expression is charged: both copies that are loaded, with two instructions more for each. */
  function Charged(spent: RegexCost, cost: RegexCost): RegexCost {
    RegexCost(spent.tree + 2 * cost.tree, spent.instructions + 2 * (cost.instructions + 2), spent.runes + 2 * cost.runes)
  }

  predicate WithinBudget(spent: RegexCost) {
    spent.tree <= MAX_REGEX_TREE && spent.instructions <= MAX_REGEX_INSTRUCTIONS && spent.runes <= MAX_REGEX_RUNES
  }

  /** Capping never changes a verdict of the budget, nor what an admitted expression is charged. */
  lemma {:induction false} CappedVerdict(spent: nat, limit: nat, estimate: nat, exact: nat)
    requires spent <= limit < CEILING && Same(estimate, exact)
    ensures CappedMultiply(estimate, 2) <= limit - spent <==> spent + 2 * exact <= limit
    ensures spent + 2 * exact <= limit ==> CappedMultiply(estimate, 2) == 2 * exact
  {
    if estimate > 0 {
      Above(estimate, 2);
    }
  }

  /** What is spent once an expression is charged; none when that is more than there is. */
  method ChargeRegex(spent: RegexCost, cost: RegexCost, ghost re: Regexp) returns (next: Option<RegexCost>)
    requires WithinBudget(spent) && SameCost(cost, CostOf(re))
    ensures next.Some? <==> WithinBudget(Charged(spent, CostOf(re)))
    ensures next.Some? ==> next.value == Charged(spent, CostOf(re))
  {
    AddIsSame(cost.instructions, CostOf(re).instructions, 2, 2);
    CappedVerdict(spent.tree, MAX_REGEX_TREE, cost.tree, CostOf(re).tree);
    CappedVerdict(spent.instructions, MAX_REGEX_INSTRUCTIONS, CappedAdd(cost.instructions, 2), CostOf(re).instructions + 2);
    CappedVerdict(spent.runes, MAX_REGEX_RUNES, cost.runes, CostOf(re).runes);
    var tree, runes := CappedMultiply(cost.tree, 2), CappedMultiply(cost.runes, 2);
    var instructions := CappedMultiply(CappedAdd(cost.instructions, 2), 2);
    if tree > MAX_REGEX_TREE - spent.tree || instructions > MAX_REGEX_INSTRUCTIONS - spent.instructions ||
       runes > MAX_REGEX_RUNES - spent.runes {
      return None;
    }
    return Some(RegexCost(spent.tree + tree, spent.instructions + instructions, spent.runes + runes));
  }
}
