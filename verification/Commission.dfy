/** Commission rule resolution and amounts: apps/scheduling/commission_resolution.py. */
module Commission {
  import opened Prelude

  type Id = nat

  datatype RuleKind = Percent | FixedCents
  datatype Rule = Rule(
    id: nat, branch: Option<Id>, professional: Option<Id>, service: Option<Id>, kind: RuleKind,
    percentBasisPoints: Option<nat>, fixedCents: Option<nat>, priority: int)
  datatype Context = Context(branch: Option<Id>, professional: Id, service: Option<Id>)

  function Specificity(r: Rule): int {
    (if r.branch.Some? then 100 else 0) + (if r.professional.Some? then 10 else 0) + (if r.service.Some? then 1 else 0)
  }

  predicate Matches(ctx: Context, r: Rule) {
    && (r.branch.Some? ==> ctx.branch == r.branch)
    && (r.professional.Some? ==> r.professional.value == ctx.professional)
    && (r.service.Some? ==> ctx.service == r.service)
  }

  /** The sort key (specificity, priority, id) of `a` is strictly above that of `b`. */
  predicate Outranks(a: Rule, b: Rule) {
    || Specificity(a) > Specificity(b)
    || (Specificity(a) == Specificity(b) && (a.priority > b.priority || (a.priority == b.priority && a.id > b.id)))
  }

  /** A branch beats a professional beats a service beats a priority beats an id. */
  lemma OutranksIsScopeOrder(a: Rule, b: Rule)
    ensures Outranks(a, b) <==>
      if a.branch.Some? != b.branch.Some? then a.branch.Some?
      else if a.professional.Some? != b.professional.Some? then a.professional.Some?
      else if a.service.Some? != b.service.Some? then a.service.Some?
      else if a.priority != b.priority then a.priority > b.priority
      else a.id > b.id
  {
  }

  function Filtered(ctx: Context, rules: seq<Rule>): seq<Rule> {
    if rules == [] then [] else
      var front := Filtered(ctx, rules[..|rules| - 1]);
      if Matches(ctx, rules[|rules| - 1]) then front + [rules[|rules| - 1]] else front
  }

  /** Insertion into a list sorted by descending key, after equal keys: one step of a stable sort. */
  function Insert(sorted: seq<Rule>, r: Rule): seq<Rule> {
    if sorted == [] then [r]
    else if Outranks(r, sorted[0]) then [r] + sorted
    else [sorted[0]] + Insert(sorted[1..], r)
  }

  function Sorted(rules: seq<Rule>): seq<Rule> {
    if rules == [] then [] else Insert(Sorted(rules[..|rules| - 1]), rules[|rules| - 1])
  }

  function Best(ctx: Context, rules: seq<Rule>): Option<Rule> {
    var sorted := Sorted(Filtered(ctx, rules));
    if sorted == [] then None else Some(sorted[0])
  }

  method ResolveBest(ctx: Context, rules: seq<Rule>) returns (best: Option<Rule>)
    ensures best == Best(ctx, rules)
  {
    var matches: seq<Rule> := [];
    for i := 0 to |rules|
      invariant matches == Filtered(ctx, rules[..i])
    {
      assert rules[..i + 1][..i] == rules[..i];
      if Matches(ctx, rules[i]) {
        matches := matches + [rules[i]];
      }
    }
    assert rules[..|rules|] == rules;
    if matches == [] {
      return None;
    }
    var ordered: seq<Rule> := [];
    for i := 0 to |matches|
      invariant ordered == Sorted(matches[..i])
    {
      assert matches[..i + 1][..i] == matches[..i];
      ordered := Insert(ordered, matches[i]);
    }
    assert matches[..|matches|] == matches;
    SortedKeepsRows(matches);
    best := Some(ordered[0]);
  }

  /** `r` matches and outranks every other matching rule. */
  ghost predicate IsBest(ctx: Context, rules: seq<Rule>, r: Rule) {
    && r in rules && Matches(ctx, r)
    && forall x :: x in rules && Matches(ctx, x) && x != r ==> Outranks(r, x)
  }

  /** Ids are primary keys. */
  ghost predicate DistinctIds(rules: seq<Rule>) {
    forall x, y :: x in rules && y in rules && x.id == y.id ==> x == y
  }

  lemma {:induction false} FilteredRows(ctx: Context, rules: seq<Rule>, r: Rule)
    ensures r in Filtered(ctx, rules) <==> r in rules && Matches(ctx, r)
  {
    if rules != [] {
      FilteredRows(ctx, rules[..|rules| - 1], r);
      assert rules == rules[..|rules| - 1] + [rules[|rules| - 1]];
    }
  }

  /** No row has a sort key above that of the first. */
  ghost predicate HeadFirst(s: seq<Rule>) {
    forall x :: x in s ==> !Outranks(x, s[0])
  }

  lemma InsertRows(sorted: seq<Rule>, r: Rule)
    requires HeadFirst(sorted)
    ensures multiset(Insert(sorted, r)) == multiset(sorted) + multiset{r}
    ensures HeadFirst(Insert(sorted, r))
  {
    InsertKeeps(sorted, r);
    forall x | x in Insert(sorted, r) ensures !Outranks(x, Insert(sorted, r)[0]) {
      assert x in multiset(Insert(sorted, r));
    }
  }

  lemma {:induction false} InsertKeeps(sorted: seq<Rule>, r: Rule)
    ensures multiset(Insert(sorted, r)) == multiset(sorted) + multiset{r}
  {
    if sorted != [] && !Outranks(r, sorted[0]) {
      assert sorted == [sorted[0]] + sorted[1..];
      InsertKeeps(sorted[1..], r);
    }
  }

  lemma {:induction false} SortedKeepsRows(rules: seq<Rule>)
    ensures multiset(Sorted(rules)) == multiset(rules)
    ensures |Sorted(rules)| == |rules|
    ensures HeadFirst(Sorted(rules))
  {
    if rules != [] {
      var front := rules[..|rules| - 1];
      SortedKeepsRows(front);
      InsertRows(Sorted(front), rules[|rules| - 1]);
      assert rules == front + [rules[|rules| - 1]];
      assert |multiset(Sorted(rules))| == |multiset(rules)|;
    }
  }

  /** The choice is the unique maximum among the matching rules, and exists when one matches. */
  lemma BestIsUniqueMaximum(ctx: Context, rules: seq<Rule>)
    requires DistinctIds(rules)
    ensures Best(ctx, rules).None? <==> forall r :: r in rules ==> !Matches(ctx, r)
    ensures forall r :: IsBest(ctx, rules, r) <==> Best(ctx, rules) == Some(r)
  {
    var m := Filtered(ctx, rules);
    forall r ensures r in m <==> r in rules && Matches(ctx, r) { FilteredRows(ctx, rules, r); }
    SortedKeepsRows(m);
    var s := Sorted(m);
    forall x ensures x in s <==> x in m { assert x in s <==> x in multiset(s); assert x in m <==> x in multiset(m); }
    if s == [] {
      assert m == [];
    } else {
      assert s[0] in s;
      forall r | IsBest(ctx, rules, r) ensures r == s[0] {
        assert r in m;
      }
    }
  }

  /** The order in which the rules are read does not matter. */
  lemma BestIgnoresOrder(ctx: Context, rules: seq<Rule>, shuffled: seq<Rule>)
    requires DistinctIds(rules) && multiset(rules) == multiset(shuffled)
    ensures Best(ctx, rules) == Best(ctx, shuffled)
  {
    forall x ensures x in rules <==> x in shuffled {
      assert x in rules <==> x in multiset(rules);
      assert x in shuffled <==> x in multiset(shuffled);
    }
    BestIsUniqueMaximum(ctx, rules);
    BestIsUniqueMaximum(ctx, shuffled);
    match Best(ctx, rules)
    case None =>
    case Some(r) => assert IsBest(ctx, shuffled, r);
  }

  // ---- amounts ------------------------------------------------------------------------------

  /** Round half to even of n / d, on exact rationals. */
  function RoundHalfEven(n: int, d: int): int
    requires d > 0
  {
    var q, rem := n / d, n % d;
    if 2 * rem < d then q else if 2 * rem > d then q + 1 else if q % 2 == 0 then q else q + 1
  }

  /** `m` is a nearest integer to n / d, and the even one when two are equally near. */
  ghost predicate IsHalfEven(n: int, d: int, m: int) {
    && -d <= 2 * (d * m - n) <= d
    && (2 * (d * m - n) == d || 2 * (d * m - n) == -d ==> m % 2 == 0)
  }

  lemma HalfEvenIsNearest(n: int, d: int)
    requires d > 0
    ensures IsHalfEven(n, d, RoundHalfEven(n, d))
  {
    var q, rem := n / d, n % d;
    assert n == d * q + rem;
    assert d * (q + 1) == d * q + d;
  }

  lemma MulMonotone(a: int, b: int, k: nat)
    requires a <= b
    ensures a * k <= b * k
  {
  }

  lemma MulGap(d: nat, m1: int, m2: int)
    requires m1 > m2
    ensures d * m1 >= d * m2 + d
    ensures m1 > m2 + 1 ==> d * m1 >= d * m2 + 2 * d
  {
    MulMonotone(m2 + 1, m1, d);
    if m1 > m2 + 1 { MulMonotone(m2 + 2, m1, d); }
  }

  lemma HalfEvenMonotone(n1: int, n2: int, d: int, m1: int, m2: int)
    requires d > 0 && n1 <= n2 && IsHalfEven(n1, d, m1) && IsHalfEven(n2, d, m2)
    ensures m1 <= m2
  {
    if m1 > m2 {
      MulGap(d, m1, m2);
    }
  }

  /** Nearest-even rounding is unique, so the characterisation determines the function. */
  lemma HalfEvenUnique(n: int, d: int, m: int)
    requires d > 0
    ensures IsHalfEven(n, d, m) <==> m == RoundHalfEven(n, d)
  {
    HalfEvenIsNearest(n, d);
    if IsHalfEven(n, d, m) {
      HalfEvenMonotone(n, n, d, m, RoundHalfEven(n, d));
      HalfEvenMonotone(n, n, d, RoundHalfEven(n, d), m);
    }
  }

  function Min(a: int, b: int): int { if a < b then a else b }

  function OrZero(v: Option<nat>): nat { match v case None => 0 case Some(x) => x }

  function CommissionCents(baseAmountCents: int, rule: Rule): int {
    var base := if baseAmountCents < 0 then 0 else baseAmountCents;
    match rule.kind
    case Percent => Min(base, RoundHalfEven(base * OrZero(rule.percentBasisPoints), 10000))
    case FixedCents => Min(base, OrZero(rule.fixedCents))
  }

  lemma ScaledRounding(n: int, base: nat)
    ensures n >= 0 ==> RoundHalfEven(n, 10000) >= 0
    ensures n <= base * 10000 ==> RoundHalfEven(n, 10000) <= base
    ensures n >= base * 10000 + 10000 ==> RoundHalfEven(n, 10000) > base
  {
    HalfEvenIsNearest(n, 10000);
  }

  /** A commission lies between zero and its base and never falls when the base grows. */
  lemma CommissionBounds(base: nat, more: nat, rule: Rule)
    requires base <= more
    ensures 0 <= CommissionCents(base, rule) <= base
    ensures CommissionCents(base, rule) <= CommissionCents(more, rule)
  {
    var bp := OrZero(rule.percentBasisPoints);
    MulMonotone(0, base, bp);
    MulMonotone(base, more, bp);
    HalfEvenIsNearest(base * bp, 10000);
    HalfEvenIsNearest(more * bp, 10000);
    HalfEvenMonotone(base * bp, more * bp, 10000, RoundHalfEven(base * bp, 10000), RoundHalfEven(more * bp, 10000));
    ScaledRounding(base * bp, 0);
  }

  /** Up to 10000 basis points the cap never binds: a percent commission is the half-even rounding
      of the exact percentage, so it is within half a cent of it. */
  lemma PercentIsExactRounding(base: nat, rule: Rule)
    requires rule.kind.Percent? && OrZero(rule.percentBasisPoints) <= 10000
    ensures IsHalfEven(base * OrZero(rule.percentBasisPoints), 10000, CommissionCents(base, rule))
  {
    var bp := OrZero(rule.percentBasisPoints);
    HalfEvenIsNearest(base * bp, 10000);
    MulMonotone(bp, 10000, base);
    ScaledRounding(base * bp, base);
  }

  /** Above 10000 basis points the cap does bind; the database check excludes such rules. */
  lemma CapBindsAboveHundredPercent(base: nat, rule: Rule)
    requires rule.kind.Percent? && base >= 10000 && OrZero(rule.percentBasisPoints) > 10000
    ensures CommissionCents(base, rule) == base < RoundHalfEven(base * OrZero(rule.percentBasisPoints), 10000)
  {
    var bp := OrZero(rule.percentBasisPoints);
    MulMonotone(10001, bp, base);
    ScaledRounding(base * bp, base);
  }

  /** A fixed amount, or the percentage rounded to a nearest cent with ties to even; the base caps both. */
  ghost predicate IsAmount(base: nat, rule: Rule, cents: int) {
    match rule.kind
    case FixedCents =>
      var fixed := if rule.fixedCents.Some? then rule.fixedCents.value else 0;
      cents <= base && cents <= fixed && (cents == base || cents == fixed)
    case Percent =>
      var rate := if rule.percentBasisPoints.Some? then rule.percentBasisPoints.value else 0;
      exists m :: IsHalfEven(base * rate, 10000, m) && cents == if m <= base then m else base
  }

  /** Both kinds of amount, for every base; a negative base counts as zero. */
  lemma AmountIff(base: nat, rule: Rule, cents: int)
    ensures cents == CommissionCents(base, rule) <==> IsAmount(base, rule, cents)
  {
    var n := base * OrZero(rule.percentBasisPoints);
    var rate := if rule.percentBasisPoints.Some? then rule.percentBasisPoints.value else 0;
    assert rate == OrZero(rule.percentBasisPoints) && base * rate == n;
    forall m ensures IsHalfEven(base * rate, 10000, m) <==> m == RoundHalfEven(n, 10000) {
      HalfEvenUnique(n, 10000, m);
    }
    if rule.kind.Percent? {
      assert IsHalfEven(base * rate, 10000, RoundHalfEven(n, 10000));
      assert CommissionCents(base, rule) == Min(base, RoundHalfEven(n, 10000));
      if cents == CommissionCents(base, rule) { assert IsAmount(base, rule, cents); }
    }
  }

  lemma NegativeBaseIsZero(base: int, rule: Rule)
    requires base < 0
    ensures CommissionCents(base, rule) == 0
  {
    ScaledRounding(0, 0);
  }
}
