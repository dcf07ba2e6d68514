/** The policy gate of policy.go: per-organisation rule lists folded into one decision. */
module Policy {
  import opened Wrappers

  type Strings = seq<string>

  datatype Input = Input(orgID: string, residency: string, alias: string, provider: string, region: string,
                         piiClasses: Strings, tags: Strings)

  datatype Condition = Condition(residencyEquals: string, orgEquals: string, providerIn: Strings, regionIn: Strings,
                                 piiClassIn: Strings, tagIn: Strings, aliasPrefix: string)

  datatype Rule = Rule(name: string, when: seq<Condition>, deny: bool, reason: string,
                       providers: Strings, regions: Strings,
                       requireTags: Strings, maxTokens: int, redactPII: Strings)

  datatype Reason =
    | NoReason
    | RuleDenied(text: string)
    | ProviderNotAllowed(provider: string)
    | RegionNotAllowed(region: string)

  datatype Decision = Decision(allow: bool, reason: Reason, requiredTags: Strings, cap: int,
                               providerAllow: Strings, regionAllow: Strings, redactClasses: Strings)

  const ALLOWED := Decision(true, NoReason, [], 0, [], [], [])

  function Denial(reason: Reason): Decision {
    Decision(false, reason, [], 0, [], [], [])
  }

  // ---- one rule --------------------------------------------------------------------------------

  /** Fields left blank do not constrain. */
  predicate Holds(c: Condition, input: Input) {
    && (c.residencyEquals == "" || c.residencyEquals == input.residency)
    && (c.orgEquals == "" || c.orgEquals == input.orgID)
    && (c.providerIn == [] || input.provider in c.providerIn)
    && (c.regionIn == [] || input.region in c.regionIn)
    && (c.piiClassIn == [] || exists p | p in c.piiClassIn :: p in input.piiClasses)
    && (c.tagIn == [] || exists t | t in c.tagIn :: t in input.tags)
    && c.aliasPrefix <= input.alias
  }

  predicate Matches(r: Rule, input: Input) {
    forall c | c in r.when :: Holds(c, input)
  }

  predicate Denies(r: Rule, input: Input) {
    Matches(r, input) && r.deny
  }

  predicate Contributes(r: Rule, input: Input) {
    Matches(r, input) && !r.deny
  }

  function DenyText(r: Rule): string {
    if r.reason == "" then "policy: " + r.name + " denied" else r.reason
  }

  function Apply(r: Rule, input: Input): Decision {
    if !Matches(r, input) then ALLOWED
    else if r.deny then Denial(RuleDenied(DenyText(r)))
    else Decision(true, NoReason, r.requireTags, r.maxTokens, r.providers, r.regions, r.redactPII)
  }

  // ---- the fold --------------------------------------------------------------------------------

  function Common(a: Strings, b: Strings): (out: Strings)
    ensures forall x :: x in out <==> x in a && x in b
  {
    if a == [] then []
    else
      var rest, last := Common(a[..|a| - 1], b), a[|a| - 1];
      if last in b then rest + [last] else rest
  }

  /** An empty list means no restriction, also where it came out of an intersection. */
  function Narrowed(a: Strings, b: Strings): Strings {
    if a == [] then b else if b == [] then a else Common(a, b)
  }

  method Intersect(a: Strings, b: Strings) returns (out: Strings)
    ensures out == Narrowed(a, b)
  {
    if |a| == 0 {
      return b;
    }
    if |b| == 0 {
      return a;
    }
    out := [];
    for i := 0 to |a|
      invariant out == Common(a[..i], b)
    {
      assert a[..i + 1][..i] == a[..i];
      if a[i] in b {
        out := out + [a[i]];
      }
    }
    assert a[..|a|] == a;
  }

  function LesserCap(a: int, b: int): int {
    if b > 0 && (a == 0 || b < a) then b else a
  }

  function Merged(base: Decision, next: Decision): Decision {
    base.(requiredTags := base.requiredTags + next.requiredTags,
          providerAllow := Narrowed(base.providerAllow, next.providerAllow),
          regionAllow := Narrowed(base.regionAllow, next.regionAllow),
          redactClasses := base.redactClasses + next.redactClasses,
          cap := LesserCap(base.cap, next.cap))
  }

  method MergeAllow(base: Decision, next: Decision) returns (out: Decision)
    ensures out == Merged(base, next)
  {
    out := base;
    if |next.requiredTags| > 0 {
      out := out.(requiredTags := out.requiredTags + next.requiredTags);
    }
    if |next.providerAllow| > 0 {
      var common := Intersect(out.providerAllow, next.providerAllow);
      out := out.(providerAllow := common);
    }
    if |next.regionAllow| > 0 {
      var common := Intersect(out.regionAllow, next.regionAllow);
      out := out.(regionAllow := common);
    }
    if |next.redactClasses| > 0 {
      out := out.(redactClasses := out.redactClasses + next.redactClasses);
    }
    if next.cap > 0 && (out.cap == 0 || next.cap < out.cap) {
      out := out.(cap := next.cap);
    }
  }

  /** The lists that matching rules bring, in order. */
  function Lists(rules: seq<Rule>, input: Input, listOf: Rule -> Strings): (lists: seq<Strings>)
    ensures forall l :: l in lists <==> l != [] && exists r | r in rules :: Contributes(r, input) && listOf(r) == l
  {
    if rules == [] then []
    else
      var rest, last := Lists(rules[..|rules| - 1], input, listOf), rules[|rules| - 1];
      assert rules == rules[..|rules| - 1] + [last];
      if Contributes(last, input) && listOf(last) != [] then rest + [listOf(last)] else rest
  }

  function Providers(rules: seq<Rule>, input: Input): seq<Strings> {
    Lists(rules, input, (r: Rule) => r.providers)
  }

  function Regions(rules: seq<Rule>, input: Input): seq<Strings> {
    Lists(rules, input, (r: Rule) => r.regions)
  }

  /** What matching rules add, one after the other. */
  function Joined(rules: seq<Rule>, input: Input, listOf: Rule -> Strings): (all: Strings)
    ensures forall x :: x in all <==> exists r | r in rules :: Contributes(r, input) && x in listOf(r)
  {
    if rules == [] then []
    else
      var rest, last := Joined(rules[..|rules| - 1], input, listOf), rules[|rules| - 1];
      assert rules == rules[..|rules| - 1] + [last];
      if Contributes(last, input) then rest + listOf(last) else rest
  }

  function NarrowAll(lists: seq<Strings>): Strings {
    if lists == [] then [] else Narrowed(NarrowAll(lists[..|lists| - 1]), lists[|lists| - 1])
  }

  function Caps(rules: seq<Rule>, input: Input): set<int> {
    set r | r in rules && Contributes(r, input) && r.maxTokens > 0 :: r.maxTokens
  }

  predicate LeastCap(cap: int, caps: set<int>) {
    if caps == {} then cap == 0 else cap in caps && forall c | c in caps :: cap <= c
  }

  /** What the loop has gathered from rules none of which denies. */
  ghost predicate Gathers(d: Decision, rules: seq<Rule>, input: Input) {
    && d.allow && d.reason == NoReason
    && d.providerAllow == NarrowAll(Providers(rules, input))
    && d.regionAllow == NarrowAll(Regions(rules, input))
    && LeastCap(d.cap, Caps(rules, input))
    && d.requiredTags == Joined(rules, input, (r: Rule) => r.requireTags)
    && d.redactClasses == Joined(rules, input, (r: Rule) => r.redactPII)
  }

  predicate Admits(allowlist: Strings, value: string) {
    allowlist == [] || value in allowlist
  }

  predicate FirstDeny(rules: seq<Rule>, input: Input, i: nat) {
    i < |rules| && Denies(rules[i], input) && forall j | 0 <= j < i :: !Denies(rules[j], input)
  }

  predicate DeniedBy(rules: seq<Rule>, input: Input) {
    exists r | r in rules :: Denies(r, input)
  }

  predicate Passes(rules: seq<Rule>, input: Input) {
    && !DeniedBy(rules, input)
    && Admits(NarrowAll(Providers(rules, input)), input.provider)
    && (input.region == "" || Admits(NarrowAll(Regions(rules, input)), input.region))
  }

  /** The decision on an input, over the rules in force for it. */
  ghost predicate Decides(d: Decision, rules: seq<Rule>, input: Input) {
    && d.allow == Passes(rules, input)
    && (forall i: nat | FirstDeny(rules, input, i) :: d == Denial(RuleDenied(DenyText(rules[i]))))
    && (d.allow ==> Gathers(d, rules, input))
    && (!d.allow && !DeniedBy(rules, input) ==>
          d == Denial(if Admits(NarrowAll(Providers(rules, input)), input.provider) then RegionNotAllowed(input.region)
                      else ProviderNotAllowed(input.provider)))
  }

  class Engine {
    var orgRules: map<string, seq<Rule>>

    constructor ()
      ensures orgRules == map[]
    {
      orgRules := map[];
    }

    method SetRules(orgID: string, rules: seq<Rule>)
      modifies this
      ensures orgRules == old(orgRules)[orgID := rules]
    {
      orgRules := orgRules[orgID := rules];
    }

    function RulesOf(orgID: string): seq<Rule>
      reads this
    {
      if orgID in orgRules then orgRules[orgID] else []
    }

    /** The global rules, then those of the organisation: a request without one meets the global rules twice. */
    function InForce(input: Input): seq<Rule>
      reads this
    {
      RulesOf("") + RulesOf(input.orgID)
    }

    method Evaluate(request: Option<Input>) returns (d: Decision)
      ensures request.None? ==> d.allow && d == Decision(true, NoReason, [], 0, [], [], [])
      ensures request.Some? ==>
                var global := if "" in orgRules then orgRules[""] else [];
                var local := if request.value.orgID in orgRules then orgRules[request.value.orgID] else [];
                Decides(d, global + local, request.value) && Answers(d, global + local, request.value)
    {
      if request.None? {
        return ALLOWED;
      }
      d := Decide(InForce(request.value), request.value);
    }
  }

  /** The fold and the two gates behind it. */
  method Decide(rules: seq<Rule>, input: Input) returns (d: Decision)
    ensures Decides(d, rules, input) && Answers(d, rules, input)
  {
    d := ALLOWED;
    for i := 0 to |rules|
      invariant Gathers(d, rules[..i], input)
      invariant forall j | 0 <= j < i :: !Denies(rules[j], input)
    {
      var next := Apply(rules[i], input);
      if !next.allow {
        DeniedAt(rules, input, i);
        DecidesAnswers(next, rules, input);
        return next;
      }
      GatherNext(d, rules, input, i);
      d := MergeAllow(d, next);
    }
    assert rules[..|rules|] == rules;
    Gated(d, rules, input);
    if |d.providerAllow| > 0 && input.provider !in d.providerAllow {
      d := Denial(ProviderNotAllowed(input.provider));
    } else if |d.regionAllow| > 0 && input.region != "" && input.region !in d.regionAllow {
      d := Denial(RegionNotAllowed(input.region));
    }
    DecidesAnswers(d, rules, input);
  }

  /** Some field of the condition is filled in and says otherwise. */
  predicate Disagrees(c: Condition, input: Input) {
    || (c.residencyEquals != "" && input.residency != c.residencyEquals)
    || (c.orgEquals != "" && input.orgID != c.orgEquals)
    || (c.providerIn != [] && input.provider !in c.providerIn)
    || (c.regionIn != [] && input.region !in c.regionIn)
    || (c.piiClassIn != [] && forall p | p in input.piiClasses :: p !in c.piiClassIn)
    || (c.tagIn != [] && forall t | t in input.tags :: t !in c.tagIn)
    || !(c.aliasPrefix <= input.alias)
  }

  predicate Agrees(r: Rule, input: Input) {
    forall c | c in r.when :: !Disagrees(c, input)
  }

  lemma MatchesIffAgrees(r: Rule, input: Input)
    ensures Matches(r, input) <==> Agrees(r, input)
  {
    forall c ensures Holds(c, input) <==> !Disagrees(c, input) {
    }
  }

  /** The decision told from the rules that agree with the input: any deny among them refuses, the first with its
      reason; else each adds its tags, its classes and its cap, and nothing else does. */
  ghost predicate Answers(d: Decision, rules: seq<Rule>, input: Input) {
    && (forall r | r in rules && Agrees(r, input) && r.deny :: !d.allow)
    && (forall i | 0 <= i < |rules| && Agrees(rules[i], input) && rules[i].deny
          && (forall j | 0 <= j < i && Agrees(rules[j], input) :: !rules[j].deny) ::
          d.reason == RuleDenied(if rules[i].reason != "" then rules[i].reason
                                 else "policy: " + rules[i].name + " denied"))
    && (d.allow ==> (forall r | r in rules && Agrees(r, input) :: Adds(d, r))
                    && AddedBy(d, set r | r in rules && Agrees(r, input))
                    && (d.providerAllow == [] || input.provider in d.providerAllow)
                    && (d.regionAllow == [] || input.region == "" || input.region in d.regionAllow))
    && (!d.allow ==> d == Decision(false, d.reason, [], 0, [], [], []) && d.reason != NoReason)
  }

  ghost predicate Adds(d: Decision, r: Rule) {
    && (forall t | t in r.requireTags :: t in d.requiredTags)
    && (forall p | p in r.redactPII :: p in d.redactClasses)
    && (r.maxTokens > 0 ==> 0 < d.cap <= r.maxTokens)
  }

  ghost predicate AddedBy(d: Decision, rules: set<Rule>) {
    && (forall t | t in d.requiredTags :: exists r | r in rules :: t in r.requireTags)
    && (forall p | p in d.redactClasses :: exists r | r in rules :: p in r.redactPII)
    && (d.cap == 0 || exists r | r in rules :: r.maxTokens == d.cap)
  }

  lemma DecidesAnswers(d: Decision, rules: seq<Rule>, input: Input)
    requires Decides(d, rules, input)
    ensures Answers(d, rules, input)
  {
    forall r ensures Matches(r, input) <==> Agrees(r, input) { MatchesIffAgrees(r, input); }
    forall i: nat | FirstDeny(rules, input, i) ensures rules[i] in rules {}
    if d.allow {
      GathersAdds(d, rules, input);
    } else if DeniedBy(rules, input) {
      var i := FirstIndex(rules, input);
    }
  }

  lemma GathersAdds(d: Decision, rules: seq<Rule>, input: Input)
    requires Gathers(d, rules, input) && !DeniedBy(rules, input)
    requires forall r :: Matches(r, input) <==> Agrees(r, input)
    ensures forall r | r in rules && Agrees(r, input) :: Adds(d, r)
    ensures AddedBy(d, set r | r in rules && Agrees(r, input))
  {
    forall r | r in rules && Agrees(r, input) ensures Contributes(r, input) {
      assert !Denies(r, input);
    }
    forall r | r in rules && Agrees(r, input) && r.maxTokens > 0 ensures 0 < d.cap <= r.maxTokens {
      assert r.maxTokens in Caps(rules, input);
    }
  }

  // ---- a rule that does not agree --------------------------------------------------------------

  lemma {:induction false} ListsCat(a: seq<Rule>, b: seq<Rule>, input: Input, listOf: Rule -> Strings)
    ensures Lists(a + b, input, listOf) == Lists(a, input, listOf) + Lists(b, input, listOf)
    decreases |b|
  {
    if b == [] {
      assert a + b == a;
    } else {
      ListsCat(a, b[..|b| - 1], input, listOf);
      assert (a + b)[..|a + b| - 1] == a + b[..|b| - 1];
    }
  }

  lemma {:induction false} JoinedCat(a: seq<Rule>, b: seq<Rule>, input: Input, listOf: Rule -> Strings)
    ensures Joined(a + b, input, listOf) == Joined(a, input, listOf) + Joined(b, input, listOf)
    decreases |b|
  {
    if b == [] {
      assert a + b == a;
    } else {
      JoinedCat(a, b[..|b| - 1], input, listOf);
      assert (a + b)[..|a + b| - 1] == a + b[..|b| - 1];
    }
  }

  lemma Skips(a: seq<Rule>, r: Rule, b: seq<Rule>, input: Input, listOf: Rule -> Strings)
    requires !Matches(r, input)
    ensures Lists(a + [r] + b, input, listOf) == Lists(a + b, input, listOf)
    ensures Joined(a + [r] + b, input, listOf) == Joined(a + b, input, listOf)
  {
    ListsCat(a + [r], b, input, listOf);
    ListsCat(a, [r], input, listOf);
    ListsCat(a, b, input, listOf);
    JoinedCat(a + [r], b, input, listOf);
    JoinedCat(a, [r], input, listOf);
    JoinedCat(a, b, input, listOf);
    assert Lists([r], input, listOf) == [] && Joined([r], input, listOf) == [];
  }

  lemma SameDenies(a: seq<Rule>, r: Rule, b: seq<Rule>, input: Input)
    requires !Matches(r, input)
    ensures DeniedBy(a + [r] + b, input) <==> DeniedBy(a + b, input)
    ensures Caps(a + [r] + b, input) == Caps(a + b, input)
  {
    var with, without := a + [r] + b, a + b;
    forall q ensures q in with <==> q in without || q == r {}
  }

  /** A rule with a field that disagrees changes nothing: the decision is that of the rules without it. */
  lemma SkippedRule(d: Decision, a: seq<Rule>, r: Rule, b: seq<Rule>, input: Input)
    requires !Agrees(r, input)
    ensures Decides(d, a + b, input) ==> Decides(d, a + [r] + b, input)
  {
    MatchesIffAgrees(r, input);
    SameDenies(a, r, b, input);
    Skips(a, r, b, input, (r: Rule) => r.providers);
    Skips(a, r, b, input, (r: Rule) => r.regions);
    Skips(a, r, b, input, (r: Rule) => r.requireTags);
    Skips(a, r, b, input, (r: Rule) => r.redactPII);
    if Decides(d, a + b, input) { SkippedDecides(d, a, r, b, input); }
  }

  lemma SkippedDecides(d: Decision, a: seq<Rule>, r: Rule, b: seq<Rule>, input: Input)
    requires Decides(d, a + b, input) && !Matches(r, input)
    requires DeniedBy(a + [r] + b, input) <==> DeniedBy(a + b, input)
    requires Caps(a + [r] + b, input) == Caps(a + b, input)
    requires Providers(a + [r] + b, input) == Providers(a + b, input)
             && Regions(a + [r] + b, input) == Regions(a + b, input)
    requires Joined(a + [r] + b, input, (r: Rule) => r.requireTags) == Joined(a + b, input, (r: Rule) => r.requireTags)
    requires Joined(a + [r] + b, input, (r: Rule) => r.redactPII) == Joined(a + b, input, (r: Rule) => r.redactPII)
    ensures Decides(d, a + [r] + b, input)
  {
    forall i: nat | FirstDeny(a + [r] + b, input, i) ensures d == Denial(RuleDenied(DenyText((a + [r] + b)[i]))) {
      FirstDenyWithout(a, r, b, input, i);
    }
  }

  lemma FirstDenyWithout(a: seq<Rule>, r: Rule, b: seq<Rule>, input: Input, i: nat)
    requires FirstDeny(a + [r] + b, input, i) && !Matches(r, input)
    ensures i != |a|
    ensures var k := if i < |a| then i else i - 1; FirstDeny(a + b, input, k) && (a + b)[k] == (a + [r] + b)[i]
  {
    var with, without := a + [r] + b, a + b;
    assert with[|a|] == r;
    forall j | 0 <= j < |without| ensures without[j] == with[if j < |a| then j else j + 1] {}
  }

  lemma DeniedAt(rules: seq<Rule>, input: Input, i: nat)
    requires FirstDeny(rules, input, i)
    ensures Decides(Denial(RuleDenied(DenyText(rules[i]))), rules, input)
  {
    assert rules[i] in rules;
    assert DeniedBy(rules, input);
  }

  lemma Gated(d: Decision, rules: seq<Rule>, input: Input)
    requires Gathers(d, rules, input) && forall j | 0 <= j < |rules| :: !Denies(rules[j], input)
    ensures !Admits(d.providerAllow, input.provider)
            ==> Decides(Denial(ProviderNotAllowed(input.provider)), rules, input)
    ensures Admits(d.providerAllow, input.provider) && input.region != "" && !Admits(d.regionAllow, input.region)
            ==> Decides(Denial(RegionNotAllowed(input.region)), rules, input)
    ensures Admits(d.providerAllow, input.provider) && (input.region == "" || Admits(d.regionAllow, input.region))
            ==> Decides(d, rules, input)
  {
    assert !DeniedBy(rules, input);
  }

  lemma {:induction false} GatherNext(d: Decision, rules: seq<Rule>, input: Input, i: nat)
    requires i < |rules| && Gathers(d, rules[..i], input) && !Denies(rules[i], input)
    ensures Gathers(Merged(d, Apply(rules[i], input)), rules[..i + 1], input)
  {
    var before, rule := rules[..i], rules[i];
    assert rules[..i + 1] == before + [rule] && (before + [rule])[..i] == before;
    ListsExtend(before, rule, input, (r: Rule) => r.providers);
    ListsExtend(before, rule, input, (r: Rule) => r.regions);
    CapExtends(d.cap, before, rule, input);
    assert d.requiredTags + [] == d.requiredTags && d.redactClasses + [] == d.redactClasses;
  }

  lemma CapExtends(cap: int, rules: seq<Rule>, rule: Rule, input: Input)
    requires LeastCap(cap, Caps(rules, input))
    ensures LeastCap(LesserCap(cap, if Contributes(rule, input) then rule.maxTokens else 0),
              Caps(rules + [rule], input))
  {
    forall r ensures r in rules + [rule] <==> r in rules || r == rule {}
    if Contributes(rule, input) && rule.maxTokens > 0 {
      assert Caps(rules + [rule], input) == Caps(rules, input) + {rule.maxTokens};
    } else {
      assert Caps(rules + [rule], input) == Caps(rules, input);
    }
  }

  lemma ListsExtend(rules: seq<Rule>, rule: Rule, input: Input, listOf: Rule -> Strings)
    ensures var all := Lists(rules + [rule], input, listOf);
            NarrowAll(all) == Narrowed(NarrowAll(Lists(rules, input, listOf)),
                if Contributes(rule, input) then listOf(rule) else [])
  {
    assert (rules + [rule])[..|rules|] == rules;
    var rest := Lists(rules, input, listOf);
    assert (rest + [listOf(rule)])[..|rest|] == rest;
  }

  // ---- conjunction -----------------------------------------------------------------------------

  predicate InAll(x: string, lists: seq<Strings>) {
    forall l | l in lists :: x in l
  }

  ghost predicate Share(lists: seq<Strings>) {
    lists == [] || exists x :: InAll(x, lists)
  }

  /** Lists that share an element narrow to their intersection. */
  lemma {:induction false} NarrowAllShared(lists: seq<Strings>, x: string)
    requires InAll(x, lists) && lists != []
    ensures forall y :: y in NarrowAll(lists) <==> InAll(y, lists)
  {
    var init, last := lists[..|lists| - 1], lists[|lists| - 1];
    assert lists == init + [last];
    assert x in last;
    if init != [] {
      NarrowAllShared(init, x);
    }
    forall y ensures InAll(y, lists) <==> InAll(y, init) && y in last {
      if InAll(y, init) && y in last {
        forall l | l in lists ensures y in l { assert l in init || l == last; }
      }
    }
  }

  /** The gate is the conjunction of the allowlists exactly when they share an element (or there are none):
      an intersection that comes out empty is taken for no restriction. */
  lemma ConjunctionIffShared(lists: seq<Strings>)
    requires forall l | l in lists :: l != []
    ensures (forall p | Admits(NarrowAll(lists), p) :: InAll(p, lists)) <==> Share(lists)
  {
    if lists != [] {
      if Share(lists) {
        var x :| InAll(x, lists);
        NarrowAllShared(lists, x);
        assert x in NarrowAll(lists);
      } else {
        var p := if NarrowAll(lists) == [] then "" else NarrowAll(lists)[0];
        assert Admits(NarrowAll(lists), p) && !InAll(p, lists);
      }
    }
  }

  /** What a caller reads off an allowed request. */
  lemma AllowedLiesInAll(d: Decision, rules: seq<Rule>, input: Input)
    requires Decides(d, rules, input) && d.allow
    ensures Share(Providers(rules, input)) ==> InAll(input.provider, Providers(rules, input))
    ensures Share(Regions(rules, input)) && input.region != "" ==> InAll(input.region, Regions(rules, input))
  {
    ConjunctionIffShared(Providers(rules, input));
    ConjunctionIffShared(Regions(rules, input));
  }

  // ---- order -----------------------------------------------------------------------------------

  ghost predicate SameRules(a: seq<Rule>, b: seq<Rule>) {
    forall r :: r in a <==> r in b
  }

  ghost predicate SameElements(a: Strings, b: Strings) {
    forall x :: x in a <==> x in b
  }

  /** Rules that are the same as a set decide the same, whatever their order and repetition, as long as
      the allowlists share an element. */
  lemma OrderIndependent(a: seq<Rule>, b: seq<Rule>, input: Input)
    requires SameRules(a, b) && Share(Providers(a, input)) && Share(Regions(a, input))
    ensures Passes(a, input) == Passes(b, input) && Caps(a, input) == Caps(b, input)
    ensures SameElements(NarrowAll(Providers(a, input)), NarrowAll(Providers(b, input)))
    ensures SameElements(NarrowAll(Regions(a, input)), NarrowAll(Regions(b, input)))
  {
    SameLists(a, b, input, (r: Rule) => r.providers);
    SameLists(a, b, input, (r: Rule) => r.regions);
  }

  lemma {:induction false} SameDecision(d: Decision, e: Decision, a: seq<Rule>, b: seq<Rule>, input: Input)
    requires Decides(d, a, input) && Decides(e, b, input) && SameRules(a, b)
    requires Share(Providers(a, input)) && Share(Regions(a, input))
    ensures d.allow == e.allow && d.cap == e.cap
    ensures SameElements(d.providerAllow, e.providerAllow) && SameElements(d.regionAllow, e.regionAllow)
    ensures SameElements(d.requiredTags, e.requiredTags) && SameElements(d.redactClasses, e.redactClasses)
  {
    OrderIndependent(a, b, input);
    if d.allow {
      SameJoined(a, b, input, (r: Rule) => r.requireTags);
      SameJoined(a, b, input, (r: Rule) => r.redactPII);
    } else {
      RefusalIsBare(d, a, input);
      RefusalIsBare(e, b, input);
    }
  }

  lemma SameJoined(a: seq<Rule>, b: seq<Rule>, input: Input, listOf: Rule -> Strings)
    requires SameRules(a, b)
    ensures SameElements(Joined(a, input, listOf), Joined(b, input, listOf))
  {
  }

  lemma SameLists(a: seq<Rule>, b: seq<Rule>, input: Input, listOf: Rule -> Strings)
    requires SameRules(a, b) && Share(Lists(a, input, listOf))
    ensures var x, y := NarrowAll(Lists(a, input, listOf)), NarrowAll(Lists(b, input, listOf));
            SameElements(x, y) && (x == [] <==> y == [])
  {
    var ls, ms := Lists(a, input, listOf), Lists(b, input, listOf);
    assert forall l :: l in ls <==> l in ms;
    assert ms != [] ==> ms[0] in ms;
    if ls != [] {
      assert ls[0] in ms;
      var x :| InAll(x, ls);
      NarrowAllShared(ls, x);
      assert InAll(x, ms);
      NarrowAllShared(ms, x);
      assert x in NarrowAll(ls) && x in NarrowAll(ms);
    }
  }

  lemma RefusalIsBare(d: Decision, rules: seq<Rule>, input: Input)
    requires Decides(d, rules, input) && !d.allow
    ensures exists reason :: d == Denial(reason)
  {
    if DeniedBy(rules, input) {
      var i := FirstIndex(rules, input);
      assert d == Denial(RuleDenied(DenyText(rules[i])));
    }
  }

  ghost function FirstIndex(rules: seq<Rule>, input: Input): (i: nat)
    requires DeniedBy(rules, input)
    ensures FirstDeny(rules, input, i)
  {
    if Denies(rules[0], input) then 0
    else
      assert rules == [rules[0]] + rules[1..];
      FirstIndex(rules[1..], input) + 1
  }

  /** Meeting the rules twice, as a request without an organisation meets the global ones, then makes no difference. */
  lemma TwiceIsOnce(rules: seq<Rule>, input: Input)
    requires Share(Providers(rules, input)) && Share(Regions(rules, input))
    ensures Passes(rules + rules, input) == Passes(rules, input) && Caps(rules + rules, input) == Caps(rules, input)
    ensures SameElements(NarrowAll(Providers(rules + rules, input)), NarrowAll(Providers(rules, input)))
    ensures SameElements(NarrowAll(Regions(rules + rules, input)), NarrowAll(Regions(rules, input)))
  {
    assert SameRules(rules, rules + rules);
    OrderIndependent(rules, rules + rules, input);
  }

  /** The condition is exact: the allowlists are the same for every order and repetition of the rules if and only
      if the lists share an element. */
  lemma OrderIndependentIff(rules: seq<Rule>, input: Input)
    ensures (forall other | SameRules(rules, other) ::
               SameElements(NarrowAll(Providers(rules, input)), NarrowAll(Providers(other, input))))
                   <==> Share(Providers(rules, input))
    ensures (forall other | SameRules(rules, other) ::
               SameElements(NarrowAll(Regions(rules, input)), NarrowAll(Regions(other, input))))
                   <==> Share(Regions(rules, input))
  {
    NarrowingIff(rules, input, (r: Rule) => r.providers);
    NarrowingIff(rules, input, (r: Rule) => r.regions);
  }

  lemma NarrowingIff(rules: seq<Rule>, input: Input, listOf: Rule -> Strings)
    ensures (forall other | SameRules(rules, other) ::
               SameElements(NarrowAll(Lists(rules, input, listOf)), NarrowAll(Lists(other, input, listOf))))
                   <==> Share(Lists(rules, input, listOf))
  {
    if Share(Lists(rules, input, listOf)) {
      forall other | SameRules(rules, other)
        ensures SameElements(NarrowAll(Lists(rules, input, listOf)), NarrowAll(Lists(other, input, listOf)))
      {
        SameLists(rules, other, input, listOf);
      }
    } else {
      var other := AnotherOrder(rules, input, listOf);
      var x, y := NarrowAll(Lists(rules, input, listOf)), NarrowAll(Lists(other, input, listOf));
      if x == [] { assert y[0] in y; } else { assert x[0] in x; }
    }
  }

  /** Rules whose lists share nothing can be repeated so that a restriction is lifted, or one imposed. */
  lemma AnotherOrder(rules: seq<Rule>, input: Input, listOf: Rule -> Strings) returns (other: seq<Rule>)
    requires !Share(Lists(rules, input, listOf))
    ensures SameRules(rules, other)
    ensures NarrowAll(Lists(rules, input, listOf)) == [] <==> NarrowAll(Lists(other, input, listOf)) != []
  {
    var lists := Lists(rules, input, listOf);
    if NarrowAll(lists) == [] {
      assert lists[0] in lists;
      var r :| r in rules && Contributes(r, input) && listOf(r) == lists[0];
      other := rules + [r];
      ListsExtend(rules, r, input, listOf);
    } else {
      var n := EmptiedBy(rules, input, listOf);
      other := rules + rules[..n];
    }
  }

  /** Going through them again empties the list somewhere on the way. */
  lemma EmptiedBy(rules: seq<Rule>, input: Input, listOf: Rule -> Strings) returns (n: nat)
    requires !Share(Lists(rules, input, listOf)) && NarrowAll(Lists(rules, input, listOf)) != []
    ensures n <= |rules| && NarrowAll(Lists(rules + rules[..n], input, listOf)) == []
  {
    if forall k | 0 <= k <= |rules| :: NarrowAll(Lists(rules + rules[..k], input, listOf)) != [] {
      var all := rules[..|rules|];
      assert all == rules;
      NeverEmptied(rules, input, listOf, |rules|);
      var x := NarrowAll(Lists(rules + all, input, listOf))[0];
      forall l | l in Lists(rules, input, listOf) ensures x in l {
        var r :| r in rules && Contributes(r, input) && listOf(r) == l;
        assert r in all;
      }
      assert InAll(x, Lists(rules, input, listOf));
    }
    n :| 0 <= n <= |rules| && NarrowAll(Lists(rules + rules[..n], input, listOf)) == [];
  }

  predicate InLists(xs: Strings, rules: seq<Rule>, input: Input, listOf: Rule -> Strings) {
    forall r | r in rules && Contributes(r, input) && listOf(r) != [] :: forall x | x in xs :: x in listOf(r)
  }

  lemma {:induction false} NeverEmptied(rules: seq<Rule>, input: Input, listOf: Rule -> Strings, n: nat)
    requires n <= |rules| && forall k | 0 <= k <= n :: NarrowAll(Lists(rules + rules[..k], input, listOf)) != []
    ensures InLists(NarrowAll(Lists(rules + rules[..n], input, listOf)), rules[..n], input, listOf)
  {
    if n > 0 {
      NeverEmptied(rules, input, listOf, n - 1);
      var before, r := rules + rules[..n - 1], rules[n - 1];
      OneFurther(rules, n);
      ListsExtend(before, r, input, listOf);
      StaysIn(NarrowAll(Lists(before, input, listOf)), rules[..n - 1], r, input, listOf);
    }
  }

  lemma OneFurther(rules: seq<Rule>, n: nat)
    requires 0 < n <= |rules|
    ensures rules + rules[..n] == (rules + rules[..n - 1]) + [rules[n - 1]]
    ensures rules[..n] == rules[..n - 1] + [rules[n - 1]]
  {
  }

  lemma StaysIn(xs: Strings, rules: seq<Rule>, rule: Rule, input: Input, listOf: Rule -> Strings)
    requires xs != [] && InLists(xs, rules, input, listOf)
    ensures InLists(Narrowed(xs, if Contributes(rule, input) then listOf(rule) else []), rules + [rule], input, listOf)
  {
  }

  function Only(provider: string): Rule {
    Rule("only " + provider, [], false, "", [provider], [], [], 0, [])
  }

  function From(provider: string): Input {
    Input("", "", "", provider, "", [], [])
  }

  /** Pairwise disjoint allowlists: which provider passes depends on the order of the rules. */
  lemma OrderMatters()
    ensures Passes([Only("a"), Only("b"), Only("c")], From("c"))
    ensures !Passes([Only("c"), Only("a"), Only("b")], From("c"))
  {
    NarrowThree("a", "b", "c", "c");
    NarrowThree("c", "a", "b", "c");
  }

  /** A request without an organisation meets the global rules twice, which can lift a restriction. */
  lemma MetTwice()
    ensures !Passes([Only("a"), Only("b"), Only("c")], From("d"))
    ensures var rules := [Only("a"), Only("b"), Only("c")]; Passes(rules + rules, From("d"))
  {
    var input := From("d");
    var r3 := [Only("a"), Only("b"), Only("c")];
    NarrowThree("a", "b", "c", "d");
    ThenThree(r3, "c", "a", "b", "c", input);
    assert r3 + r3 == r3 + [Only("a"), Only("b"), Only("c")];
    NoDeny(r3 + r3, input);
  }

  /** Three more disjoint allowlists, the first of them disjoint from the one in force. */
  lemma ThenThree(rules: seq<Rule>, now: string, a: string, b: string, c: string, input: Input)
    requires NarrowAll(Providers(rules, input)) == [now] && now != a && b != c
    ensures NarrowAll(Providers(rules + [Only(a), Only(b), Only(c)], input)) == []
  {
    var listOf := (r: Rule) => r.providers;
    ListsExtend(rules, Only(a), input, listOf);
    ListsExtend(rules + [Only(a)], Only(b), input, listOf);
    ListsExtend(rules + [Only(a)] + [Only(b)], Only(c), input, listOf);
    Singletons(now, a);
    Singletons(b, c);
    assert rules + [Only(a)] + [Only(b)] + [Only(c)] == rules + [Only(a), Only(b), Only(c)];
  }

  lemma NarrowThree(a: string, b: string, c: string, provider: string)
    requires a != b
    ensures var rules := [Only(a), Only(b), Only(c)];
            NarrowAll(Providers(rules, From(provider))) == [c] && (Passes(rules, From(provider)) <==> provider == c)
  {
    var input, listOf := From(provider), (r: Rule) => r.providers;
    ListsExtend([], Only(a), input, listOf);
    ListsExtend([Only(a)], Only(b), input, listOf);
    ListsExtend([Only(a), Only(b)], Only(c), input, listOf);
    assert [] + [Only(a)] == [Only(a)] && [Only(a)] + [Only(b)] == [Only(a), Only(b)];
    assert [Only(a), Only(b)] + [Only(c)] == [Only(a), Only(b), Only(c)];
    Singletons(a, b);
    NoDeny([Only(a), Only(b), Only(c)], input);
  }

  lemma Singletons(a: string, b: string)
    requires a != b
    ensures Narrowed([a], [b]) == []
  {
    assert Common([a][..0], [b]) == [];
    assert a !in [b];
  }

  lemma NoDeny(rules: seq<Rule>, input: Input)
    requires input.region == "" && forall r | r in rules :: !r.deny
    ensures Passes(rules, input) <==> Admits(NarrowAll(Providers(rules, input)), input.provider)
  {
  }
}
