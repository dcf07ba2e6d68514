/** Resolution of a model alias (router/router.go): the prebuilt per-organisation index, its reload, and
    the dispatch to an ordering strategy. */
module ModelRouting {
  import opened Wrappers
  import opened Rotation
  import opened Ordering
  import opened Sampling

  /** The key a deployment is indexed under; a global one counts as the nil UUID's. */
  function OrgKey(d: DeploymentInfo): Uuid {
    match d.orgId case None => NIL_UUID case Some(o) => o
  }

  /** The plain scan: the deployments under one key, in order. */
  function OfOrg(deps: seq<DeploymentInfo>, key: Uuid): seq<DeploymentInfo>
    decreases |deps|
  {
    if deps == [] then []
    else OfOrg(deps[..|deps| - 1], key) + if OrgKey(deps[|deps| - 1]) == key then [deps[|deps| - 1]] else []
  }

  /** What a request may be served by: everything without an organisation, else the organisation's own
      deployments, else the global ones. */
  function Scan(deps: seq<DeploymentInfo>, org: Option<Uuid>): seq<DeploymentInfo> {
    match org
    case None => deps
    case Some(o) => if OfOrg(deps, o) != [] then OfOrg(deps, o) else OfOrg(deps, NIL_UUID)
  }

  lemma OfOrgMembers(deps: seq<DeploymentInfo>, key: Uuid)
    ensures forall d :: d in OfOrg(deps, key) <==> d in deps && OrgKey(d) == key
    decreases |deps|
  {
    if deps != [] {
      OfOrgMembers(deps[..|deps| - 1], key);
      assert deps == deps[..|deps| - 1] + [deps[|deps| - 1]];
    }
  }

  lemma {:induction false} OfOrgCat(a: seq<DeploymentInfo>, b: seq<DeploymentInfo>, key: Uuid)
    ensures OfOrg(a + b, key) == OfOrg(a, key) + OfOrg(b, key)
    decreases |b|
  {
    if b == [] {
      assert a + b == a;
    } else {
      OfOrgCat(a, b[..|b| - 1], key);
      assert (a + b)[..|a + b| - 1] == a + b[..|b| - 1];
    }
  }

  /** A deployment of the organisation with this id, where the nil id stands for no organisation. */
  predicate Owns(id: Uuid, d: DeploymentInfo) {
    d.orgId == Some(id) || (d.orgId == None && id == NIL_UUID)
  }

  lemma {:induction false} SomeOwn(deps: seq<DeploymentInfo>, key: Uuid) returns (e: DeploymentInfo)
    requires OfOrg(deps, key) != []
    ensures e in deps && OrgKey(e) == key
    decreases |deps|
  {
    e := deps[|deps| - 1];
    if OrgKey(e) != key {
      e := SomeOwn(deps[..|deps| - 1], key);
    }
  }

  /** The members of the scan, told from the deployments themselves. */
  lemma ScanIs(deps: seq<DeploymentInfo>, org: Option<Uuid>, d: DeploymentInfo)
    ensures d in Scan(deps, org) <==>
              d in deps && (org == None || if exists e | e in deps :: Owns(org.value, e) then Owns(org.value, d)
                                           else Owns(NIL_UUID, d))
  {
    if org.Some? {
      OfOrgMembers(deps, org.value);
      OfOrgMembers(deps, NIL_UUID);
      if e :| e in deps && Owns(org.value, e) {
        assert e in OfOrg(deps, org.value);
      }
      if OfOrg(deps, org.value) != [] {
        var e := SomeOwn(deps, org.value);
        assert Owns(org.value, e);
      }
    }
  }

  type OrgIndex = map<Uuid, seq<DeploymentInfo>>

  /** The index holds exactly the non-empty scans. */
  ghost predicate Indexes(idx: OrgIndex, deps: seq<DeploymentInfo>) {
    forall key: Uuid ::
      && (key in idx <==> OfOrg(deps, key) != [])
      && (key in idx ==> idx[key] == OfOrg(deps, key))
  }

  method BuildOrgIndex(deps: seq<DeploymentInfo>) returns (idx: OrgIndex)
    ensures Indexes(idx, deps)
  {
    idx := map[];
    for i := 0 to |deps|
      invariant Indexes(idx, deps[..i])
    {
      assert deps[..i + 1][..i] == deps[..i];
      var key := match deps[i].orgId case None => NIL_UUID case Some(o) => o;
      idx := idx[key := (if key in idx then idx[key] else []) + [deps[i]]];
    }
    assert deps[..|deps|] == deps;
  }

  lemma EmptyIndex(idx: OrgIndex, deps: seq<DeploymentInfo>)
    requires Indexes(idx, deps)
    ensures |idx| == 0 <==> deps == []
  {
    if deps != [] {
      var d := deps[|deps| - 1];
      OfOrgMembers(deps, OrgKey(d));
      assert d in OfOrg(deps, OrgKey(d));
      assert OrgKey(d) in idx;
    } else {
      assert forall key: Uuid :: OfOrg([], key) == [];
      assert idx.Keys == {};
    }
  }

  // ---- the LiteLLM prefix ----------------------------------------------------------------------

  const LITELLM_PREFIXES: map<string, string> := map[
    "openai" := "openai", "azure" := "openai", "anthropic" := "anthropic", "claude" := "anthropic",
    "gemini" := "gemini", "vertex_ai" := "gemini", "vertex" := "gemini", "google" := "gemini",
    "bedrock" := "bedrock", "mistral" := "mistral", "cohere" := "cohere", "groq" := "groq",
    "together_ai" := "together", "together" := "together", "fireworks_ai" := "fireworks",
    "fireworks" := "fireworks", "deepseek" := "deepseek", "xai" := "xai", "ollama" := "ollama",
    "huggingface" := "huggingface"
  ]

  function SlashAt(s: string): (i: int)
    ensures -1 <= i < |s|
    ensures i >= 0 ==> s[i] == '/' && '/' !in s[..i]
    ensures i == -1 ==> '/' !in s
    decreases |s|
  {
    if s == "" then -1
    else
      var i := SlashAt(s[..|s| - 1]);
      assert s == s[..|s| - 1] + [s[|s| - 1]];
      if i >= 0 then assert s[..i] == s[..|s| - 1][..i]; i
      else if s[|s| - 1] == '/' then |s| - 1 else -1
  }

  function SplitLitellmPrefix(alias: string): Option<(string, string)> {
    var i := SlashAt(alias);
    if i <= 0 || alias[..i] !in LITELLM_PREFIXES then None
    else Some((LITELLM_PREFIXES[alias[..i]], alias[i + 1..]))
  }

  /** What stands before the first slash, if it is a known prefix, names the provider, and what stands behind it the
      model. */
  lemma PrefixSplits(alias: string, prefix: string, model: string)
    ensures '/' !in alias ==> SplitLitellmPrefix(alias) == None
    ensures '/' !in prefix && alias == prefix + "/" + model ==>
              SplitLitellmPrefix(alias)
              == if prefix in LITELLM_PREFIXES then Some((LITELLM_PREFIXES[prefix], model)) else None
  {
    var i := SlashAt(alias);
    if '/' !in prefix && alias == prefix + "/" + model {
      assert alias[|prefix|] == '/' && alias[..|prefix|] == prefix && alias[|prefix| + 1..] == model;
      SameSlash(alias, i, |prefix|);
    }
  }

  lemma SameSlash(s: string, i: int, n: nat)
    requires -1 <= i < |s| && (i >= 0 ==> s[i] == '/' && '/' !in s[..i]) && (i == -1 ==> '/' !in s)
    requires n < |s| && s[n] == '/' && '/' !in s[..n]
    ensures i == n
  {
    assert s[n] in s;
    assert forall k | 0 <= k < n :: s[..n][k] == s[k];
    assert forall k | 0 <= k < i :: s[..i][k] == s[k];
  }

  /** A prefix is the provider's own name or one of these. */
  lemma OtherNames(prefix: string)
    requires prefix in LITELLM_PREFIXES && LITELLM_PREFIXES[prefix] != prefix
    ensures (prefix, LITELLM_PREFIXES[prefix])
            in {("azure", "openai"), ("claude", "anthropic"), ("vertex_ai", "gemini"), ("vertex", "gemini"),
                ("google", "gemini"), ("together_ai", "together"), ("fireworks_ai", "fireworks")}
  {
  }

  predicate Serves(d: DeploymentInfo, provider: string, model: string) {
    d.provider == provider && d.providerModel == model
  }

  ghost predicate SomeServes(aliases: map<string, seq<DeploymentInfo>>, provider: string, model: string) {
    exists a, d :: a in aliases && d in aliases[a] && Serves(d, provider, model)
  }

  /** Global, or the organisation's own; everything is for a request without organisation. */
  predicate IsFor(d: DeploymentInfo, org: Option<Uuid>) {
    org.None? || d.orgId.None? || d.orgId == org
  }

  function Flat(entries: seq<(string, seq<DeploymentInfo>)>): map<string, seq<DeploymentInfo>> {
    if entries == [] then map[]
        else Flat(entries[..|entries| - 1])[entries[|entries| - 1].0 := entries[|entries| - 1].1]
  }

  /** A name listed twice has the later list. */
  lemma {:induction false} FlatLast(entries: seq<(string, seq<DeploymentInfo>)>, i: nat)
    requires i < |entries| && forall j | i < j < |entries| :: entries[j].0 != entries[i].0
    ensures entries[i].0 in Flat(entries) && Flat(entries)[entries[i].0] == entries[i].1
    decreases |entries|
  {
    if i < |entries| - 1 { FlatLast(entries[..|entries| - 1], i); }
  }

  datatype Strategy = Latency | Variant | Priority | CheapestFirst | InTurn

  function ParseStrategy(s: string): Strategy {
    if s == "least-latency" then Latency
    else if s == "weighted" || s == "variant" || s == "ab" then Variant
    else if s == "priority" then Priority
    else if s == "cheapest" then CheapestFirst
    else InTurn
  }

  // ---- the router ------------------------------------------------------------------------------

  method IndexAll(aliases: map<string, seq<DeploymentInfo>>) returns (index: map<string, OrgIndex>)
    ensures index.Keys == aliases.Keys && forall a | a in aliases :: Indexes(index[a], aliases[a])
  {
    index := map[];
    var todo := aliases.Keys;
    while todo != {}
      invariant todo <= aliases.Keys && index.Keys == aliases.Keys - todo
      invariant forall a | a in index :: Indexes(index[a], aliases[a])
      decreases todo
    {
      var a :| a in todo;
      todo := todo - {a};
      var idx := BuildOrgIndex(aliases[a]);
      index := index[a := idx];
    }
  }

  /** What the strategy of this name makes of a list and of the counter of its alias. */
  ghost predicate OrderedBy(name: string, deps: seq<DeploymentInfo>, pricing: Pricing, c: nat,
                            ordered: seq<DeploymentInfo>, c': nat)
    requires deps != []
    reads ordered
  {
    if name == "least-latency" then
      c' == c
      && forall i, k | 0 <= i <= k < |ordered| ::
           ordered[i].latencyEWMA <= ordered[k].latencyEWMA + 9 * (k - i)
    else if name in ["weighted", "variant", "ab"] then WeightedResult(deps, c, ordered, c')
    else if name == "priority" then
      ordered == TieOrder(deps, PriorityBeats, PriorityRank, Some(c))
      && c' == c + Bumps(deps, PriorityBeats, PriorityRank, Some(c))
    else if name == "cheapest" then
      ordered == TieOrder(deps, CostBeats(pricing), CostRank(pricing), Some(c))
      && c' == c + Bumps(deps, CostBeats(pricing), CostRank(pricing), Some(c))
    else ordered == Rotate(deps, c) && c' == c + 1
  }

  /** The whole effect of ordering a list: by the strategy of its first deployment, or the router's own where that is
      blank; a list of one or none is left as it is. */
  ghost predicate Ordered(fallback: string, alias: string, deps: seq<DeploymentInfo>, pricing: Pricing,
                          before: map<string, nat>, ordered: seq<DeploymentInfo>, after: map<string, nat>)
    reads ordered
  {
    if |deps| <= 1 then ordered == deps && after == before
    else
      && alias in before && alias in after && after == before[alias := after[alias]]
      && OrderedBy(if deps[0].strategy != "" then deps[0].strategy else fallback, deps, pricing, before[alias], ordered,
           after[alias])
  }

  method ByStrategy(name: string, deps: seq<DeploymentInfo>, pricing: Pricing, c: nat, jitter: (nat, nat) -> nat)
      returns (ordered: seq<DeploymentInfo>, c': nat)
    requires deps != [] && Jitters(jitter)
    ensures OrderedBy(name, deps, pricing, c, ordered, c') && multiset(ordered) == multiset(deps)
  {
    c' := c;
    match ParseStrategy(name) {
      case Latency =>
        ghost var ms;
        ordered, ms := LeastLatency(deps, jitter);
      case Variant =>
        ghost var pick;
        ordered, c', pick := Weighted(deps, c);
        assert !AllDefault(deps) ==> PromotedBy(deps, pick, ordered);
      case Priority =>
        var bumps;
        ordered, bumps := PriorityOrdered(deps, Some(c));
        PrioritySpec(deps, Some(c));
        c' := c + bumps;
      case CheapestFirst =>
        var bumps;
        ordered, bumps := Cheapest(deps, pricing, Some(c));
        CheapestSpec(deps, pricing, Some(c));
        c' := c + bumps;
      case InTurn =>
        ordered, c' := RoundRobin(deps, c);
        RotateHalves(deps, c);
    }
  }

  class ModelRouter {
    var aliases: map<string, seq<DeploymentInfo>>
    const strategy: string
    var counters: map<string, nat>
    var orgIndex: map<string, OrgIndex>
    var pricing: Pricing

    /** Index and counters agree with the alias table. */
    ghost predicate Valid()
      reads this
    {
      && orgIndex.Keys == aliases.Keys
      && (forall a | a in aliases :: Indexes(orgIndex[a], aliases[a]))
      && aliases.Keys <= counters.Keys
    }

    constructor (modelList: seq<(string, seq<DeploymentInfo>)>, strategy: string)
      ensures Valid() && aliases == Flat(modelList) && this.strategy == strategy && pricing == None
      ensures forall a | a in aliases :: counters[a] == 0
    {
      this.strategy, pricing := strategy, None;
      aliases, counters, orgIndex := map[], map[], map[];
      new;
      for i := 0 to |modelList|
        invariant Valid() && aliases == Flat(modelList[..i]) && pricing == None
        invariant forall a | a in aliases :: counters[a] == 0
      {
        assert modelList[..i + 1][..i] == modelList[..i];
        var (alias, deps) := modelList[i];
        aliases := aliases[alias := deps];
        counters := counters[alias := 0];
        var idx := BuildOrgIndex(deps);
        orgIndex := orgIndex[alias := idx];
      }
      assert modelList[..|modelList|] == modelList;
    }

    method SetPricingLookup(fn: Pricing)
      modifies this`pricing
      ensures pricing == fn
    {
      pricing := fn;
    }

    /** The table is replaced; a surviving alias keeps its counter, a new one starts at 0, others go. */
    method Reload(newAliases: map<string, seq<DeploymentInfo>>)
      modifies this`aliases, this`orgIndex, this`counters
      ensures Valid() && aliases == newAliases
      ensures counters.Keys == newAliases.Keys
      ensures forall a | a in newAliases :: counters[a] == if a in old(counters) then old(counters)[a] else 0
    {
      var newIndex := IndexAll(newAliases);
      aliases := newAliases;
      orgIndex := newIndex;
      AddCounters();
      DropCounters();
    }

    /** The loop that makes up missing counters, */
    method AddCounters()
      modifies this`counters
      ensures counters.Keys == old(counters).Keys + aliases.Keys
      ensures forall a | a in counters :: counters[a] == if a in old(counters) then old(counters)[a] else 0
    {
      var todo := aliases.Keys;
      while todo != {}
        invariant todo <= aliases.Keys && counters.Keys == old(counters).Keys + (aliases.Keys - todo)
        invariant forall a | a in counters :: counters[a] == if a in old(counters) then old(counters)[a] else 0
        decreases todo
      {
        var a :| a in todo;
        todo := todo - {a};
        if a !in counters {
          counters := counters[a := 0];
        }
      }
    }

    /** and the one that drops those of aliases that are gone. */
    method DropCounters()
      modifies this`counters
      ensures counters.Keys == old(counters).Keys * aliases.Keys
      ensures forall a | a in counters :: counters[a] == old(counters)[a]
    {
      var todo := counters.Keys;
      while todo != {}
        invariant todo <= counters.Keys <= old(counters).Keys && old(counters).Keys * aliases.Keys <= counters.Keys
        invariant forall a | a in counters :: (a in aliases || a in todo) && counters[a] == old(counters)[a]
        decreases todo
      {
        var a :| a in todo;
        todo := todo - {a};
        if a !in aliases {
          counters := counters - {a};
        }
      }
    }

    /** The per-alias strategy is read off the first deployment. The counter is read only for lists of two or more, and
        those belong to a known alias. */
    method Order(alias: string, deps: seq<DeploymentInfo>, jitter: (nat, nat) -> nat)
        returns (ordered: seq<DeploymentInfo>)
      requires |deps| > 1 ==> alias in counters
      requires Jitters(jitter)
      modifies this`counters
      ensures Ordered(strategy, alias, deps, pricing, old(counters), ordered, counters)
      ensures counters.Keys == old(counters).Keys && multiset(ordered) == multiset(deps)
    {
      if |deps| <= 1 {
        return deps;
      }
      var name := if deps[0].strategy == "" then strategy else deps[0].strategy;
      var c';
      ordered, c' := ByStrategy(name, deps, pricing, counters[alias], jitter);
      counters := counters[alias := c'];
    }

    /** Map iteration picks any alias that has a match. */
    method ResolveByProviderModel(provider: string, model: string) returns (r: seq<DeploymentInfo>)
      ensures r == [] <==> !SomeServes(aliases, provider, model)
      ensures r != [] ==> |r| == 1 && Serves(r[0], provider, model) && exists a :: a in aliases && r[0] in aliases[a]
    {
      var todo := aliases.Keys;
      while todo != {}
        invariant todo <= aliases.Keys
        invariant forall a, d | a in aliases && a !in todo && d in aliases[a] :: !Serves(d, provider, model)
        decreases todo
      {
        var a :| a in todo;
        todo := todo - {a};
        var deps := aliases[a];
        for i := 0 to |deps|
          invariant forall k | 0 <= k < i :: !Serves(deps[k], provider, model)
        {
          if deps[i].provider == provider && deps[i].providerModel == model {
            assert a in aliases && deps[i] in aliases[a] && Serves(deps[i], provider, model);
            return [deps[i]];
          }
        }
      }
      r := [];
    }

    /** None is the error. */
    method Resolve(alias: string, jitter: (nat, nat) -> nat) returns (r: Option<seq<DeploymentInfo>>)
      requires Valid() && Jitters(jitter)
      modifies this`counters
      ensures Valid() && counters.Keys == old(counters).Keys
      ensures alias in aliases && aliases[alias] != [] ==>
                && r.Some? && multiset(r.value) == multiset(aliases[alias])
                && Ordered(strategy, alias, aliases[alias], pricing, old(counters), r.value, counters)
      ensures !(alias in aliases && aliases[alias] != []) ==>
                && counters == old(counters)
                && (r.None? <==> !PrefixServes(alias))
                && (r.Some? ==> |r.value| == 1 && Serving(alias, r.value[0]))
    {
      if alias in aliases && |aliases[alias]| > 0 {
        var o := Order(alias, aliases[alias], jitter);
        return Some(o);
      }
      var split := SplitLitellmPrefix(alias);
      if split.Some? {
        var deps := ResolveByProviderModel(split.value.0, split.value.1);
        if |deps| > 0 {
          var o := Order(alias, deps, jitter);
          OneElement(o, deps);
          return Some(o);
        }
      }
      return None;
    }

    ghost predicate PrefixServes(alias: string)
      reads this
    {
      SplitLitellmPrefix(alias).Some? && SomeServes(aliases, SplitLitellmPrefix(alias).value.0,
          SplitLitellmPrefix(alias).value.1)
    }

    /** A deployment of the catalog that serves the provider/model reading of the alias. */
    ghost predicate Serving(alias: string, d: DeploymentInfo)
      reads this
    {
      SplitLitellmPrefix(alias).Some?
      && Serves(d, SplitLitellmPrefix(alias).value.0, SplitLitellmPrefix(alias).value.1)
      && exists a :: a in aliases && d in aliases[a]
    }

    /** The path of ResolveForOrg for an alias without deployments: what Resolve finds, filtered. */
    method ResolveScoped(org: Option<Uuid>, alias: string, jitter: (nat, nat) -> nat)
        returns (r: Option<seq<DeploymentInfo>>)
      requires Valid() && Jitters(jitter) && !(alias in aliases && aliases[alias] != [])
      modifies this`counters
      ensures Valid() && counters == old(counters)
      ensures r.Some? ==> |r.value| == 1 && Serving(alias, r.value[0]) && IsFor(r.value[0], org)
      ensures PrefixServes(alias) && (forall d | Serving(alias, d) :: IsFor(d, org)) ==> r.Some?
    {
      var found := Resolve(alias, jitter);
      if found.None? || |found.value| == 0 {
        return None;
      }
      var deps := found.value;
      if org.None? {
        return Some(deps);
      }
      var filtered: seq<DeploymentInfo> := [];
      for i := 0 to |deps|
        invariant filtered == if i == 0 || !IsFor(deps[0], org) then [] else deps
      {
        if deps[i].orgId.None? || deps[i].orgId.value == org.value {
          filtered := filtered + [deps[i]];
        }
      }
      if |filtered| > 0 {
        return Some(filtered);
      }
      return None;
    }

    /** The path of ResolveForOrg for an alias with deployments: the prebuilt index stands for the scan. */
    method ResolveKnown(org: Option<Uuid>, alias: string, jitter: (nat, nat) -> nat)
        returns (r: Option<seq<DeploymentInfo>>)
      requires Valid() && Jitters(jitter) && alias in aliases && aliases[alias] != []
      modifies this`counters
      ensures Valid() && counters.Keys == old(counters).Keys
      ensures r.None? <==> Scan(aliases[alias], org) == []
      ensures r.Some? ==> r.value != [] && multiset(r.value) == multiset(Scan(aliases[alias], org))
      ensures r.None? ==> counters == old(counters)
      ensures r.Some? ==>
                Ordered(strategy, alias, Scan(aliases[alias], org), pricing, old(counters), r.value, counters)
      ensures r.Some? && org.Some? ==> forall d | d in r.value :: OrgKey(d) == org.value || OrgKey(d) == NIL_UUID
    {
      var index := orgIndex[alias];
      assert Indexes(index, aliases[alias]);
      if org.None? {
        var o := Order(alias, aliases[alias], jitter);
        NonEmpty(o, aliases[alias]);
        return Some(o);
      }
      if org.value in index && |index[org.value]| > 0 {
        var o := Order(alias, index[org.value], jitter);
        OrgMembers(o, aliases[alias], org.value);
        return Some(o);
      }
      if NIL_UUID in index && |index[NIL_UUID]| > 0 {
        var o := Order(alias, index[NIL_UUID], jitter);
        OrgMembers(o, aliases[alias], NIL_UUID);
        return Some(o);
      }
      return None;
    }

    /** For an alias with deployments: a permutation of the plain scan, or the error exactly when the scan is
        empty. Without any, an organisation's request succeeds only if some serving deployment is its own or global,
        and surely if there is one and all are. On every path an organisation gets only its own or global
        deployments, and never an empty list. */
    method ResolveForOrg(org: Option<Uuid>, alias: string, jitter: (nat, nat) -> nat)
        returns (r: Option<seq<DeploymentInfo>>)
      requires Valid() && Jitters(jitter)
      modifies this`counters
      ensures Valid() && counters.Keys == old(counters).Keys
      ensures alias in aliases && aliases[alias] != [] ==>
                (r.None? <==> Scan(aliases[alias], org) == [])
                && (r.Some? ==>
                      && multiset(r.value) == multiset(Scan(aliases[alias], org))
                      && Ordered(strategy, alias, Scan(aliases[alias], org), pricing, old(counters), r.value, counters))
      ensures !(alias in aliases && aliases[alias] != []) || r.None? ==> counters == old(counters)
      ensures !(alias in aliases && aliases[alias] != []) ==>
                && (r.Some? ==> |r.value| == 1 && Serving(alias, r.value[0]) && IsFor(r.value[0], org))
                && (PrefixServes(alias) && (forall d | Serving(alias, d) :: IsFor(d, org)) ==> r.Some?)
      ensures r.Some? ==> r.value != []
      ensures r.Some? && org.Some? ==> forall d | d in r.value :: OrgKey(d) == org.value || OrgKey(d) == NIL_UUID
    {
      if alias in aliases { EmptyIndex(orgIndex[alias], aliases[alias]); }
      if alias !in orgIndex || |orgIndex[alias]| == 0 {
        r := ResolveScoped(org, alias, jitter);
        return;
      }
      r := ResolveKnown(org, alias, jitter);
    }
  }

  ghost predicate WeightedResult(deps: seq<DeploymentInfo>, c: nat, ordered: seq<DeploymentInfo>, c': nat) {
    if AllDefault(deps) then c' == c + 1 && (deps != [] ==> ordered == Rotate(deps, c))
    else c' == c && exists pick: nat :: pick < Total(Weights(deps)) && PromotedBy(deps, pick, ordered)
  }

  ghost predicate PromotedBy(deps: seq<DeploymentInfo>, pick: nat, ordered: seq<DeploymentInfo>) {
    Primary(Weights(deps), pick) < |deps| && LedBy(ordered, deps, Primary(Weights(deps), pick))
  }

  lemma NonEmpty<T>(a: seq<T>, b: seq<T>)
    requires multiset(a) == multiset(b)
    ensures a == [] <==> b == []
  {
    assert |multiset(a)| == |a| && |multiset(b)| == |b|;
  }

  lemma OneElement<T>(a: seq<T>, b: seq<T>)
    requires multiset(a) == multiset(b) && |b| == 1
    ensures a == b
  {
    assert |multiset(a)| == |a| && |multiset(b)| == |b|;
    assert a[0] in multiset(a);
  }

  lemma OrgMembers(a: seq<DeploymentInfo>, deps: seq<DeploymentInfo>, key: Uuid)
    requires multiset(a) == multiset(OfOrg(deps, key))
    ensures forall d | d in a :: OrgKey(d) == key
    ensures a == [] <==> OfOrg(deps, key) == []
  {
    NonEmpty(a, OfOrg(deps, key));
    OfOrgMembers(deps, key);
    forall d | d in a ensures OrgKey(d) == key { assert d in multiset(a); assert d in OfOrg(deps, key); }
  }
}
