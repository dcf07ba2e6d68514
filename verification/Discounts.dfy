/** The discount rows of db/savings.go, each statement or transaction one atomic step, and the prices
    cost/catalog.go and cost/engine.go build on them. Money is real, times are integers. */
module Discounts {
  import opened Wrappers

  /** An organisation id is never the empty string: that is the key of the rows without one. */
  type OrgKey = string

  datatype Row = Row(id: nat, org: Option<OrgKey>, provider: string, pct: real, declaredAt: int,
                     attestedBy: Option<nat>, attestedAt: Option<int>, signature: Option<string>,
                         effectiveTo: Option<int>)

  function KeyOf(org: Option<OrgKey>): OrgKey {
    match org case None => "" case Some(o) => o
  }

  predicate Active(r: Row) {
    r.effectiveTo.None?
  }

  /** The rate a row may contribute: declared is not enough. */
  predicate Effective(r: Row, key: OrgKey, provider: string) {
    Active(r) && r.attestedAt.Some? && KeyOf(r.org) == key && r.provider == provider
  }

  ghost predicate TableInv(rows: seq<Row>) {
    && (forall i, j | 0 <= i < j < |rows| :: rows[i].id != rows[j].id)
    && (forall i, j | 0 <= i < j < |rows| && Active(rows[i]) && Active(rows[j]) ::
         !(rows[i].org == rows[j].org && rows[i].provider == rows[j].provider))
    && (forall i | 0 <= i < |rows| :: 0.0 <= rows[i].pct < 1.0 && rows[i].org != Some(""))
  }

  /** A row later in its life: what it declares is fixed, attestation and expiry are never undone. */
  predicate LaterRow(a: Row, b: Row) {
    && (a.id, a.org, a.provider, a.pct, a.declaredAt) == (b.id, b.org, b.provider, b.pct, b.declaredAt)
    && (a.attestedAt.Some? ==> (a.attestedBy, a.attestedAt, a.signature) == (b.attestedBy, b.attestedAt, b.signature))
    && (a.effectiveTo.Some? ==> a.effectiveTo == b.effectiveTo)
  }

  ghost predicate Later(a: seq<Row>, b: seq<Row>) {
    |a| <= |b| && forall i | 0 <= i < |a| :: LaterRow(a[i], b[i])
  }

  /** The UPDATE statements: every row for which the WHERE clause holds is changed. */
  function Update(rows: seq<Row>, hit: Row -> bool, change: Row -> Row): (out: seq<Row>)
    ensures |out| == |rows| && forall i | 0 <= i < |rows| :: out[i] == if hit(rows[i]) then change(rows[i]) else rows[i]
  {
    seq(|rows|, i requires 0 <= i < |rows| => if hit(rows[i]) then change(rows[i]) else rows[i])
  }

  function IsActiveFor(org: Option<OrgKey>, provider: string): Row -> bool {
    (r: Row) => r.org == org && r.provider == provider && Active(r)
  }

  function Expired(now: int): Row -> Row {
    (r: Row) => r.(effectiveTo := Some(now))
  }

  function Pending(id: nat): Row -> bool {
    (r: Row) => r.id == id && r.attestedAt.None? && Active(r)
  }

  function Attested(attester: nat, signature: string, now: int): Row -> Row {
    (r: Row) => r.(attestedBy := Some(attester), attestedAt := Some(now), signature := Some(signature))
  }

  function IsActiveId(id: nat): Row -> bool {
    (r: Row) => r.id == id && Active(r)
  }

  class DiscountTable {
    var rows: seq<Row>

    constructor ()
      ensures rows == [] && TableInv(rows)
    {
      rows := [];
    }

    /** One transaction: expire the active row of the same organisation and provider, insert the new one.
        A rate outside [0, 1) violates a constraint of the table and rolls it back. */
    method Declare(org: Option<OrgKey>, provider: string, pct: real, now: int, id: nat) returns (ok: bool)
      requires TableInv(rows) && org != Some("") && forall r | r in rows :: r.id != id
      modifies this
      ensures TableInv(rows) && Later(old(rows), rows) && ok == (0.0 <= pct < 1.0)
      ensures rows == Apply(old(rows), Op.Declare(org, provider, pct, now, id))
      ensures !ok ==> rows == old(rows)
      ensures ok ==>
                && |rows| == |old(rows)| + 1
                && rows[|old(rows)|] == Row(id, org, provider, pct, now, None, None, None, None)
                && forall i | 0 <= i < |old(rows)| ::
                     rows[i] == if old(rows)[i].org == org && old(rows)[i].provider == provider
                                   && old(rows)[i].effectiveTo == None
                                then old(rows)[i].(effectiveTo := Some(now)) else old(rows)[i]
    {
      ApplyKeeps(rows, Op.Declare(org, provider, pct, now, id));
      var before := rows;
      rows := Update(rows, IsActiveFor(org, provider), Expired(now));
      if !(0.0 <= pct < 1.0) {
        rows := before;
        return false;
      }
      rows := rows + [Row(id, org, provider, pct, now, None, None, None, None)];
      return true;
    }

    /** Fails, changing nothing, unless an active row with that id awaits its countersignature. */
    method Countersign(id: nat, attester: nat, signature: string, now: int) returns (ok: bool)
      requires TableInv(rows)
      modifies this
      ensures TableInv(rows) && Later(old(rows), rows)
      ensures ok <==> exists r :: r in old(rows) && r.id == id && r.attestedAt == None && r.effectiveTo == None
      ensures rows == Apply(old(rows), Op.Countersign(id, attester, signature, now))
      ensures |rows| == |old(rows)| && forall i | 0 <= i < |rows| ::
                rows[i] == if old(rows)[i].id == id && old(rows)[i].attestedAt == None
                              && old(rows)[i].effectiveTo == None
                           then old(rows)[i].(attestedBy := Some(attester), attestedAt := Some(now),
                                              signature := Some(signature))
                           else old(rows)[i]
    {
      ApplyKeeps(rows, Op.Countersign(id, attester, signature, now));
      ok := exists r :: r in rows && Pending(id)(r);
      rows := Update(rows, Pending(id), Attested(attester, signature, now));
    }

    method Revoke(id: nat, now: int)
      requires TableInv(rows)
      modifies this
      ensures TableInv(rows) && Later(old(rows), rows)
      ensures rows == Apply(old(rows), Op.Revoke(id, now))
      ensures |rows| == |old(rows)| && forall i | 0 <= i < |rows| ::
                rows[i] == if old(rows)[i].id == id && old(rows)[i].effectiveTo == None
                           then old(rows)[i].(effectiveTo := Some(now)) else old(rows)[i]
    {
      ApplyKeeps(rows, Op.Revoke(id, now));
      rows := Update(rows, IsActiveId(id), Expired(now));
    }

    /** In which order the active rows come does not matter below. */
    method ListActive() returns (out: seq<Row>)
      ensures forall r :: r in out <==> r in rows && r.effectiveTo == None
    {
      out := [];
      for i := 0 to |rows|
        invariant forall r :: r in out <==> r in rows[..i] && Active(r)
      {
        if Active(rows[i]) {
          out := out + [rows[i]];
        }
      }
      assert rows[..|rows|] == rows;
    }
  }

  // ---- runs ------------------------------------------------------------------------------------

  datatype Op =
    | Declare(org: Option<OrgKey>, provider: string, pct: real, now: int, id: nat)
    | Countersign(id: nat, attester: nat, signature: string, now: int)
    | Revoke(id: nat, now: int)

  /** Ids are fresh. */
  predicate Permitted(rows: seq<Row>, op: Op) {
    op.Declare? ==> op.org != Some("") && forall r | r in rows :: r.id != op.id
  }

  /** What an operation makes of the table. */
  function Apply(rows: seq<Row>, op: Op): seq<Row> {
    match op
    case Declare(org, provider, pct, now, id) =>
      if !(0.0 <= pct < 1.0) then rows
      else Update(rows, IsActiveFor(org, provider), Expired(now))
           + [Row(id, org, provider, pct, now, None, None, None, None)]
    case Countersign(id, attester, signature, now) => Update(rows, Pending(id), Attested(attester, signature, now))
    case Revoke(id, now) => Update(rows, IsActiveId(id), Expired(now))
  }

  predicate Runs(rows: seq<Row>, ops: seq<Op>)
    decreases |ops|
  {
    ops == [] || (Permitted(rows, ops[0]) && Runs(Apply(rows, ops[0]), ops[1..]))
  }

  function After(rows: seq<Row>, ops: seq<Op>): seq<Row>
    decreases |ops|
  {
    if ops == [] then rows else After(Apply(rows, ops[0]), ops[1..])
  }

  lemma {:induction false} ApplyKeeps(rows: seq<Row>, op: Op)
    requires TableInv(rows) && Permitted(rows, op)
    ensures TableInv(Apply(rows, op)) && Later(rows, Apply(rows, op))
  {
    match op
    case Declare(org, provider, pct, now, id) =>
      if 0.0 <= pct < 1.0 {
        UpdateKeeps(rows, IsActiveFor(org, provider), Expired(now));
        InsertKeeps(rows, Update(rows, IsActiveFor(org, provider), Expired(now)),
            Row(id, org, provider, pct, now, None, None, None, None));
      }
    case Countersign(id, attester, signature, now) =>
      UpdateKeeps(rows, Pending(id), Attested(attester, signature, now));
    case Revoke(id, now) => UpdateKeeps(rows, IsActiveId(id), Expired(now));
  }

  lemma UpdateKeeps(rows: seq<Row>, hit: Row -> bool, change: Row -> Row)
    requires TableInv(rows) && forall r | hit(r) :: LaterRow(r, change(r))
    ensures TableInv(Update(rows, hit, change)) && Later(rows, Update(rows, hit, change))
  {
    var out := Update(rows, hit, change);
    assert forall i | 0 <= i < |rows| :: LaterRow(rows[i], out[i]);
  }

  lemma InsertKeeps(rows: seq<Row>, updated: seq<Row>, row: Row)
    requires TableInv(updated) && Later(rows, updated) && |rows| == |updated|
    requires 0.0 <= row.pct < 1.0 && row.org != Some("") && forall r | r in rows :: r.id != row.id
    requires forall i | 0 <= i < |updated| && Active(updated[i]) ::
               !(updated[i].org == row.org && updated[i].provider == row.provider)
    ensures TableInv(updated + [row]) && Later(rows, updated + [row])
  {
    assert forall i | 0 <= i < |rows| :: rows[i] in rows && LaterRow(rows[i], updated[i]);
  }

  /** After any run an organisation has at most one active row per provider, and no terms, attestation or expiry of an
      earlier row have been undone. */
  lemma {:induction false} RunKeeps(rows: seq<Row>, ops: seq<Op>)
    requires TableInv(rows) && Runs(rows, ops)
    ensures TableInv(After(rows, ops)) && Later(rows, After(rows, ops))
    decreases |ops|
  {
    if ops != [] {
      var next := Apply(rows, ops[0]);
      ApplyKeeps(rows, ops[0]);
      RunKeeps(next, ops[1..]);
      forall i | 0 <= i < |rows| ensures LaterRow(rows[i], After(next, ops[1..])[i]) {
        assert LaterRow(rows[i], next[i]) && LaterRow(next[i], After(next, ops[1..])[i]);
      }
    }
  }

  // ---- prices ----------------------------------------------------------------------------------

  /** Prices by token, and what other endpoints charge by; `sizes` are the prices of images of a named size. */
  datatype ModelPricing = ModelPricing(inputCost: real, outputCost: real, cacheRead: real, others: OtherPrices)

  datatype OtherPrices = OtherPrices(image: real, character: real, second: real, sizes: map<string, real>)

  datatype UsageInfo = UsageInfo(promptTokens: int, completionTokens: int, cachedTokens: int, others: OtherUsage)

  datatype OtherUsage = OtherUsage(imageCount: int, imageSize: string, characterCount: int, seconds: real)

  const CHATS := ["chat", "responses", "completions"]

  const ENDPOINTS := CHATS + ["embeddings", "moderations", "images", "audio/speech", "audio/transcriptions"]

  const NO_USAGE := OtherUsage(0, "", 0, 0.0)

  const NO_PRICES := OtherPrices(0.0, 0.0, 0.0, map[])

  datatype CostResult = CostResult(inputCost: real, outputCost: real, totalCost: real)

  type DiscountMap = map<OrgKey, map<string, real>>

  function RateIn(m: DiscountMap, key: OrgKey, provider: string): Option<real> {
    if key in m && provider in m[key] then Some(m[key][provider]) else None
  }

  /** The organisation's rate, else the global one, else none. */
  function DiscountFor(m: DiscountMap, org: OrgKey, provider: string): real {
    match RateIn(m, org, provider)
    case Some(d) => d
    case None => match RateIn(m, "", provider) case Some(d) => d case None => 0.0
  }

  /** The map agrees with the rows: a rate is there iff some row is effective, and it is that row's. */
  ghost predicate Reflects(m: DiscountMap, rows: seq<Row>) {
    forall key, provider ::
      match RateIn(m, key, provider)
      case Some(d) => exists r :: r in rows && Effective(r, key, provider) && r.pct == d
      case None => forall r | r in rows :: !Effective(r, key, provider)
  }

  class CostEngine {
    const builtIn: map<string, ModelPricing>
    var custom: map<string, ModelPricing>
    var operator: map<string, ModelPricing>
    var orgDiscounts: DiscountMap

    constructor (builtIn: map<string, ModelPricing>)
      ensures this.builtIn == builtIn && custom == map[] && operator == map[] && orgDiscounts == map[]
    {
      this.builtIn, custom, operator, orgDiscounts := builtIn, map[], map[], map[];
    }

    /** The signed catalog wins over custom rows, these over the embedded prices. */
    function GetPricing(provider: string, model: string): Option<ModelPricing>
      reads this
    {
      var key := provider + "/" + model;
      if key in operator then Some(operator[key])
      else if key in custom then Some(custom[key])
      else if key in builtIn then Some(builtIn[key])
      else None
    }

    /** Only countersigned rows count. */
    method LoadEffectiveDiscounts(table: DiscountTable)
      requires TableInv(table.rows)
      modifies this`orgDiscounts
      ensures Reflects(orgDiscounts, table.rows) && RatesAre(orgDiscounts, table.rows)
    {
      var rows := table.ListActive();
      var next: DiscountMap := map[];
      for i := 0 to |rows|
        invariant Reflects(next, rows[..i])
      {
        var row := rows[i];
        assert rows[..i + 1] == rows[..i] + [row];
        if row.attestedAt.None? {
          SkipRow(next, rows[..i], row);
          continue;
        }
        var k := match row.org case None => "" case Some(o) => o;
        AddRow(next, rows[..i], row);
        if k !in next {
          next := next[k := map[]];
        }
        next := next[k := next[k][row.provider := row.pct]];
      }
      assert rows[..|rows|] == rows;
      ActiveReflect(next, rows, table.rows);
      ReflectsRates(next, table.rows);
      orgDiscounts := next;
    }

    function EffectiveRate(org: OrgKey, provider: string, model: string): Option<(real, real, real)>
      reads this
    {
      match GetPricing(provider, model)
      case None => None
      case Some(p) =>
        var d := DiscountFor(orgDiscounts, org, provider);
        Some((p.inputCost * (1.0 - d), p.outputCost * (1.0 - d), d))
    }

    /** What an endpoint charges; an endpoint unknown to it is an error only where there is a price. */
    method Calculate(endpoint: string, provider: string, model: string, usage: UsageInfo)
        returns (r: CostResult, ok: bool)
      ensures ok <==> GetPricing(provider, model) == None || endpoint in ENDPOINTS
      ensures r.totalCost == r.inputCost + r.outputCost && (endpoint !in CHATS ==> r.outputCost == 0.0)
      ensures GetPricing(provider, model) == None || !ok ==> r.totalCost == 0.0
      ensures GetPricing(provider, model).Some? ==>
                var p, o := GetPricing(provider, model).value, usage.others;
                && (endpoint in CHATS ==> r.totalCost == ChatCost(p, usage))
                && (endpoint in ["embeddings", "moderations"] ==>
                      r.totalCost == usage.promptTokens as real * p.inputCost)
                && (endpoint == "images" ==>
                      r.totalCost == (if o.imageCount > 1 then o.imageCount else 1) as real
                                     * if o.imageSize in p.others.sizes && o.imageSize != ""
                                       then p.others.sizes[o.imageSize] else p.others.image)
                && (endpoint == "audio/speech" ==> r.totalCost == o.characterCount as real * p.others.character)
                && (endpoint == "audio/transcriptions" ==> r.totalCost == o.seconds * p.others.second)
    {
      r, ok := CostResult(0.0, 0.0, 0.0), true;
      var pricing := GetPricing(provider, model);
      if pricing.None? {
        return;
      }
      var p := pricing.value;
      if endpoint == "chat" || endpoint == "responses" || endpoint == "completions" {
        r := r.(inputCost := usage.promptTokens as real * p.inputCost);
        r := r.(outputCost := usage.completionTokens as real * p.outputCost);
        if usage.cachedTokens > 0 && p.cacheRead > 0.0 {
          var savings := usage.cachedTokens as real * (p.inputCost - p.cacheRead);
          r := r.(inputCost := r.inputCost - savings);
        }
      } else if endpoint == "embeddings" || endpoint == "moderations" {
        r := r.(inputCost := usage.promptTokens as real * p.inputCost);
      } else if endpoint == "images" {
        var n := if usage.others.imageCount <= 0 then 1 else usage.others.imageCount;
        if usage.others.imageSize != "" && usage.others.imageSize in p.others.sizes {
          r := r.(inputCost := n as real * p.others.sizes[usage.others.imageSize]);
        } else {
          r := r.(inputCost := n as real * p.others.image);
        }
      } else if endpoint == "audio/speech" {
        r := r.(inputCost := usage.others.characterCount as real * p.others.character);
      } else if endpoint == "audio/transcriptions" {
        r := r.(inputCost := usage.others.seconds * p.others.second);
      } else {
        return r, false;
      }
      r := r.(totalCost := r.inputCost + r.outputCost);
    }

    /** The discounted price, cut off at zero. */
    method BaselineCost(org: OrgKey, provider: string, model: string, usage: UsageInfo)
        returns (cost: real, discount: real, ok: bool)
      ensures ok == GetPricing(provider, model).Some?
      ensures !ok ==> cost == 0.0 && discount == 0.0
      ensures ok ==> discount == DiscountFor(orgDiscounts, org, provider)
                     && cost == CutOff(ChatCost(GetPricing(provider, model).value, usage) * (1.0 - discount))
      ensures ok ==> var total := ChatCost(GetPricing(provider, model).value, usage) * (1.0 - discount);
                     if total >= 0.0 then cost == total else cost == 0.0
    {
      var rate := EffectiveRate(org, provider, model);
      if rate.None? {
        return 0.0, 0.0, false;
      }
      var (input, output, d) := rate.value;
      var c := usage.promptTokens as real * input + usage.completionTokens as real * output;
      if usage.cachedTokens > 0 {
        var p := GetPricing(provider, model);
        if p.Some? && p.value.cacheRead > 0.0 {
          var savings := usage.cachedTokens as real * (p.value.inputCost - p.value.cacheRead);
          c := c - savings * (1.0 - d);
        }
      }
      Distribute(GetPricing(provider, model).value, usage, 1.0 - d, c);
      if c < 0.0 {
        c := 0.0;
      }
      return c, d, true;
    }
  }

  function ChatCost(p: ModelPricing, u: UsageInfo): real {
    u.promptTokens as real * p.inputCost
    - (if u.cachedTokens > 0 && p.cacheRead > 0.0 then u.cachedTokens as real * (p.inputCost - p.cacheRead) else 0.0)
    + u.completionTokens as real * p.outputCost
  }

  function CutOff(c: real): real {
    if c < 0.0 then 0.0 else c
  }

  lemma Distribute(p: ModelPricing, u: UsageInfo, mul: real, c: real)
    requires c == u.promptTokens as real * (p.inputCost * mul) + u.completionTokens as real * (p.outputCost * mul)
                  - (if u.cachedTokens > 0 && p.cacheRead > 0.0
                     then u.cachedTokens as real * (p.inputCost - p.cacheRead) * mul else 0.0)
    ensures c == ChatCost(p, u) * mul
  {
  }

  /** The discount scales the baseline exactly: the cut-off commutes with it. */
  lemma BaselineScales(p: ModelPricing, u: UsageInfo, d: real)
    requires 0.0 <= d < 1.0
    ensures CutOff(ChatCost(p, u) * (1.0 - d)) == CutOff(ChatCost(p, u)) * (1.0 - d)
  {
    var c, m := ChatCost(p, u), 1.0 - d;
    if c < 0.0 { assert c * m < 0.0; } else { assert c * m >= 0.0; }
  }

  /** Without a discount the baseline is what Calculate charges exactly when that is not negative, as it is
      when no more tokens are cached than prompted. */
  lemma BaselineIsCalculate(p: ModelPricing, u: UsageInfo)
    ensures CutOff(ChatCost(p, u) * (1.0 - 0.0)) == ChatCost(p, u) <==> ChatCost(p, u) >= 0.0
    ensures p.inputCost >= 0.0 && p.outputCost >= 0.0 && u.completionTokens >= 0
            && 0 <= u.cachedTokens <= u.promptTokens
            ==> ChatCost(p, u) >= 0.0
  {
    var prompt, cached, completion := u.promptTokens as real, u.cachedTokens as real, u.completionTokens as real;
    if p.inputCost >= 0.0 && p.outputCost >= 0.0 && u.completionTokens >= 0 && 0 <= u.cachedTokens <= u.promptTokens {
      assert completion * p.outputCost >= 0.0;
      assert prompt * p.inputCost - cached * p.inputCost == (prompt - cached) * p.inputCost >= 0.0;
      assert cached * (p.inputCost - p.cacheRead) == cached * p.inputCost - cached * p.cacheRead;
      if p.cacheRead > 0.0 { assert cached * p.cacheRead >= 0.0; }
      assert prompt * p.inputCost >= 0.0;
    }
  }

  /** After a reload the discount is the unique active countersigned row's, else the global one's, else 0;
      and it lies in [0, 1). */
  lemma DiscountIsTheRows(m: DiscountMap, rows: seq<Row>, org: OrgKey, provider: string)
    requires TableInv(rows) && Reflects(m, rows)
    ensures forall r | r in rows && Effective(r, org, provider) :: DiscountFor(m, org, provider) == r.pct
    ensures (forall r | r in rows :: !Effective(r, org, provider)) ==>
              forall r | r in rows && Effective(r, "", provider) :: DiscountFor(m, org, provider) == r.pct
    ensures (forall r | r in rows :: !Effective(r, org, provider) && !Effective(r, "", provider))
            ==> DiscountFor(m, org, provider) == 0.0
    ensures 0.0 <= DiscountFor(m, org, provider) < 1.0
  {
    forall r, q, key | r in rows && q in rows && Effective(r, key, provider) && Effective(q, key, provider)
        ensures r == q {
      SameKeySameRow(rows, r, q, key, provider);
    }
  }

  lemma SameKeySameRow(rows: seq<Row>, r: Row, q: Row, key: OrgKey, provider: string)
    requires TableInv(rows) && r in rows && q in rows && Effective(r, key, provider) && Effective(q, key, provider)
    ensures r == q
  {
    var i :| 0 <= i < |rows| && rows[i] == r;
    var j :| 0 <= j < |rows| && rows[j] == q;
    assert r.org == q.org;
  }

  /** The map has a rate for a key and a provider if and only if a row that is neither expired nor still to be
      countersigned gives it; the blank key stands for no organisation. */
  ghost predicate RatesAre(m: DiscountMap, rows: seq<Row>) {
    forall key, provider, pct: real ::
      HasRate(m, key, provider, pct)
      <==> exists r | r in rows && r.effectiveTo == None && r.attestedAt != None ::
             r.provider == provider && r.pct == pct && (if r.org == None then key == "" else r.org.value == key)
  }

  predicate HasRate(m: DiscountMap, key: OrgKey, provider: string, pct: real) {
    key in m && provider in m[key] && m[key][provider] == pct
  }

  lemma ReflectsRates(m: DiscountMap, rows: seq<Row>)
    requires TableInv(rows) && Reflects(m, rows)
    ensures RatesAre(m, rows)
  {
    forall key, provider, pct: real
      ensures HasRate(m, key, provider, pct)
              <==> exists r | r in rows && r.effectiveTo == None && r.attestedAt != None ::
                     r.provider == provider && r.pct == pct && (if r.org == None then key == "" else r.org.value == key)
    {
      assert HasRate(m, key, provider, pct) <==> RateIn(m, key, provider) == Some(pct);
      if r :| r in rows && Effective(r, key, provider) && r.pct == pct {
        assert RateIn(m, key, provider).Some?;
        var q :| q in rows && Effective(q, key, provider) && q.pct == RateIn(m, key, provider).value;
        SameKeySameRow(rows, r, q, key, provider);
      }
    }
  }

  // ---- what is charged for ---------------------------------------------------------------------

  /** Where there is a cache price, cached tokens are charged at it and only the other prompt tokens at the prompt's
      price; elsewhere all of them are. */
  lemma ChatUnits(p: ModelPricing, u: UsageInfo)
    ensures p.cacheRead > 0.0 && u.cachedTokens >= 0 ==>
              ChatCost(p, u) == (u.promptTokens - u.cachedTokens) as real * p.inputCost
                                + u.cachedTokens as real * p.cacheRead + u.completionTokens as real * p.outputCost
    ensures p.cacheRead <= 0.0 || u.cachedTokens <= 0 ==>
              ChatCost(p, u) == u.promptTokens as real * p.inputCost + u.completionTokens as real * p.outputCost
  {
    var prompt, cached := u.promptTokens as real, u.cachedTokens as real;
    assert (u.promptTokens - u.cachedTokens) as real == prompt - cached;
  }

  /** The signed catalog wins over custom rows, these over the embedded prices. */
  lemma PriceComesFrom(e: CostEngine, provider: string, model: string, key: string)
    requires key == provider + "/" + model
    ensures key in e.operator ==> e.GetPricing(provider, model) == Some(e.operator[key])
    ensures key !in e.operator && key in e.custom ==> e.GetPricing(provider, model) == Some(e.custom[key])
    ensures e.GetPricing(provider, model) == None <==> key !in e.operator && key !in e.custom && key !in e.builtIn
    ensures e.operator == e.custom == map[] && key in e.builtIn
            ==> e.GetPricing(provider, model) == Some(e.builtIn[key])
  {
  }

  // ---- proof of the load loop ------------------------------------------------------------------

  lemma SkipRow(m: DiscountMap, rows: seq<Row>, row: Row)
    requires Reflects(m, rows) && row.attestedAt.None?
    ensures Reflects(m, rows + [row])
  {
    forall key, provider
      ensures match RateIn(m, key, provider)
              case Some(d) => exists r :: r in rows + [row] && Effective(r, key, provider) && r.pct == d
              case None => forall r | r in rows + [row] :: !Effective(r, key, provider)
    {
      match RateIn(m, key, provider)
      case Some(d) =>
        var r :| r in rows && Effective(r, key, provider) && r.pct == d;
        assert r in rows + [row];
      case None =>
    }
  }

  function Added(m: DiscountMap, row: Row): DiscountMap {
    var k := KeyOf(row.org);
    var m' := if k in m then m else m[k := map[]];
    m'[k := m'[k][row.provider := row.pct]]
  }

  lemma AddRow(m: DiscountMap, rows: seq<Row>, row: Row)
    requires Reflects(m, rows) && Active(row) && row.attestedAt.Some?
    ensures Reflects(Added(m, row), rows + [row])
  {
    var k, m' := KeyOf(row.org), Added(m, row);
    forall key, provider
      ensures match RateIn(m', key, provider)
              case Some(d) => exists r :: r in rows + [row] && Effective(r, key, provider) && r.pct == d
              case None => forall r | r in rows + [row] :: !Effective(r, key, provider)
    {
      if key == k && provider == row.provider {
        assert RateIn(m', key, provider) == Some(row.pct);
        assert row in rows + [row] && Effective(row, key, provider);
      } else {
        assert RateIn(m', key, provider) == RateIn(m, key, provider);
        match RateIn(m, key, provider)
        case Some(d) =>
          var r :| r in rows && Effective(r, key, provider) && r.pct == d;
          assert r in rows + [row];
        case None =>
      }
    }
  }

  lemma ActiveReflect(m: DiscountMap, active: seq<Row>, rows: seq<Row>)
    requires Reflects(m, active) && forall r :: r in active <==> r in rows && Active(r)
    ensures Reflects(m, rows)
  {
    forall key, provider
      ensures match RateIn(m, key, provider)
              case Some(d) => exists r :: r in rows && Effective(r, key, provider) && r.pct == d
              case None => forall r | r in rows :: !Effective(r, key, provider)
    {
      match RateIn(m, key, provider)
      case Some(d) =>
        var r :| r in active && Effective(r, key, provider) && r.pct == d;
        assert r in rows;
      case None =>
    }
  }
}
