/** The ledger of routing savings: Writer.Write (savings/writer.go) and the rows it chains (db/savings.go).
    Money is real and stored unrounded. */
module SavingsLedger {
  import opened Wrappers
  import opened Discounts
  import opened HashChain
  import opened Text

  type Bytes = string

  datatype Decision = Decision(org: Option<OrgKey>, traceID: string, requestedAlias: string, servedAlias: string,
                               servedProvider: string, servedModel: string,
                               baselineProvider: string, baselineModel: string,
                               usage: UsageInfo, baselineUsage: Option<UsageInfo>, actualCost: real, quality: Quality)

  /** What Write only copies. */
  datatype Quality = Quality(strategy: string, overridden: bool, retried: bool, score: Option<real>, pass: Option<bool>)

  /** The signed projection of a row. */
  datatype Canonical = Canonical(requestedAlias: string, servedAlias: string,
                                 servedProvider: string, servedModel: string,
                                 baselineProvider: string, baselineModel: string,
                                 baselineInputTokens: int, baselineOutputTokens: int,
                                 servedInputTokens: int, servedOutputTokens: int,
                                 baselineCost: real, actualCost: real, discount: real, savings: real,
                                 quality: Quality, org: Option<OrgKey>, traceID: string, prevHash: string)

  datatype SavingsRow = SavingsRow(body: Canonical, signature: string, createdAt: int)

  /** Signing of canonical bytes; unsigned rows have a blank signature. */
  datatype Signing = Signing(sign: Canonical -> string, verify: (Canonical, string) -> bool)
  {
    ghost predicate Sound() {
      forall c :: verify(c, sign(c)) && sign(c) != ""
    }

    ghost predicate AllSigned(rows: seq<SavingsRow>) {
      forall r | r in rows :: verify(r.body, r.signature) && r.signature != ""
    }

    /** A signature that is good for two bodies. */
    ghost predicate Forged(r: SavingsRow, q: SavingsRow) {
      r.body != q.body && r.signature == q.signature && verify(r.body, r.signature) && verify(q.body, r.signature)
    }
  }

  function OfOrg(rows: seq<SavingsRow>, org: Option<OrgKey>): (out: seq<SavingsRow>)
    ensures forall r :: r in out <==> r in rows && r.body.org == org
  {
    if rows == [] then []
    else
      var rest, last := OfOrg(rows[..|rows| - 1], org), rows[|rows| - 1];
      if last.body.org == org then rest + [last] else rest
  }

  lemma OfOrgExtends(rows: seq<SavingsRow>, row: SavingsRow, org: Option<OrgKey>)
    ensures OfOrg(rows + [row], org) == if row.body.org == org then OfOrg(rows, org) + [row] else OfOrg(rows, org)
  {
    assert (rows + [row])[..|rows|] == rows;
  }

  /** The rows of one organisation in order of creation, each linked to the signature of the one before. */
  ghost predicate Chained(rows: seq<SavingsRow>) {
    && (rows != [] ==> rows[0].body.prevHash == "")
    && Linked(rows, (r: SavingsRow) => r.body.prevHash, (r: SavingsRow) => r.signature)
    && forall i, j | 0 <= i < j < |rows| :: rows[i].createdAt < rows[j].createdAt
  }

  predicate IsLatest(r: SavingsRow, rows: seq<SavingsRow>) {
    r in rows && forall q | q in rows :: q.createdAt <= r.createdAt
  }

  class SavingsTable {
    var rows: seq<SavingsRow>

    constructor ()
      ensures rows == []
    {
      rows := [];
    }

    /** The signature of a latest row of the organisation, blank without one; None when the query fails. */
    method PrevSavingsHashForOrg(org: Option<OrgKey>, queryFails: bool) returns (link: Option<string>)
      ensures link.None? <==> queryFails
      ensures link.Some? ==> if OfOrg(rows, org) == [] then link.value == "" else
                exists r :: IsLatest(r, OfOrg(rows, org)) && r.signature == link.value
    {
      if queryFails {
        return None;
      }
      var mine := OfOrg(rows, org);
      if mine == [] {
        return Some("");
      }
      var latest := mine[0];
      for i := 1 to |mine|
        invariant IsLatest(latest, mine[..i])
      {
        if mine[i].createdAt >= latest.createdAt {
          latest := mine[i];
        }
      }
      assert mine[..|mine|] == mine;
      assert IsLatest(latest, mine);
      return Some(latest.signature);
    }
  }

  /** What the baseline is priced as: the declared path, or the served one when a part of it is blank. */
  function BaselinePath(d: Decision): (string, string) {
    var provider, model := TrimSpace(d.baselineProvider), TrimSpace(d.baselineModel);
    if (provider == "" || model == "") && d.servedProvider != "" && d.servedModel != ""
    then (d.servedProvider, d.servedModel)
    else (provider, model)
  }

  function BaselineUsage(d: Decision): UsageInfo {
    match d.baselineUsage case Some(u) => u case None => d.usage
  }

  class Writer {
    const engine: CostEngine?
    const store: SavingsTable?
    const signer: Option<Signing>

    constructor (engine: CostEngine?, store: SavingsTable?, signer: Option<Signing>)
      ensures this.engine == engine && this.store == store && this.signer == signer
    {
      this.engine, this.store, this.signer := engine, store, signer;
    }

    /** One call is one step: link lookup, signing and insertion happen under a mutex. */
    method Write(d: Decision, queryFails: bool, insertFails: bool, now: int) returns (out: Option<SavingsRow>)
      modifies store
      ensures out.None? <==> store != null && insertFails
      ensures store != null ==> store.rows == old(store.rows) + if out.Some? then [out.value] else []
      ensures out.Some? ==> Copies(d, out.value) && out.value.createdAt == now
      ensures out.Some? ==> Prices(d, out.value.body.baselineCost, out.value.body.discount)
                            && out.value.body.savings == out.value.body.baselineCost - d.actualCost
      ensures out.Some? ==> out.value.signature == if signer.Some? then signer.value.sign(out.value.body) else ""
      ensures out.Some? ==>
                if store == null || queryFails || OfOrg(old(store.rows), d.org) == [] then out.value.body.prevHash == ""
                else exists r :: IsLatest(r, OfOrg(old(store.rows), d.org)) && r.signature == out.value.body.prevHash
      ensures store != null && !queryFails && Chained(OfOrg(old(store.rows), d.org))
              && (forall r | r in OfOrg(old(store.rows), d.org) :: r.createdAt < now)
              ==> Chained(OfOrg(store.rows, d.org))
      ensures store != null && signer.Some? && signer.value.Sound()
              && signer.value.AllSigned(OfOrg(old(store.rows), d.org))
              ==> signer.value.AllSigned(OfOrg(store.rows, d.org))
      ensures store != null ==> forall org | org != d.org :: OfOrg(store.rows, org) == OfOrg(old(store.rows), org)
    {
      var row := Prepare(d, queryFails, now);
      if store != null {
        if insertFails {
          return None;
        }
        ExtendTable(store.rows, row, queryFails);
        store.rows := store.rows + [row];
      }
      return Some(row);
    }

    /** The row to be inserted: linked, then signed. */
    method Prepare(d: Decision, queryFails: bool, now: int) returns (row: SavingsRow)
      ensures Copies(d, row) && row.createdAt == now
      ensures Prices(d, row.body.baselineCost, row.body.discount)
              && row.body.savings == row.body.baselineCost - d.actualCost
      ensures row.signature == if signer.Some? then signer.value.sign(row.body) else ""
      ensures if store == null || queryFails || OfOrg(store.rows, d.org) == [] then row.body.prevHash == ""
              else exists r :: IsLatest(r, OfOrg(store.rows, d.org)) && r.signature == row.body.prevHash
    {
      var body := Assemble(d);
      if store != null {
        var link := store.PrevSavingsHashForOrg(d.org, queryFails);
        if link.Some? {
          body := body.(prevHash := link.value);
        }
      }
      row := SavingsRow(body, if signer.Some? then signer.value.sign(body) else "", now);
    }

    /** Copies the decision and prices the baseline; the link is still blank. */
    method Assemble(d: Decision) returns (body: Canonical)
      ensures Copies(d, SavingsRow(body, "", 0)) && body.prevHash == ""
      ensures Prices(d, body.baselineCost, body.discount) && body.savings == body.baselineCost - d.actualCost
    {
      var requested := if d.requestedAlias == "" then d.servedAlias else d.requestedAlias;
      var baselineUsage := BaselineUsage(d);
      body := Canonical(requested, d.servedAlias, d.servedProvider, d.servedModel, d.baselineProvider, d.baselineModel,
                        baselineUsage.promptTokens, baselineUsage.completionTokens,
                        d.usage.promptTokens, d.usage.completionTokens,
                        0.0, d.actualCost, 0.0, 0.0, d.quality, d.org, d.traceID, "");
      var cost, discount := PriceBaseline(d);
      body := body.(baselineCost := cost, discount := discount);
      body := body.(savings := body.baselineCost - body.actualCost);
    }

    method PriceBaseline(d: Decision) returns (cost: real, discount: real)
      ensures Prices(d, cost, discount)
    {
      var (provider, model) := BaselinePath(d);
      if engine == null || provider == "" || model == "" {
        return 0.0, 0.0;
      }
      cost, discount := PricePath(d, provider, model);
    }

    /** Zero where the path has no price. */
    method PricePath(d: Decision, provider: string, model: string) returns (cost: real, discount: real)
      requires engine != null
      ensures PricedAs(d, cost, discount, provider, model)
    {
      var ok;
      cost, discount, ok := engine.BaselineCost(KeyOf(d.org), provider, model, BaselineUsage(d));
    }

    /** The baseline is the declared path, the served one where a part of the declared one is blank, and nothing where
        that is blank too. */
    ghost predicate Prices(d: Decision, cost: real, discount: real)
      reads engine
    {
      if TrimSpace(d.baselineProvider) != "" && TrimSpace(d.baselineModel) != "" then
        PricedAs(d, cost, discount, TrimSpace(d.baselineProvider), TrimSpace(d.baselineModel))
      else if d.servedProvider != "" && d.servedModel != "" then
        PricedAs(d, cost, discount, d.servedProvider, d.servedModel)
      else discount == cost == 0.0
    }

    /** The discounted price of the path for the declared usage, or the served one without it; zero without a price. */
    ghost predicate PricedAs(d: Decision, cost: real, discount: real, provider: string, model: string)
      reads engine
    {
      if engine != null && engine.GetPricing(provider, model).Some? then
        var p := engine.GetPricing(provider, model).value;
        var u := if d.baselineUsage != None then d.baselineUsage.value else d.usage;
        && discount == DiscountFor(engine.orgDiscounts, KeyOf(d.org), provider)
        && cost == CutOff(ChatCost(p, u) * (1.0 - discount))
      else discount == cost == 0.0
    }
  }

  predicate Copies(d: Decision, r: SavingsRow) {
    && (r.body.org, r.body.traceID, r.body.quality, r.body.actualCost) == (d.org, d.traceID, d.quality, d.actualCost)
    && (r.body.servedAlias, r.body.servedProvider, r.body.servedModel)
        == (d.servedAlias, d.servedProvider, d.servedModel)
    && (r.body.baselineProvider, r.body.baselineModel) == (d.baselineProvider, d.baselineModel)
    && r.body.requestedAlias == (if d.requestedAlias == "" then d.servedAlias else d.requestedAlias)
    && (r.body.servedInputTokens, r.body.servedOutputTokens) == (d.usage.promptTokens, d.usage.completionTokens)
    && (r.body.baselineInputTokens, r.body.baselineOutputTokens)
        == (if d.baselineUsage != None then (d.baselineUsage.value.promptTokens, d.baselineUsage.value.completionTokens)
            else (d.usage.promptTokens, d.usage.completionTokens))
  }

  lemma {:induction false} ExtendTable(rows: seq<SavingsRow>, row: SavingsRow, queryFails: bool)
    requires var mine := OfOrg(rows, row.body.org);
             if queryFails || mine == [] then row.body.prevHash == ""
             else exists r :: IsLatest(r, mine) && r.signature == row.body.prevHash
    ensures forall org | org != row.body.org :: OfOrg(rows + [row], org) == OfOrg(rows, org)
    ensures !queryFails && Chained(OfOrg(rows, row.body.org))
            && (forall r | r in OfOrg(rows, row.body.org) :: r.createdAt < row.createdAt)
            ==> Chained(OfOrg(rows + [row], row.body.org))
  {
    forall org
      ensures OfOrg(rows + [row], org) == if row.body.org == org then OfOrg(rows, org) + [row] else OfOrg(rows, org)
    {
      OfOrgExtends(rows, row, org);
    }
    var mine := OfOrg(rows, row.body.org);
    if !queryFails && Chained(mine) && forall r | r in mine :: r.createdAt < row.createdAt {
      RowLinks(mine, row);
    }
  }

  lemma RowLinks(mine: seq<SavingsRow>, row: SavingsRow)
    requires Chained(mine) && forall r | r in mine :: r.createdAt < row.createdAt
    requires if mine == [] then row.body.prevHash == ""
             else exists r :: IsLatest(r, mine) && r.signature == row.body.prevHash
    ensures Chained(mine + [row])
  {
    if mine != [] {
      var r :| IsLatest(r, mine) && r.signature == row.body.prevHash;
      LatestIsLast(mine, r);
    }
    LinkedExtends(mine, row, (r: SavingsRow) => r.body.prevHash, (r: SavingsRow) => r.signature);
  }

  lemma LatestIsLast(rows: seq<SavingsRow>, r: SavingsRow)
    requires Chained(rows) && rows != [] && IsLatest(r, rows)
    ensures r == rows[|rows| - 1]
  {
    var i :| 0 <= i < |rows| && rows[i] == r;
    assert rows[|rows| - 1] in rows;
  }

  /** What an audit of two rows compares. */
  datatype Entry = Entry(body: Canonical, signature: string)

  function EntriesOf(rows: seq<SavingsRow>): (out: seq<Entry>)
    ensures |out| == |rows| && forall i | 0 <= i < |rows| :: out[i] == Entry(rows[i].body, rows[i].signature)
  {
    seq(|rows|, i requires 0 <= i < |rows| => Entry(rows[i].body, rows[i].signature))
  }

  /** Rows of one organisation that all verify and end in the same signature are the same rows, as far as they are
      signed, if and only if no two that stand equally far from the end share a signature without being the same; such
      a signature verifies for two bodies. */
  lemma AuditedRows(signing: Signing, a: seq<SavingsRow>, b: seq<SavingsRow>)
    requires signing.AllSigned(a) && signing.AllSigned(b) && Chained(a) && Chained(b)
    requires a != [] && b != [] && a[|a| - 1].signature == b[|b| - 1].signature
    ensures EntriesOf(a) == EntriesOf(b) <==> NoCollision(EntriesOf(a), EntriesOf(b), (e: Entry) => e.signature)
    ensures EntriesOf(a) == EntriesOf(b) || exists r, q | r in a && q in b :: signing.Forged(r, q)
  {
    var x, y := EntriesOf(a), EntriesOf(b);
    EntriesLinked(signing, a);
    EntriesLinked(signing, b);
    SameEndSameChain(x, y, (e: Entry) => e.body.prevHash, (e: Entry) => e.signature);
    if x != y { FindForged(signing, a, b); }
  }

  lemma FindForged(signing: Signing, a: seq<SavingsRow>, b: seq<SavingsRow>)
    requires signing.AllSigned(a) && signing.AllSigned(b)
    requires !NoCollision(EntriesOf(a), EntriesOf(b), (e: Entry) => e.signature)
    ensures exists r, q | r in a && q in b :: signing.Forged(r, q)
  {
    var x, y := EntriesOf(a), EntriesOf(b);
    var i: nat :| i < |x| && i < |y| && FromEnd(x, i).signature == FromEnd(y, i).signature
                  && FromEnd(x, i) != FromEnd(y, i);
    var r, q := FromEnd(a, i), FromEnd(b, i);
    assert r in a && q in b && signing.Forged(r, q);
  }

  lemma EntriesLinked(signing: Signing, rows: seq<SavingsRow>)
    requires Chained(rows) && signing.AllSigned(rows)
    ensures Linked(EntriesOf(rows), (e: Entry) => e.body.prevHash, (e: Entry) => e.signature)
    ensures NeverBlank(EntriesOf(rows), (e: Entry) => e.signature)
  {
    var entries := EntriesOf(rows);
    forall i | 0 < i < |rows| ensures entries[i].body.prevHash == entries[i - 1].signature {
      assert rows[i].body.prevHash == rows[i - 1].signature;
    }
    forall e | e in entries ensures e.signature != "" {
      var i :| 0 <= i < |rows| && entries[i] == e;
      assert rows[i] in rows;
    }
  }

  /** The chain breaks whenever the lookup fails after a signed row: the new row looks like the first one. */
  lemma FailedLookupBreaks(rows: seq<SavingsRow>, row: SavingsRow)
    requires Chained(rows) && rows != [] && row.body.prevHash == ""
             && forall r | r in rows :: r.createdAt < row.createdAt
    ensures Chained(rows + [row]) <==> rows[|rows| - 1].signature == ""
  {
    var all, n := rows + [row], |rows|;
    assert all[n].body.prevHash == "" && all[n - 1] == rows[n - 1];
    if rows[n - 1].signature == "" {
      LinkedExtends(rows, row, (r: SavingsRow) => r.body.prevHash, (r: SavingsRow) => r.signature);
    } else {
      var prev, link := (r: SavingsRow) => r.body.prevHash, (r: SavingsRow) => r.signature;
      assert prev(all[n]) != link(all[n - 1]);
    }
  }

  /** A decision that declares no baseline, whose served path has a price, and whose actual cost is its chat cost. */
  ghost predicate NoBaseline(w: Writer, d: Decision)
    reads w.engine
  {
    && (TrimSpace(d.baselineProvider) == "" || TrimSpace(d.baselineModel) == "") && d.baselineUsage == None
    && w.engine != null && d.servedProvider != "" && d.servedModel != ""
    && w.engine.GetPricing(d.servedProvider, d.servedModel).Some?
    && d.actualCost == ChatCost(w.engine.GetPricing(d.servedProvider, d.servedModel).value, d.usage) >= 0.0
  }

  /** The row Write makes of it prices the served path again, at the discounted rate, against the undiscounted actual
      cost: the savings are minus the discount times the cost, hence zero exactly when one of the two is. */
  lemma UndeclaredBaseline(w: Writer, rows: seq<Row>, d: Decision, body: Canonical)
    requires NoBaseline(w, d) && TableInv(rows) && Reflects(w.engine.orgDiscounts, rows)
    requires w.Prices(d, body.baselineCost, body.discount) && body.savings == body.baselineCost - d.actualCost
    ensures var discount := DiscountFor(w.engine.orgDiscounts, KeyOf(d.org), d.servedProvider);
            && body.savings == -(discount * d.actualCost)
            && (body.savings == 0.0 <==> discount == 0.0 || d.actualCost == 0.0)
  {
    var p := w.engine.GetPricing(d.servedProvider, d.servedModel).value;
    var discount := DiscountFor(w.engine.orgDiscounts, KeyOf(d.org), d.servedProvider);
    assert BaselinePath(d) == (d.servedProvider, d.servedModel) && BaselineUsage(d) == d.usage;
    DiscountIsTheRows(w.engine.orgDiscounts, rows, KeyOf(d.org), d.servedProvider);
    BaselineScales(p, d.usage, discount);
    Discounted(d.actualCost, discount);
  }

  lemma Discounted(c: real, discount: real)
    requires c >= 0.0 && discount >= 0.0
    ensures c * (1.0 - discount) - c == -(discount * c)
    ensures discount * c == 0.0 <==> discount == 0.0 || c == 0.0
  {
    if discount > 0.0 && c > 0.0 { assert discount * c > 0.0; }
  }

  /** One such decision: at a price of 1 per token and a global discount of a fifth, ten tokens save minus 2. */
  method NegativeSavings(signing: Signing) returns (row: SavingsRow)
    ensures row.body.actualCost == 10.0 && row.body.savings == -2.0
  {
    var engine, table := DiscountedEngine();
    var w := new Writer(engine, null, Some(signing));
    var d := Decision(None, "", "a", "a", "p", "m", "", "", UsageInfo(10, 0, 0, NO_USAGE), None, 10.0,
        Quality("", false, false, None, None));
    TenTokens();
    var out := w.Write(d, false, false, 3);
    row := out.value;
    UndeclaredBaseline(w, table.rows, d, row.body);
  }

  /** Declared as a path of another provider, at 10 per token and without a discount, the same ten tokens save 90. */
  method PositiveSavings(signing: Signing) returns (row: SavingsRow)
    ensures row.body.baselineCost == 100.0 && row.body.actualCost == 10.0 && row.body.savings == 90.0
  {
    var engine, table := DiscountedEngine();
    var w := new Writer(engine, null, Some(signing));
    var d := Decision(None, "", "a", "a", "p", "m", " q", "m", UsageInfo(10, 0, 0, NO_USAGE), None, 10.0,
        Quality("", false, false, None, None));
    TenTokens();
    QTrimmed();
    var out := w.Write(d, false, false, 3);
    row := out.value;
  }

  lemma QTrimmed()
    ensures TrimSpace(" q") == "q" && TrimSpace("m") == "m"
  {
    assert " q" == " " + "q" + "" && "m" == "" + "m" + "";
    TrimSpaceStrips(" ", "q", "");
    TrimSpaceStrips("", "m", "");
  }

  /** Two prices, and one discount declared and countersigned. */
  method DiscountedEngine() returns (engine: CostEngine, table: DiscountTable)
    ensures fresh(engine) && fresh(table) && TableInv(table.rows) && Reflects(engine.orgDiscounts, table.rows)
    ensures engine.GetPricing("p", "m") == Some(ModelPricing(1.0, 1.0, 0.0, NO_PRICES))
            && DiscountFor(engine.orgDiscounts, "", "p") == 0.2
    ensures engine.GetPricing("q", "m") == Some(ModelPricing(10.0, 1.0, 0.0, NO_PRICES))
            && DiscountFor(engine.orgDiscounts, "", "q") == 0.0
  {
    table := new DiscountTable();
    var declared := table.Declare(None, "p", 0.2, 1, 0);
    var signed := table.Countersign(0, 7, "", 2);
    engine := new CostEngine(map["p/m" := ModelPricing(1.0, 1.0, 0.0, NO_PRICES),
                                 "q/m" := ModelPricing(10.0, 1.0, 0.0, NO_PRICES)]);
    engine.LoadEffectiveDiscounts(table);
    OnlyDiscount(engine.orgDiscounts, table.rows, "p", "q", 0.2);
    assert "p" + "/" + "m" == "p/m" && "q" + "/" + "m" == "q/m" && "p/m"[0] != "q/m"[0];
  }

  lemma TenTokens()
    ensures ChatCost(ModelPricing(1.0, 1.0, 0.0, NO_PRICES), UsageInfo(10, 0, 0, NO_USAGE)) == 10.0
    ensures ChatCost(ModelPricing(10.0, 1.0, 0.0, NO_PRICES), UsageInfo(10, 0, 0, NO_USAGE)) == 100.0
  {
  }

  lemma OnlyDiscount(m: DiscountMap, rows: seq<Row>, provider: string, other: string, pct: real)
    requires TableInv(rows) && Reflects(m, rows) && provider != other
    requires |rows| == 1 && Effective(rows[0], "", provider) && rows[0].pct == pct
    ensures DiscountFor(m, "", provider) == pct && DiscountFor(m, "", other) == 0.0
  {
    DiscountIsTheRows(m, rows, "", provider);
    DiscountIsTheRows(m, rows, "", other);
    assert rows[0] in rows;
  }
}
