/** Quotes, price changes and the freshness gate (`create_quote` and
`mutate_price_demo_only` in src/actl/application/catalog_service.py, the seeding
write of src/actl/infrastructure/db/repositories/catalog.py,
`handle_order_propose` in src/actl/application/agents/merchant.py, and the gate of
src/actl/application/gate.py).

Quote and intent hashes are collision-free, so a hash stands for what it covers.
A mandate's specification never changes; its status moves by the lifecycle.
*/
module PriceFreshness {
  import opened Digests
  import opened Ledger
  import opened Mandate
  import opened Policy
  import opened Purchase
  import OrderCreation

  type LogEntry = OrderCreation.LogEntry

  datatype Item = Item(
    unitPriceMinor: int, availableUnits: int, category: string, merchant: string, refundable: bool, version: int)

  /** The tables, the clock, and every request that was handed to the gate. */
  datatype Shop = Shop(
    now: int,
    items: map<string, Item>,
    version: int,
    mandates: map<string, MandateRow>,
    quotes: map<string, Quote>,
    decisions: map<string, Decision>,
    log: seq<LogEntry>,
    requests: set<Request>)

  /** What a buyer sends with a proposal. */
  datatype Proposal = Proposal(
    quoteId: string, claimedQuote: Quote, mandateId: string, claimedSpecHash: string, claimedIntent: Intent)

  const QUOTE_TTL := 120
  const DECISION_TTL := 30

  class Merchant {
    var now: int
    var items: map<string, Item>
    var version: int
    var mandates: map<string, MandateRow>
    var quotes: map<string, Quote>
    var decisions: map<string, Decision>
    var log: seq<LogEntry>
    ghost var requests: set<Request>

    ghost function View(): Shop
      reads this
    {
      Shop(now, items, version, mandates, quotes, decisions, log, requests)
    }

    constructor (now: int, items: map<string, Item>, version: int, mandates: map<string, MandateRow>)
      ensures View() == Shop(now, items, version, mandates, map[], map[], [], {})
    {
      this.now, this.items, this.version, this.mandates := now, items, version, mandates;
      quotes, decisions, log, requests := map[], map[], [], {};
    }

    /** `create_quote`, under a fresh id; the table refuses a total that is not positive. */
    method CreateQuote(quoteId: string, mandateId: string, sku: string, nights: int) returns (r: Result<Quote>)
      requires quoteId !in quotes
      modifies this`quotes, this`log
      ensures View() == Apply(old(View()), IssueQuote(quoteId, mandateId, sku, nights))
      ensures r.Ok? <==>
        && mandateId in mandates && sku in items && items[sku].availableUnits > 0
        && items[sku].unitPriceMinor > 0 && items[sku].unitPriceMinor * nights > 0
      ensures r.Ok? ==>
        && quotes == old(quotes)[quoteId := r.value] && log == old(log) + [OrderCreation.OtherEntry("quote.issued")]
        && var unit, refundable := items[sku].unitPriceMinor, items[sku].refundable;
        r.value == Quote(sku, mandateId, unit, nights, unit * nights, version, refundable, now + 120)
      ensures r.Err? ==> quotes == old(quotes) && log == old(log)
    {
      if mandateId !in mandates { return Err("MandateNotFound"); }
      if sku !in items { return Err("SkuNotFound"); }
      var item := items[sku];
      if item.availableUnits <= 0 { return Err("SkuUnavailable"); }
      var totalMinor := item.unitPriceMinor * nights;
      if item.unitPriceMinor <= 0 || totalMinor <= 0 { return Err("IntegrityError"); }
      var quote := Quote(sku, mandateId, item.unitPriceMinor, nights, totalMinor, version, item.refundable, now + QUOTE_TTL);
      quotes := quotes[quoteId := quote];
      log := log + [OrderCreation.OtherEntry("quote.issued")];
      return Ok(quote);
    }

    /** `mutate_price_demo_only` */
    method MutatePrice(sku: string, newUnitPriceMinor: int) returns (r: Result<Item>)
      modifies this`items, this`version, this`log
      ensures View() == Apply(old(View()), ChangePrice(sku, newUnitPriceMinor))
      ensures r.Ok? <==> newUnitPriceMinor > 0 && sku in old(items)
      ensures r.Ok? ==>
        && version == old(version) + 1
        && r.value == old(items)[sku].(unitPriceMinor := newUnitPriceMinor, version := old(version) + 1)
        && items == old(items)[sku := r.value]
      ensures r.Err? ==> View() == old(View())
    {
      if newUnitPriceMinor <= 0 { return Err("InvalidPriceMutation"); }
      if sku !in items { return Err("SkuNotFound"); }
      version := version + 1;
      var updated := items[sku].(unitPriceMinor := newUnitPriceMinor, version := version);
      items := items[sku := updated];
      log := log + [OrderCreation.OtherEntry("catalog.price_mutated")];
      return Ok(updated);
    }

    /** `handle_order_propose` up to the call of `begin_purchase`: the checks, the policy
        engine's decision with its audit entry, and the request if it is allowed.
        `reservedMinor` is the mandate's committed total in the ledger. */
    method HandleOrderPropose(p: Proposal, decisionId: string, reservedMinor: nat) returns (r: Result<Request>)
      requires decisionId !in decisions
      modifies this`decisions, this`log, this`requests
      ensures View() == Apply(old(View()), ProposeOrder(p, decisionId, reservedMinor))
      ensures r.Ok? <==> ProposalDenial(old(View()), p).None? && EngineAllows(old(View()), p, reservedMinor)
      ensures r.Ok? <==> Wellformed(old(View()), p) && Acceptable(old(View()), p, reservedMinor)
      ensures r.Ok? ==>
        && r.value == Request(p.mandateId, decisionId, p.quoteId, p.claimedIntent, p.claimedQuote.totalMinor, 1)
        && requests == old(requests) + {r.value} && Matches(View(), r.value)
        && decisions[decisionId] == Decision(p.claimedIntent, p.claimedSpecHash, now, 30, true, ["OK"])
      ensures r.Err? ==> requests == old(requests)
      ensures r.Err? && Wellformed(old(View()), p) ==>
        decisionId in decisions && !decisions[decisionId].allow && [r.error] <= decisions[decisionId].reasonCodes
      ensures ProposalDenial(old(View()), p).Some? ==> r == Err(ProposalDenial(old(View()), p).value) && View() == old(View())
    {
      var denial := CheckProposal(p);
      if denial.Some? { return Err(denial.value); }
      r := DecideProposal(p, decisionId, reservedMinor);
    }

    /** The checks before the policy engine, which change nothing. */
    method CheckProposal(p: Proposal) returns (denial: Option<string>)
      ensures denial == ProposalDenial(View(), p)
      ensures denial.None? <==> Wellformed(View(), p)
      ensures denial.Some? ==> RightReason(View(), p, denial.value)
    {
      if p.mandateId !in mandates { return Some("MANDATE_INVALID"); }
      var mandate := mandates[p.mandateId];
      if mandate.status == REVOKED { return Some("MANDATE_REVOKED"); }
      if mandate.status != LOCKED && mandate.status != EXECUTING { return Some("MANDATE_INVALID"); }
      if now >= mandate.spec.expiresAt { return Some("MANDATE_EXPIRED"); }
      if mandate.specHash != Some(p.claimedSpecHash) { return Some("MANDATE_TAMPERED"); }
      if p.quoteId !in quotes || quotes[p.quoteId].mandateId != p.mandateId { return Some("STALE_PRICE"); }
      var quote := quotes[p.quoteId];
      if quote != p.claimedQuote { return Some("STALE_PRICE"); }
      if quote.sku !in items { return Some("STALE_PRICE"); }
      var item := items[quote.sku];
      var terms := Terms(
        mandate.spec.currency, item.category, item.merchant, quote.unitPriceMinor, quote.nights, mandate.spec.rooms,
        quote.refundable, item.unitPriceMinor * quote.nights, quote.catalogVersion, p.claimedSpecHash);
      if Intent(quote.totalMinor, terms) != p.claimedIntent { return Some("INTENT_MISMATCH"); }
      return None;
    }

    /** The policy engine's decision on a checked proposal, and the request. */
    method DecideProposal(p: Proposal, decisionId: string, reservedMinor: nat) returns (r: Result<Request>)
      requires decisionId !in decisions && ProposalDenial(View(), p).None?
      modifies this`decisions, this`log, this`requests
      ensures View() == Decided(old(View()), p, decisionId, reservedMinor)
      ensures r.Ok? <==> EngineAllows(old(View()), p, reservedMinor)
      ensures r.Ok? <==> Acceptable(old(View()), p, reservedMinor)
      ensures r.Ok? ==>
        && r.value == Request(p.mandateId, decisionId, p.quoteId, p.claimedIntent, p.claimedQuote.totalMinor, 1)
        && requests == old(requests) + {r.value} && Matches(View(), r.value)
        && decisions[decisionId] == Decision(p.claimedIntent, p.claimedSpecHash, now, 30, true, ["OK"])
      ensures r.Err? ==>
        && requests == old(requests) && decisionId in decisions
        && !decisions[decisionId].allow && [r.error] <= decisions[decisionId].reasonCodes
    {
      var mandate, intent := mandates[p.mandateId], p.claimedIntent;
      var ctx := Context(now, reservedMinor, 0, version);
      var allow, reasonCodes := Evaluate(mandate.spec, p.claimedSpecHash, intent, ctx);
      decisions := decisions[decisionId := Decision(intent, p.claimedSpecHash, now, DECISION_TTL, allow, reasonCodes)];
      log := log + [OrderCreation.OtherEntry("order.proposed")];
      if !allow { return Err(reasonCodes[0]); }
      AllowedCount(mandate.spec, p.claimedSpecHash, intent, ctx);
      var req := Request(p.mandateId, decisionId, p.quoteId, intent, p.claimedQuote.totalMinor, 1);
      requests := requests + {req};
      return Ok(req);
    }
  }

  /******* What makes a proposal good *******/

  /** The buyer names a live mandate and its own quote, and claims exactly what the
      merchant derives from its tables. */
  ghost predicate Wellformed(s: Shop, p: Proposal) {
    && p.mandateId in s.mandates && p.quoteId in s.quotes
    && var m, q := s.mandates[p.mandateId], s.quotes[p.quoteId];
    && (m.status == LOCKED || m.status == EXECUTING) && s.now < m.spec.expiresAt && m.specHash == Some(p.claimedSpecHash)
    && q.mandateId == p.mandateId && q == p.claimedQuote && q.sku in s.items
    && var item, terms := s.items[q.sku], p.claimedIntent.terms;
    && p.claimedIntent.totalMinor == q.totalMinor && terms.unitPriceMinor == q.unitPriceMinor
    && terms.nights == q.nights && terms.refundable == q.refundable && terms.catalogVersion == q.catalogVersion
    && terms.category == item.category && terms.merchant == item.merchant
    && terms.currentTotalMinor == item.unitPriceMinor * q.nights
    && terms.currency == m.spec.currency && terms.rooms == m.spec.rooms && terms.mandateSpecHash == p.claimedSpecHash
  }

  /** The quoted stay is within the bounds of its mandate, at the current price. */
  ghost predicate Acceptable(s: Shop, p: Proposal, reservedMinor: nat) {
    && p.mandateId in s.mandates && p.claimedQuote.sku in s.items
    && var spec, q, item := s.mandates[p.mandateId].spec, p.claimedQuote, s.items[p.claimedQuote.sku];
    && item.category in spec.allowedCategories && item.merchant !in spec.blockedMerchants
    && spec.notBefore <= s.now && q.nights == spec.nights
    && q.unitPriceMinor <= spec.maxUnitMinor && reservedMinor + q.totalMinor <= spec.maxTotalMinor
    && 0 < spec.maxTransactions && (spec.requireRefundable ==> q.refundable)
    && WithinDrift(q.totalMinor, item.unitPriceMinor * q.nights, spec.maxPriceDeltaBps)
    && q.catalogVersion == s.version
  }

  /** Each reason for turning a proposal down, and what it says. */
  ghost predicate RightReason(s: Shop, p: Proposal, reason: string) {
    if p.mandateId !in s.mandates then reason == "MANDATE_INVALID"
    else if s.mandates[p.mandateId].status == REVOKED then reason == "MANDATE_REVOKED"
    else if !(s.mandates[p.mandateId].status in {LOCKED, EXECUTING}) then reason == "MANDATE_INVALID"
    else if s.mandates[p.mandateId].spec.expiresAt <= s.now then reason == "MANDATE_EXPIRED"
    else if s.mandates[p.mandateId].specHash != Some(p.claimedSpecHash) then reason == "MANDATE_TAMPERED"
    else
      reason == if p.quoteId in s.quotes && s.quotes[p.quoteId] == p.claimedQuote
                  && p.claimedQuote.mandateId == p.mandateId && p.claimedQuote.sku in s.items
        then "INTENT_MISMATCH" else "STALE_PRICE"
  }

  /******* The same as steps *******/

  datatype Step =
    | IssueQuote(quoteId: string, mandateId: string, sku: string, nights: int)
    | ChangePrice(sku: string, newUnitPriceMinor: int)
    | ProposeOrder(p: Proposal, decisionId: string, reservedMinor: nat)
    | AddMandate(mandateId: string, row: MandateRow)
    | FireMandate(mandateId: string, trigger: Trigger, ctx: GuardContext)
    | Tick(to: int)
    | SeedItem(sku: string, item: Item)

  /** The intent that the merchant derives from a quote, with the price as it is now. */
  function LiveIntent(items: map<string, Item>, quote: Quote, spec: Spec, specHash: string): Intent
    requires quote.sku in items
  {
    var item := items[quote.sku];
    Intent(quote.totalMinor, Terms(
      spec.currency, item.category, item.merchant, quote.unitPriceMinor, quote.nights, spec.rooms,
      quote.refundable, item.unitPriceMinor * quote.nights, quote.catalogVersion, specHash))
  }

  /** Why a proposal is turned down before the policy engine, if it is. */
  function ProposalDenial(s: Shop, p: Proposal): Option<string> {
    if p.mandateId !in s.mandates then Some("MANDATE_INVALID")
    else
      var m := s.mandates[p.mandateId];
      if m.status == REVOKED then Some("MANDATE_REVOKED")
      else if m.status != LOCKED && m.status != EXECUTING then Some("MANDATE_INVALID")
      else if s.now >= m.spec.expiresAt then Some("MANDATE_EXPIRED")
      else if m.specHash != Some(p.claimedSpecHash) then Some("MANDATE_TAMPERED")
      else if p.quoteId !in s.quotes || s.quotes[p.quoteId].mandateId != p.mandateId then Some("STALE_PRICE")
      else if s.quotes[p.quoteId] != p.claimedQuote || p.claimedQuote.sku !in s.items then Some("STALE_PRICE")
      else if LiveIntent(s.items, p.claimedQuote, m.spec, p.claimedSpecHash) != p.claimedIntent then Some("INTENT_MISMATCH")
      else None
  }

  predicate EngineAllows(s: Shop, p: Proposal, reservedMinor: nat) {
    && p.mandateId in s.mandates
    && Allows(s.mandates[p.mandateId].spec, p.claimedSpecHash, p.claimedIntent, Context(s.now, reservedMinor, 0, s.version))
  }

  /** A proposal that passed the checks: its decision is stored, and if the decision
      allows it there is a request. */
  function Decided(s: Shop, p: Proposal, decisionId: string, reservedMinor: nat): Shop
    requires p.mandateId in s.mandates
  {
    var ctx := Context(s.now, reservedMinor, 0, s.version);
    var failures := Failures(|RULES|, s.mandates[p.mandateId].spec, p.claimedSpecHash, p.claimedIntent, ctx);
    var codes := if failures == [] then ["OK"] else failures;
    var decision := Decision(p.claimedIntent, p.claimedSpecHash, s.now, DECISION_TTL, failures == [], codes);
    var req := Request(p.mandateId, decisionId, p.quoteId, p.claimedIntent, p.claimedQuote.totalMinor, 1);
    s.(
      decisions := s.decisions[decisionId := decision],
      log := s.log + [OrderCreation.OtherEntry("order.proposed")],
      requests := if failures == [] then s.requests + {req} else s.requests)
  }

  function Apply(s: Shop, step: Step): Shop {
    match step
    case IssueQuote(quoteId, mandateId, sku, nights) =>
      if quoteId in s.quotes || mandateId !in s.mandates || sku !in s.items || s.items[sku].availableUnits <= 0
        || s.items[sku].unitPriceMinor <= 0 || s.items[sku].unitPriceMinor * nights <= 0
      then s
      else
        var item := s.items[sku];
        var total := item.unitPriceMinor * nights;
        var quote := Quote(sku, mandateId, item.unitPriceMinor, nights, total, s.version, item.refundable, s.now + QUOTE_TTL);
        s.(quotes := s.quotes[quoteId := quote], log := s.log + [OrderCreation.OtherEntry("quote.issued")])
    case ChangePrice(sku, price) =>
      if price <= 0 || sku !in s.items then s
      else s.(
        version := s.version + 1,
        items := s.items[sku := s.items[sku].(unitPriceMinor := price, version := s.version + 1)],
        log := s.log + [OrderCreation.OtherEntry("catalog.price_mutated")])
    case ProposeOrder(p, decisionId, reservedMinor) =>
      if decisionId in s.decisions || ProposalDenial(s, p).Some? then s else Decided(s, p, decisionId, reservedMinor)
    case AddMandate(mandateId, row) =>
      if mandateId in s.mandates then s else s.(mandates := s.mandates[mandateId := row])
    case FireMandate(mandateId, trigger, ctx) =>
      if mandateId !in s.mandates then s
      else
        var next := Fire(s.mandates[mandateId].status, trigger, ctx);
        if next.Err? then s else WithStatus(s, mandateId, next.value)
    case Tick(to) => if to < s.now then s else s.(now := to)
    case SeedItem(sku, item) => s.(items := s.items[sku := item])
  }

  function WithStatus(s: Shop, mandateId: string, status: Status): Shop
    requires mandateId in s.mandates
  {
    s.(mandates := s.mandates[mandateId := s.mandates[mandateId].(status := status)])
  }

  function Run(s: Shop, steps: seq<Step>): Shop {
    if steps == [] then s else Apply(Run(s, steps[..|steps| - 1]), steps[|steps| - 1])
  }

  /** Gate G5 lets the request pass. */
  predicate PassesG5(s: Shop, req: Request) {
    G5(Find(s.quotes, req.quoteId), s.version, s.now).None?
  }

  /** All the gates but the budget let the request pass. */
  predicate Admitted(s: Shop, req: Request) {
    && G1(Find(s.mandates, req.mandateId), s.now).None?
    && G2(Find(s.decisions, req.decisionId), req.intent, s.mandates[req.mandateId].specHash, s.now).None?
    && G3(s.decisions[req.decisionId]).None?
    && PassesG5(s, req)
    && (s.mandates[req.mandateId].status == LOCKED ==> 0 < s.mandates[req.mandateId].spec.maxTransactions)
  }

  /** The amount is the item's price now times the quoted nights. */
  ghost predicate FreshAmount(s: Shop, req: Request) {
    && req.quoteId in s.quotes && s.quotes[req.quoteId].sku in s.items
    && req.amountMinor == s.items[s.quotes[req.quoteId].sku].unitPriceMinor * s.quotes[req.quoteId].nights
  }

  /******* What every run keeps *******/

  ghost predicate QuoteOk(s: Shop, q: Quote) {
    && q.totalMinor == q.unitPriceMinor * q.nights > 0
    && q.catalogVersion <= s.version && q.sku in s.items && q.mandateId in s.mandates
  }

  /** The request asks for what its quote and its intent say, and is bound to a stored
      decision that allows that intent under the mandate's specification. */
  ghost predicate Matches(s: Shop, req: Request) {
    && req.quoteId in s.quotes && req.amountMinor == s.quotes[req.quoteId].totalMinor
    && req.amountMinor == req.intent.totalMinor
    && req.mandateId == s.quotes[req.quoteId].mandateId && req.mandateId in s.mandates
    && s.mandates[req.mandateId].spec.maxTransactions > 0
    && req.decisionId in s.decisions
    && s.decisions[req.decisionId].intent == req.intent && s.decisions[req.decisionId].allow
    && Some(s.decisions[req.decisionId].mandateSpecHash) == s.mandates[req.mandateId].specHash
  }

  ghost predicate Sane(s: Shop) {
    && (forall id :: id in s.quotes ==> QuoteOk(s, s.quotes[id]))
    && (forall req :: req in s.requests ==> Matches(s, req))
  }

  lemma AllowedCount(spec: Spec, specHash: string, intent: Intent, ctx: Context)
    requires Allows(spec, specHash, intent, ctx)
    ensures ctx.txnCount < spec.maxTransactions
  {
    AllowsIsAll(spec, specHash, intent, ctx);
    assert Passes(CapCount, spec, specHash, intent, ctx);
  }

  lemma ProposeKeepsSane(s: Shop, p: Proposal, decisionId: string, reservedMinor: nat)
    requires Sane(s)
    ensures Sane(Apply(s, ProposeOrder(p, decisionId, reservedMinor)))
  {
    var s' := Apply(s, ProposeOrder(p, decisionId, reservedMinor));
    if s' == s { return; }
    var ctx := Context(s.now, reservedMinor, 0, s.version);
    if EngineAllows(s, p, reservedMinor) {
      AllowedCount(s.mandates[p.mandateId].spec, p.claimedSpecHash, p.claimedIntent, ctx);
    }
    forall id | id in s'.quotes ensures QuoteOk(s', s'.quotes[id]) { assert QuoteOk(s, s.quotes[id]); }
    forall req | req in s'.requests ensures Matches(s', req) {
      if req in s.requests { assert Matches(s, req); }
    }
  }

  lemma ApplyKeepsSane(s: Shop, step: Step)
    requires Sane(s)
    ensures Sane(Apply(s, step))
  {
    if step.ProposeOrder? {
      ProposeKeepsSane(s, step.p, step.decisionId, step.reservedMinor);
    } else {
      var s' := Apply(s, step);
      forall id | id in s'.quotes ensures QuoteOk(s', s'.quotes[id]) {
        if id in s.quotes { assert QuoteOk(s, s.quotes[id]); }
      }
      forall req | req in s'.requests ensures Matches(s', req) { assert Matches(s, req); }
    }
  }

  /** A quote of the current version that does not show the current price. */
  ghost predicate Contradicted(s: Shop, q: Quote) {
    q.catalogVersion == s.version && q.sku in s.items && s.items[q.sku].unitPriceMinor != q.unitPriceMinor
  }

  /******* Without contradictions G5 alone is enough *******/

  /** A seeding write that agrees with every quote of the current version. */
  ghost predicate Consistent(s: Shop, sku: string, item: Item) {
    forall id :: id in s.quotes && s.quotes[id].sku == sku && s.quotes[id].catalogVersion == s.version ==>
      s.quotes[id].unitPriceMinor == item.unitPriceMinor
  }

  /** Every seeding write of the run is consistent when it happens. */
  ghost predicate ConsistentRun(s: Shop, steps: seq<Step>) {
    steps == [] ||
    var front, last := steps[..|steps| - 1], steps[|steps| - 1];
    ConsistentRun(s, front) && (last.SeedItem? ==> Consistent(Run(s, front), last.sku, last.item))
  }

  ghost predicate NoneContradicted(s: Shop) {
    forall id :: id in s.quotes ==> !Contradicted(s, s.quotes[id])
  }

  lemma ApplyKeepsShown(s: Shop, step: Step)
    requires Sane(s) && NoneContradicted(s) && (step.SeedItem? ==> Consistent(s, step.sku, step.item))
    ensures NoneContradicted(Apply(s, step))
  {
    var s' := Apply(s, step);
    forall id | id in s'.quotes ensures !Contradicted(s', s'.quotes[id]) {
      if id in s.quotes { assert QuoteOk(s, s.quotes[id]) && !Contradicted(s, s.quotes[id]); }
    }
  }

  lemma {:induction false} ConsistentRunKeeps(s: Shop, steps: seq<Step>)
    requires Sane(s) && NoneContradicted(s) && ConsistentRun(s, steps)
    ensures Sane(Run(s, steps)) && NoneContradicted(Run(s, steps))
    decreases |steps|
  {
    if steps != [] {
      ConsistentRunKeeps(s, steps[..|steps| - 1]);
      ApplyKeepsSane(Run(s, steps[..|steps| - 1]), steps[|steps| - 1]);
      ApplyKeepsShown(Run(s, steps[..|steps| - 1]), steps[|steps| - 1]);
    }
  }

  /** Whenever G5 lets a proposed request pass, its amount is the item's price at that
      very moment times the quoted nights, whatever happened since the quote. */
  lemma NeverAStalePrice(s: Shop, steps: seq<Step>, req: Request)
    requires s.quotes == map[] && s.requests == {} && ConsistentRun(s, steps)
    ensures var s' := Run(s, steps);
      req in s'.requests && PassesG5(s', req) ==> FreshAmount(s', req)
  {
    ConsistentRunKeeps(s, steps);
    var s' := Run(s, steps);
    if req in s'.requests && PassesG5(s', req) {
      assert Matches(s', req) && QuoteOk(s', s'.quotes[req.quoteId]) && !Contradicted(s', s'.quotes[req.quoteId]);
    }
  }

  /** The same at the gate itself: a service that reads these tables and whose gates
      admit a proposed request charges the current price, and the amount is the total
      that the request's key was made from. */
  lemma GateChargesCurrentPrice(s: Shop, steps: seq<Step>, service: PurchaseService, req: Request, clock: Clock)
    requires s.quotes == map[] && s.requests == {} && ConsistentRun(s, steps)
    requires var s' := Run(s, steps);
      && req in s'.requests && service.quotes == s'.quotes && service.catalogVersion == s'.version
      && clock.g5 == s'.now && service.Admits(req, clock)
    ensures FreshAmount(Run(s, steps), req)
    ensures req.amountMinor > 0 && KeyOf(req).mandateId == req.mandateId && KeyOf(req).intent.totalMinor == req.amountMinor
  {
    ConsistentRunKeeps(s, steps);
    NeverAStalePrice(s, steps, req);
    var s' := Run(s, steps);
    assert Matches(s', req) && QuoteOk(s', s'.quotes[req.quoteId]);
  }

  /******* Which seeding writes the whole gate withstands *******/

  /** The mandate is, or can still become, one that the gate accepts. */
  predicate Live(status: Status) {
    status == DRAFT || status == PENDING_CONFIRM || status == LOCKED || status == EXECUTING
  }

  predicate Usable(m: MandateRow, now: int) {
    && Live(m.status) && m.specHash.Some? && m.specHashVerifies && m.signaturePresent && m.signatureVerifies
    && now < m.spec.expiresAt && 0 < m.spec.maxTransactions
  }

  /** The gates may still admit this request. */
  ghost predicate StillAdmissible(s: Shop, req: Request)
    requires Matches(s, req)
  {
    && Usable(s.mandates[req.mandateId], s.now)
    && s.now < s.quotes[req.quoteId].expiresAt
    && s.now - s.decisions[req.decisionId].evaluatedAt <= s.decisions[req.decisionId].ttl
  }

  function Max(a: int, b: int): int {
    if a <= b then b else a
  }

  /** The engine may still allow a proposal on this quote at the current price, and the
      gates then admit it. */
  ghost predicate Proposable(s: Shop, q: Quote)
    requires QuoteOk(s, q)
  {
    var m := s.mandates[q.mandateId];
    var soonest := Max(s.now, m.spec.notBefore);
    && Usable(m, s.now) && soonest < q.expiresAt
    && Allows(m.spec, m.specHash.value, LiveIntent(s.items, q, m.spec, m.specHash.value), Context(soonest, 0, 0, s.version))
  }

  /** Nothing can be charged on this quote any more. */
  ghost predicate Dead(s: Shop, id: string)
    requires Sane(s) && id in s.quotes
  {
    && !Proposable(s, s.quotes[id])
    && forall req :: req in s.requests && req.quoteId == id ==> !StillAdmissible(s, req)
  }

  /** The write contradicts a quote of the current version on which a charge is still
      possible: a request is under way, or a proposal would be allowed at the price
      written. */
  ghost predicate Harmful(s: Shop, sku: string, item: Item)
    requires Sane(s)
  {
    var s' := Apply(s, SeedItem(sku, item));
    ApplyKeepsSane(s, SeedItem(sku, item));
    exists id :: id in s.quotes && s.quotes[id].sku == sku && Contradicted(s', s.quotes[id]) && !Dead(s', id)
  }

  /** Every contradicted quote is dead. */
  ghost predicate Guarded(s: Shop) {
    Sane(s) && forall id :: id in s.quotes && Contradicted(s, s.quotes[id]) ==> Dead(s, id)
  }

  /** No seeding write of the run is harmful when it happens. */
  ghost predicate HarmlessRun(s: Shop, steps: seq<Step>) {
    steps == [] ||
    var front, last := steps[..|steps| - 1], steps[|steps| - 1];
    HarmlessRun(s, front) && (last.SeedItem? ==> Sane(Run(s, front)) && !Harmful(Run(s, front), last.sku, last.item))
  }

  /** What the engine allows later, and with more committed, it allows at once. */
  lemma AllowsSooner(spec: Spec, specHash: string, intent: Intent, late: Context, soon: Context)
    requires Allows(spec, specHash, intent, late)
    requires spec.notBefore <= soon.now <= late.now && soon.reservedMinor <= late.reservedMinor
    requires soon.txnCount == late.txnCount && soon.catalogVersion == late.catalogVersion
    ensures Allows(spec, specHash, intent, soon)
  {
    AllowsIsAll(spec, specHash, intent, late);
    forall rule ensures Passes(rule, spec, specHash, intent, soon) {
      assert Passes(rule, spec, specHash, intent, late);
    }
    AllowsIsAll(spec, specHash, intent, soon);
  }

  lemma AllowedInTime(spec: Spec, specHash: string, intent: Intent, ctx: Context)
    requires Allows(spec, specHash, intent, ctx)
    ensures spec.notBefore <= ctx.now < spec.expiresAt
  {
    AllowsIsAll(spec, specHash, intent, ctx);
    assert Passes(TemporalWindow, spec, specHash, intent, ctx);
  }

  /** Time only takes chances away. */
  lemma ProposableSooner(s: Shop, s': Shop, q: Quote)
    requires QuoteOk(s, q) && QuoteOk(s', q) && Proposable(s', q)
    requires s.now <= s'.now && s.version == s'.version && s.items[q.sku] == s'.items[q.sku]
    requires s.mandates[q.mandateId].(status := DRAFT) == s'.mandates[q.mandateId].(status := DRAFT)
    requires Live(s'.mandates[q.mandateId].status) ==> Live(s.mandates[q.mandateId].status)
    ensures Proposable(s, q)
  {
    var m := s.mandates[q.mandateId];
    var soon, late := Max(s.now, m.spec.notBefore), Max(s'.now, m.spec.notBefore);
    var intent := LiveIntent(s.items, q, m.spec, m.specHash.value);
    AllowsSooner(m.spec, m.specHash.value, intent, Context(late, 0, 0, s.version), Context(soon, 0, 0, s.version));
  }

  /** A proposal on a quote that is admissible afterwards was possible before. */
  lemma NewRequestWasProposable(s: Shop, p: Proposal, decisionId: string, reservedMinor: nat, req: Request)
    requires Sane(s)
    requires var s' := Apply(s, ProposeOrder(p, decisionId, reservedMinor));
      req in s'.requests && req !in s.requests && Matches(s', req) && StillAdmissible(s', req)
    ensures req.quoteId in s.quotes && QuoteOk(s, s.quotes[req.quoteId]) && Proposable(s, s.quotes[req.quoteId])
  {
    var q := s.quotes[req.quoteId];
    assert QuoteOk(s, q);
    var m, late := s.mandates[q.mandateId], Context(s.now, reservedMinor, 0, s.version);
    AllowedInTime(m.spec, p.claimedSpecHash, p.claimedIntent, late);
    AllowsSooner(m.spec, p.claimedSpecHash, p.claimedIntent, late, Context(Max(s.now, m.spec.notBefore), 0, 0, s.version));
  }

  lemma FireKeepsLife(from: Status, trigger: Trigger, ctx: GuardContext)
    ensures Fire(from, trigger, ctx).Ok? && Live(Fire(from, trigger, ctx).value) ==> Live(from)
  {
    FireIsTarget(from, trigger, ctx);
  }

  /** A contradicted quote of the shop after a step was one before it, unless the step
      is a seeding write. */
  lemma WasContradicted(s: Shop, step: Step, id: string)
    requires Sane(s) && !step.SeedItem? && id in Apply(s, step).quotes
    requires Contradicted(Apply(s, step), Apply(s, step).quotes[id])
    ensures id in s.quotes && s.quotes[id] == Apply(s, step).quotes[id] && Contradicted(s, s.quotes[id])
    ensures Apply(s, step).version == s.version && Apply(s, step).items == s.items
  {
    if id in s.quotes { assert QuoteOk(s, s.quotes[id]); }
  }

  /** The step leaves this quote, the version and the items as they are. */
  ghost predicate Beside(s: Shop, step: Step, id: string) {
    var s' := Apply(s, step);
    && !step.SeedItem? && Sane(s) && Sane(s') && s'.version == s.version && s'.items == s.items
    && id in s.quotes && id in s'.quotes && s'.quotes[id] == s.quotes[id]
  }

  lemma StaysUnproposable(s: Shop, step: Step, id: string)
    requires Beside(s, step, id) && Dead(s, id)
    ensures !Proposable(Apply(s, step), s.quotes[id])
  {
    var s', q := Apply(s, step), s.quotes[id];
    if step.FireMandate? && step.mandateId in s.mandates {
      FireKeepsLife(s.mandates[step.mandateId].status, step.trigger, step.ctx);
    }
    assert QuoteOk(s, q) && QuoteOk(s', q);
    if Proposable(s', q) { ProposableSooner(s, s', q); }
  }

  lemma StaysInadmissible(s: Shop, step: Step, id: string, req: Request)
    requires Beside(s, step, id) && Dead(s, id)
    requires req in Apply(s, step).requests && req.quoteId == id && Matches(Apply(s, step), req)
    ensures !StillAdmissible(Apply(s, step), req)
  {
    var s' := Apply(s, step);
    if step.FireMandate? && step.mandateId in s.mandates {
      FireKeepsLife(s.mandates[step.mandateId].status, step.trigger, step.ctx);
    }
    if req in s.requests {
      assert Matches(s, req) && !StillAdmissible(s, req);
    } else if StillAdmissible(s', req) {
      NewRequestWasProposable(s, step.p, step.decisionId, step.reservedMinor, req);
    }
  }

  lemma StaysDead(s: Shop, step: Step, id: string)
    requires Beside(s, step, id) && Dead(s, id)
    ensures Dead(Apply(s, step), id)
  {
    var s' := Apply(s, step);
    StaysUnproposable(s, step, id);
    forall req | req in s'.requests && req.quoteId == id ensures !StillAdmissible(s', req) {
      assert Matches(s', req);
      StaysInadmissible(s, step, id, req);
    }
  }

  lemma SeedKeepsDead(s: Shop, sku: string, item: Item, id: string)
    requires Sane(s) && Sane(Apply(s, SeedItem(sku, item))) && id in s.quotes && s.quotes[id].sku != sku && Dead(s, id)
    ensures Dead(Apply(s, SeedItem(sku, item)), id)
  {
    var s', q := Apply(s, SeedItem(sku, item)), s.quotes[id];
    assert QuoteOk(s, q) && QuoteOk(s', q);
    forall req | req in s'.requests && req.quoteId == id ensures !StillAdmissible(s', req) {
      assert Matches(s, req) && Matches(s', req) && !StillAdmissible(s, req);
    }
  }

  lemma ApplyKeepsGuarded(s: Shop, step: Step)
    requires Guarded(s) && (step.SeedItem? ==> !Harmful(s, step.sku, step.item))
    ensures Guarded(Apply(s, step))
  {
    var s' := Apply(s, step);
    ApplyKeepsSane(s, step);
    forall id | id in s'.quotes && Contradicted(s', s'.quotes[id]) ensures Dead(s', id) {
      if !step.SeedItem? {
        WasContradicted(s, step, id);
        StaysDead(s, step, id);
      } else if s.quotes[id].sku != step.sku {
        SeedKeepsDead(s, step.sku, step.item, id);
      }
    }
  }

  lemma {:induction false} HarmlessRunKeeps(s: Shop, steps: seq<Step>)
    requires Guarded(s) && HarmlessRun(s, steps)
    ensures Guarded(Run(s, steps))
    decreases |steps|
  {
    if steps != [] {
      HarmlessRunKeeps(s, steps[..|steps| - 1]);
      ApplyKeepsGuarded(Run(s, steps[..|steps| - 1]), steps[|steps| - 1]);
    }
  }

  lemma AdmittedWasAdmissible(s: Shop, req: Request)
    requires Matches(s, req) && Admitted(s, req)
    ensures StillAdmissible(s, req)
  {
  }

  lemma GuardedIsFresh(s: Shop, req: Request)
    requires Guarded(s) && req in s.requests && Admitted(s, req)
    ensures FreshAmount(s, req)
  {
    assert Matches(s, req) && QuoteOk(s, s.quotes[req.quoteId]);
    AdmittedWasAdmissible(s, req);
    AdmissibleIsShown(s, req);
  }

  lemma AdmissibleIsShown(s: Shop, req: Request)
    requires Guarded(s) && req in s.requests && Matches(s, req) && StillAdmissible(s, req)
    ensures !Contradicted(s, s.quotes[req.quoteId])
  {
    if Contradicted(s, s.quotes[req.quoteId]) { DeadDeniesAll(s, req.quoteId, req); }
  }

  lemma DeadDeniesAll(s: Shop, id: string, req: Request)
    requires Sane(s) && id in s.quotes && Dead(s, id) && req in s.requests && req.quoteId == id && Matches(s, req)
    ensures !StillAdmissible(s, req)
  {
  }

  /** With seeding writes that are not harmful, the gates together never admit a
      proposed request at another price than the current one. */
  lemma HarmlessRunNeverStale(s: Shop, steps: seq<Step>, req: Request)
    requires s.quotes == map[] && s.requests == {} && HarmlessRun(s, steps)
    ensures var s' := Run(s, steps);
      req in s'.requests && Admitted(s', req) ==> FreshAmount(s', req)
  {
    HarmlessRunKeeps(s, steps);
    var s' := Run(s, steps);
    if req in s'.requests && Admitted(s', req) { GuardedIsFresh(s', req); }
  }

  /******* The condition is exact *******/

  ghost predicate NoSeeding(steps: seq<Step>) {
    forall i :: 0 <= i < |steps| ==> !steps[i].SeedItem?
  }

  /** Nothing that may follow, short of another seeding write, gets a stale price
      past the gates. */
  ghost predicate ForeverFresh(s: Shop) {
    forall steps, req | NoSeeding(steps) ::
      req in Run(s, steps).requests && Admitted(Run(s, steps), req) ==> FreshAmount(Run(s, steps), req)
  }

  lemma RunSnoc(s: Shop, steps: seq<Step>, step: Step)
    ensures Run(s, steps + [step]) == Apply(Run(s, steps), step)
  {
    assert (steps + [step])[..|steps|] == steps;
  }

  lemma {:induction false} NoSeedingIsHarmless(s: Shop, steps: seq<Step>)
    requires NoSeeding(steps)
    ensures HarmlessRun(s, steps)
    decreases |steps|
  {
    if steps != [] { NoSeedingIsHarmless(s, steps[..|steps| - 1]); }
  }

  lemma FireOne(s: Shop, mandateId: string, trigger: Trigger, to: Status)
    requires mandateId in s.mandates && Target(s.mandates[mandateId].status, trigger) == Some(to)
    requires Guard(trigger, DEFAULT_CONTEXT)
    ensures Apply(s, FireMandate(mandateId, trigger, DEFAULT_CONTEXT)) == WithStatus(s, mandateId, to)
  {
    FireIsTarget(s.mandates[mandateId].status, trigger, DEFAULT_CONTEXT);
  }

  /** A live mandate gets to where the gate accepts it, and nothing else changes. */
  lemma Enliven(s: Shop, mandateId: string) returns (steps: seq<Step>, status: Status)
    requires mandateId in s.mandates && Live(s.mandates[mandateId].status)
    ensures NoSeeding(steps) && (status == LOCKED || status == EXECUTING)
    ensures Run(s, steps) == WithStatus(s, mandateId, status)
  {
    var row := s.mandates[mandateId];
    var draftOk, confirm := FireMandate(mandateId, DraftOk, DEFAULT_CONTEXT), FireMandate(mandateId, Confirm, DEFAULT_CONTEXT);
    if row.status == DRAFT {
      var s1 := WithStatus(s, mandateId, PENDING_CONFIRM);
      FireOne(s, mandateId, DraftOk, PENDING_CONFIRM);
      FireOne(s1, mandateId, Confirm, LOCKED);
      RunSnoc(s, [], draftOk);
      RunSnoc(s, [] + [draftOk], confirm);
      UpdateTwice(s.mandates, mandateId, row.(status := PENDING_CONFIRM), row.(status := LOCKED));
      steps, status := [] + [draftOk] + [confirm], LOCKED;
    } else if row.status == PENDING_CONFIRM {
      FireOne(s, mandateId, Confirm, LOCKED);
      RunSnoc(s, [], confirm);
      steps, status := [] + [confirm], LOCKED;
    } else {
      steps, status := [], row.status;
      assert s.mandates[mandateId := row] == s.mandates;
    }
  }

  lemma NightsMatter(a: int, b: int, nights: int)
    requires a != b && nights != 0
    ensures a * nights != b * nights
  {
  }

  lemma ContradictedIsStale(s: Shop, req: Request)
    requires Matches(s, req) && QuoteOk(s, s.quotes[req.quoteId]) && Contradicted(s, s.quotes[req.quoteId])
    ensures !FreshAmount(s, req)
  {
    var q := s.quotes[req.quoteId];
    NightsMatter(s.items[q.sku].unitPriceMinor, q.unitPriceMinor, q.nights);
  }

  /** A request under way on a contradicted quote is admitted at the old price. */
  lemma OutstandingRequestDefeats(s: Shop, req: Request) returns (steps: seq<Step>)
    requires Sane(s) && req in s.requests && Matches(s, req) && StillAdmissible(s, req)
    requires Contradicted(s, s.quotes[req.quoteId])
    ensures var s' := Run(s, steps);
      NoSeeding(steps) && req in s'.requests && Admitted(s', req) && !FreshAmount(s', req)
  {
    assert QuoteOk(s, s.quotes[req.quoteId]);
    var status;
    steps, status := Enliven(s, req.mandateId);
    ContradictedIsStale(s, req);
  }

  /** The proposal that the merchant expects for this quote. */
  function GoodProposal(s: Shop, quoteId: string): Proposal
    requires quoteId in s.quotes && s.quotes[quoteId].sku in s.items && s.quotes[quoteId].mandateId in s.mandates
    requires s.mandates[s.quotes[quoteId].mandateId].specHash.Some?
  {
    var q := s.quotes[quoteId];
    var m := s.mandates[q.mandateId];
    Proposal(quoteId, q, q.mandateId, m.specHash.value, LiveIntent(s.items, q, m.spec, m.specHash.value))
  }

  /** Under an acceptable mandate, in time, what the engine allows is admitted at once. */
  lemma ProposedIsAdmitted(s: Shop, quoteId: string, decisionId: string)
    requires Sane(s) && quoteId in s.quotes && decisionId !in s.decisions && QuoteOk(s, s.quotes[quoteId])
    requires var q := s.quotes[quoteId]; var m := s.mandates[q.mandateId];
      && Usable(m, s.now) && (m.status == LOCKED || m.status == EXECUTING) && s.now < q.expiresAt
      && q.catalogVersion == s.version
      && Allows(m.spec, m.specHash.value, LiveIntent(s.items, q, m.spec, m.specHash.value), Context(s.now, 0, 0, s.version))
    ensures var p := GoodProposal(s, quoteId);
      var s' := Apply(s, ProposeOrder(p, decisionId, 0));
      var req := Request(p.mandateId, decisionId, quoteId, p.claimedIntent, s.quotes[quoteId].totalMinor, 1);
      req in s'.requests && Admitted(s', req) && s'.quotes == s.quotes && s'.items == s.items && s'.version == s.version
  {
    assert ProposalDenial(s, GoodProposal(s, quoteId)).None?;
  }

  /** The shop with this mandate acceptable and the clock set. */
  function Readied(s: Shop, mandateId: string, status: Status, now: int): Shop
    requires mandateId in s.mandates
  {
    WithStatus(s, mandateId, status).(now := now)
  }

  lemma GetReady(s: Shop, mandateId: string, now: int) returns (steps: seq<Step>, status: Status)
    requires mandateId in s.mandates && Live(s.mandates[mandateId].status) && s.now <= now
    ensures NoSeeding(steps) && (status == LOCKED || status == EXECUTING)
    ensures Run(s, steps) == Readied(s, mandateId, status, now)
  {
    var live;
    live, status := Enliven(s, mandateId);
    RunSnoc(s, live, Tick(now));
    steps := live + [Tick(now)];
  }

  /** At the soonest moment the readied shop admits a proposal. */
  lemma ReadiedAdmits(s: Shop, quoteId: string, decisionId: string, status: Status) returns (propose: Step, req: Request)
    requires Sane(s) && quoteId in s.quotes && decisionId !in s.decisions && QuoteOk(s, s.quotes[quoteId])
    requires s.quotes[quoteId].catalogVersion == s.version && Proposable(s, s.quotes[quoteId])
    requires status == LOCKED || status == EXECUTING
    ensures var q := s.quotes[quoteId];
      var s2 := Readied(s, q.mandateId, status, Max(s.now, s.mandates[q.mandateId].spec.notBefore));
      var s' := Apply(s2, propose);
      && !propose.SeedItem? && req in s'.requests && Admitted(s', req)
      && req.quoteId == quoteId && req.amountMinor == q.totalMinor && s'.quotes == s.quotes && s'.items == s.items
  {
    var q := s.quotes[quoteId];
    var m := s.mandates[q.mandateId];
    var soonest := Max(s.now, m.spec.notBefore);
    var s2 := Readied(s, q.mandateId, status, soonest);
    AllowedInTime(
      m.spec, m.specHash.value, LiveIntent(s.items, q, m.spec, m.specHash.value), Context(soonest, 0, 0, s.version));
    SaneMoved(s, s2);
    ProposedIsAdmitted(s2, quoteId, decisionId);
    var p := GoodProposal(s2, quoteId);
    propose := ProposeOrder(p, decisionId, 0);
    req := Request(p.mandateId, decisionId, quoteId, p.claimedIntent, q.totalMinor, 1);
  }

  /** A proposal on a contradicted quote is allowed, and admitted at the old price. */
  lemma LaterProposalDefeats(s: Shop, quoteId: string, decisionId: string) returns (steps: seq<Step>, req: Request)
    requires Sane(s) && quoteId in s.quotes && decisionId !in s.decisions && QuoteOk(s, s.quotes[quoteId])
    requires Contradicted(s, s.quotes[quoteId]) && Proposable(s, s.quotes[quoteId])
    ensures var s' := Run(s, steps);
      NoSeeding(steps) && req in s'.requests && Admitted(s', req) && !FreshAmount(s', req)
  {
    var q := s.quotes[quoteId];
    var ready, status := GetReady(s, q.mandateId, Max(s.now, s.mandates[q.mandateId].spec.notBefore));
    var propose;
    propose, req := ReadiedAdmits(s, quoteId, decisionId, status);
    RunSnoc(s, ready, propose);
    steps := ready + [propose];
    NightsMatter(s.items[q.sku].unitPriceMinor, q.unitPriceMinor, q.nights);
  }

  /** A shop stays sane when only the clock and statuses have moved. */
  lemma SaneMoved(s: Shop, s': Shop)
    requires Sane(s) && s'.quotes == s.quotes && s'.items == s.items && s'.version == s.version
    requires s'.requests == s.requests && s'.decisions == s.decisions && s'.mandates.Keys == s.mandates.Keys
    requires forall m :: m in s.mandates ==>
      s'.mandates[m].spec == s.mandates[m].spec && s'.mandates[m].specHash == s.mandates[m].specHash
    ensures Sane(s')
  {
    forall id | id in s'.quotes ensures QuoteOk(s', s'.quotes[id]) { assert QuoteOk(s, s.quotes[id]); }
    forall req | req in s'.requests ensures Matches(s', req) { assert Matches(s, req); }
  }

  /** After a harmful write some run gets a stale price past the gates. */
  lemma HarmfulSeedDefeats(s: Shop, sku: string, item: Item, decisionId: string) returns (steps: seq<Step>, req: Request)
    requires Sane(s) && Harmful(s, sku, item) && decisionId !in s.decisions
    ensures var s' := Run(Apply(s, SeedItem(sku, item)), steps);
      NoSeeding(steps) && req in s'.requests && Admitted(s', req) && !FreshAmount(s', req)
  {
    var s0 := Apply(s, SeedItem(sku, item));
    ApplyKeepsSane(s, SeedItem(sku, item));
    var id :| id in s.quotes && s.quotes[id].sku == sku && Contradicted(s0, s.quotes[id]) && !Dead(s0, id);
    assert QuoteOk(s0, s0.quotes[id]);
    if Proposable(s0, s0.quotes[id]) {
      steps, req := LaterProposalDefeats(s0, id, decisionId);
    } else {
      req :| req in s0.requests && req.quoteId == id && StillAdmissible(s0, req);
      steps := OutstandingRequestDefeats(s0, req);
    }
  }

  /** A seeding write keeps the gates sound for all that may follow if and only if it
      contradicts no quote of the current version on which a charge is still possible. */
  lemma SeedingIsExact(s: Shop, sku: string, item: Item, decisionId: string)
    requires Guarded(s) && decisionId !in s.decisions
    ensures ForeverFresh(Apply(s, SeedItem(sku, item))) <==> !Harmful(s, sku, item)
  {
    var s0 := Apply(s, SeedItem(sku, item));
    if Harmful(s, sku, item) {
      var steps, req := HarmfulSeedDefeats(s, sku, item, decisionId);
    } else {
      ApplyKeepsGuarded(s, SeedItem(sku, item));
      forall steps, req | NoSeeding(steps)
        ensures req in Run(s0, steps).requests && Admitted(Run(s0, steps), req) ==> FreshAmount(Run(s0, steps), req)
      {
        NoSeedingIsHarmless(s0, steps);
        HarmlessRunKeeps(s0, steps);
        if req in Run(s0, steps).requests && Admitted(Run(s0, steps), req) { GuardedIsFresh(Run(s0, steps), req); }
      }
    }
  }
}
