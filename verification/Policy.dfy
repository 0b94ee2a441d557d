/** The policy engine (src/actl/domain/policy/rules.py and
src/actl/domain/policy/engine.py): twelve rules, all evaluated, in a fixed order.
*/
module Policy {
  import opened Ledger

  /** The part of a mandate that its hash covers and the rules read. */
  datatype Spec = Spec(
    currency: string, maxTotalMinor: int, maxUnitMinor: int, maxTransactions: int,
    allowedCategories: set<string>, blockedMerchants: set<string>, requireRefundable: bool, maxPriceDeltaBps: int,
    notBefore: int, expiresAt: int, nights: int, rooms: int)

  /** What depends on the moment: the clock, the committed total, the transactions so
      far, and the live catalogue version. */
  datatype Context = Context(now: int, reservedMinor: int, txnCount: int, catalogVersion: int)

  datatype Rule =
    | CurrencyMatch | CategoryAllow | MerchantBlock | TemporalWindow | CapUnit | CapTotal | CapCount
    | QuantityMatch | PolicyRefundable | PriceDelta | CatalogFreshness | IntegrityBinding

  const RULES: seq<Rule> := [
    CurrencyMatch, CategoryAllow, MerchantBlock, TemporalWindow, CapUnit, CapTotal, CapCount,
    QuantityMatch, PolicyRefundable, PriceDelta, CatalogFreshness, IntegrityBinding]

  /** Division that rounds down, as the program's does. */
  function FloorDiv(a: int, b: int): int
    requires b != 0
  {
    if b > 0 then a / b else (-a) / (-b)
  }

  function Abs(x: int): int {
    if x < 0 then -x else x
  }

  /** How far the current total is from the quoted one, in hundredths of a percent. */
  function DeltaBps(quoted: int, current: int): int {
    if quoted == 0 then (if current == 0 then 0 else 10_000)
    else FloorDiv(Abs(current - quoted) * 10_000, quoted)
  }

  /** One rule; `specHash` is the mandate's, or "" if it has none. */
  predicate Passes(rule: Rule, spec: Spec, specHash: string, intent: Intent, ctx: Context) {
    var terms := intent.terms;
    match rule
    case CurrencyMatch => terms.currency == spec.currency
    case CategoryAllow => terms.category in spec.allowedCategories
    case MerchantBlock => terms.merchant !in spec.blockedMerchants
    case TemporalWindow => spec.notBefore <= ctx.now < spec.expiresAt
    case CapUnit => terms.unitPriceMinor <= spec.maxUnitMinor
    case CapTotal => ctx.reservedMinor + intent.totalMinor <= spec.maxTotalMinor
    case CapCount => ctx.txnCount < spec.maxTransactions
    case QuantityMatch => terms.nights == spec.nights && terms.rooms == spec.rooms
    case PolicyRefundable => !spec.requireRefundable || terms.refundable
    case PriceDelta => DeltaBps(intent.totalMinor, terms.currentTotalMinor) <= spec.maxPriceDeltaBps
    case CatalogFreshness => terms.catalogVersion == ctx.catalogVersion
    case IntegrityBinding => terms.mandateSpecHash == specHash
  }

  /** The reason code of a rule that fails. */
  function Code(rule: Rule, spec: Spec, ctx: Context): string {
    match rule
    case CurrencyMatch => "CURRENCY_MISMATCH"
    case CategoryAllow => "CATEGORY_NOT_ALLOWED"
    case MerchantBlock => "MERCHANT_BLOCKED"
    case TemporalWindow => if ctx.now < spec.notBefore then "MANDATE_NOT_YET_VALID" else "MANDATE_EXPIRED"
    case CapUnit => "UNIT_CAP_EXCEEDED"
    case CapTotal => "BUDGET_EXCEEDED"
    case CapCount => "TXN_LIMIT_EXCEEDED"
    case QuantityMatch => "QUANTITY_MISMATCH"
    case PolicyRefundable => "REFUND_POLICY_VIOLATION"
    case PriceDelta => "PRICE_DRIFT"
    case CatalogFreshness => "STALE_PRICE"
    case IntegrityBinding => "INTENT_MISMATCH"
  }

  /** The codes of the failing rules among the first `count`, in order. */
  function Failures(count: nat, spec: Spec, specHash: string, intent: Intent, ctx: Context): seq<string>
    requires count <= |RULES|
  {
    if count == 0 then []
    else
      var before, rule := Failures(count - 1, spec, specHash, intent, ctx), RULES[count - 1];
      if Passes(rule, spec, specHash, intent, ctx) then before else before + [Code(rule, spec, ctx)]
  }

  /** Every rule passes. */
  predicate Allows(spec: Spec, specHash: string, intent: Intent, ctx: Context) {
    Failures(|RULES|, spec, specHash, intent, ctx) == []
  }

  lemma {:induction false} NoFailures(count: nat, spec: Spec, specHash: string, intent: Intent, ctx: Context)
    requires count <= |RULES|
    ensures Failures(count, spec, specHash, intent, ctx) == [] <==>
      forall i :: 0 <= i < count ==> Passes(RULES[i], spec, specHash, intent, ctx)
  {
    if count > 0 { NoFailures(count - 1, spec, specHash, intent, ctx); }
  }

  /** The engine allows exactly what every rule passes. */
  lemma AllowsIsAll(spec: Spec, specHash: string, intent: Intent, ctx: Context)
    ensures Allows(spec, specHash, intent, ctx) <==> forall rule :: Passes(rule, spec, specHash, intent, ctx)
  {
    NoFailures(|RULES|, spec, specHash, intent, ctx);
    if Allows(spec, specHash, intent, ctx) {
      forall rule ensures Passes(rule, spec, specHash, intent, ctx) {
        var i := RuleIsListed(rule);
        assert Passes(RULES[i], spec, specHash, intent, ctx);
      }
    }
  }

  lemma RuleIsListed(rule: Rule) returns (i: nat)
    ensures i < |RULES| && RULES[i] == rule
  {
    i := match rule
      case CurrencyMatch => 0
      case CategoryAllow => 1
      case MerchantBlock => 2
      case TemporalWindow => 3
      case CapUnit => 4
      case CapTotal => 5
      case CapCount => 6
      case QuantityMatch => 7
      case PolicyRefundable => 8
      case PriceDelta => 9
      case CatalogFreshness => 10
      case IntegrityBinding => 11;
  }

  /** The program's division is the floor. */
  lemma FloorDivIsFloor(a: int, b: int)
    requires b != 0
    ensures b > 0 ==> FloorDiv(a, b) * b <= a < FloorDiv(a, b) * b + b
    ensures b < 0 ==> FloorDiv(a, b) * b >= a > FloorDiv(a, b) * b + b
  {
  }

  ghost function Unless(passes: bool, code: string): seq<string> {
    if passes then [] else [code]
  }

  /** The distance between the two totals is less than one hundredth of a percent above the
      tolerance, relative to the quoted one; from nothing, any change is the whole. */
  ghost predicate WithinDrift(quoted: int, current: int, toleranceBps: int) {
    var distance := if current >= quoted then current - quoted else quoted - current;
    if quoted > 0 then distance * 10_000 < (toleranceBps + 1) * quoted
    else if quoted < 0 then distance * 10_000 > (toleranceBps + 1) * quoted
    else toleranceBps >= if distance == 0 then 0 else 10_000
  }

  lemma AtMostIsBelowNext(quotient: int, limit: int, a: int, b: int)
    requires b > 0 && quotient * b <= a < quotient * b + b
    ensures quotient <= limit <==> a < (limit + 1) * b
  {
    if quotient <= limit {
      assert (limit - quotient) * b >= 0;
    } else {
      assert (quotient - limit - 1) * b >= 0;
    }
  }

  /** The rule's quotient is within the tolerance exactly if the drift is. */
  lemma DriftIsMeasured(quoted: int, current: int, toleranceBps: int)
    ensures DeltaBps(quoted, current) <= toleranceBps <==> WithinDrift(quoted, current, toleranceBps)
  {
    var a := Abs(current - quoted) * 10_000;
    if quoted != 0 { FloorDivIsFloor(a, quoted); }
    if quoted > 0 { AtMostIsBelowNext(FloorDiv(a, quoted), toleranceBps, a, quoted); }
    if quoted < 0 { AtMostIsBelowNext(FloorDiv(a, quoted), toleranceBps, -a, -quoted); }
  }

  lemma FailuresUnfold(count: nat, passes: bool, code: string, spec: Spec, specHash: string, intent: Intent, ctx: Context)
    requires 0 < count <= |RULES|
    requires passes == Passes(RULES[count - 1], spec, specHash, intent, ctx) && code == Code(RULES[count - 1], spec, ctx)
    ensures Failures(count, spec, specHash, intent, ctx) ==
      Failures(count - 1, spec, specHash, intent, ctx) + Unless(passes, code)
  {
    var before := Failures(count - 1, spec, specHash, intent, ctx);
    assert before + [] == before;
  }

  lemma PassesSay(spec: Spec, specHash: string, intent: Intent, ctx: Context)
    ensures Passes(CurrencyMatch, spec, specHash, intent, ctx) <==>
      intent.terms.currency == spec.currency
    ensures Passes(CategoryAllow, spec, specHash, intent, ctx) <==>
      intent.terms.category in spec.allowedCategories
    ensures Passes(MerchantBlock, spec, specHash, intent, ctx) <==>
      intent.terms.merchant !in spec.blockedMerchants
    ensures Passes(TemporalWindow, spec, specHash, intent, ctx) <==>
      spec.notBefore <= ctx.now < spec.expiresAt
    ensures Passes(CapUnit, spec, specHash, intent, ctx) <==>
      intent.terms.unitPriceMinor <= spec.maxUnitMinor
    ensures Passes(CapTotal, spec, specHash, intent, ctx) <==>
      ctx.reservedMinor + intent.totalMinor <= spec.maxTotalMinor
    ensures Passes(CapCount, spec, specHash, intent, ctx) <==>
      ctx.txnCount < spec.maxTransactions
    ensures Passes(QuantityMatch, spec, specHash, intent, ctx) <==>
      (intent.terms.nights == spec.nights && intent.terms.rooms == spec.rooms)
    ensures Passes(PolicyRefundable, spec, specHash, intent, ctx) <==>
      (spec.requireRefundable ==> intent.terms.refundable)
    ensures Passes(PriceDelta, spec, specHash, intent, ctx) <==>
      WithinDrift(intent.totalMinor, intent.terms.currentTotalMinor, spec.maxPriceDeltaBps)
    ensures Passes(CatalogFreshness, spec, specHash, intent, ctx) <==>
      intent.terms.catalogVersion == ctx.catalogVersion
    ensures Passes(IntegrityBinding, spec, specHash, intent, ctx) <==>
      intent.terms.mandateSpecHash == specHash
  {
    DriftIsMeasured(intent.totalMinor, intent.terms.currentTotalMinor, spec.maxPriceDeltaBps);
  }

  /** The first three rules, each comparison and each code written out. */
  lemma TermsFirst(spec: Spec, specHash: string, intent: Intent, ctx: Context)
    ensures Failures(3, spec, specHash, intent, ctx) ==
      Unless(intent.terms.currency == spec.currency, "CURRENCY_MISMATCH")
      + Unless(intent.terms.category in spec.allowedCategories, "CATEGORY_NOT_ALLOWED")
      + Unless(intent.terms.merchant !in spec.blockedMerchants, "MERCHANT_BLOCKED")
  {
    FailuresUnfold(3, intent.terms.merchant !in spec.blockedMerchants, "MERCHANT_BLOCKED", spec, specHash, intent, ctx);
    FailuresUnfold(2, intent.terms.category in spec.allowedCategories, "CATEGORY_NOT_ALLOWED", spec, specHash, intent, ctx);
    FailuresUnfold(1, intent.terms.currency == spec.currency, "CURRENCY_MISMATCH", spec, specHash, intent, ctx);
    assert Failures(0, spec, specHash, intent, ctx) == [];
    var first := Unless(intent.terms.currency == spec.currency, "CURRENCY_MISMATCH");
    assert [] + first == first;
  }

  /** Rules four to six. */
  lemma CapsNext(spec: Spec, specHash: string, intent: Intent, ctx: Context)
    ensures Failures(6, spec, specHash, intent, ctx) ==
      Failures(3, spec, specHash, intent, ctx)
      + Unless(
          spec.notBefore <= ctx.now < spec.expiresAt,
          if ctx.now < spec.notBefore then "MANDATE_NOT_YET_VALID" else "MANDATE_EXPIRED")
      + Unless(intent.terms.unitPriceMinor <= spec.maxUnitMinor, "UNIT_CAP_EXCEEDED")
      + Unless(ctx.reservedMinor + intent.totalMinor <= spec.maxTotalMinor, "BUDGET_EXCEEDED")
  {
    FailuresUnfold(
      6, ctx.reservedMinor + intent.totalMinor <= spec.maxTotalMinor,
      "BUDGET_EXCEEDED", spec, specHash, intent, ctx);
    FailuresUnfold(5, intent.terms.unitPriceMinor <= spec.maxUnitMinor, "UNIT_CAP_EXCEEDED", spec, specHash, intent, ctx);
    FailuresUnfold(
      4, spec.notBefore <= ctx.now < spec.expiresAt,
      if ctx.now < spec.notBefore then "MANDATE_NOT_YET_VALID" else "MANDATE_EXPIRED", spec, specHash, intent, ctx);
  }

  /** Rules seven to nine. */
  lemma CountNext(spec: Spec, specHash: string, intent: Intent, ctx: Context)
    ensures Failures(9, spec, specHash, intent, ctx) ==
      Failures(6, spec, specHash, intent, ctx)
      + Unless(ctx.txnCount < spec.maxTransactions, "TXN_LIMIT_EXCEEDED")
      + Unless(intent.terms.nights == spec.nights && intent.terms.rooms == spec.rooms, "QUANTITY_MISMATCH")
      + Unless(spec.requireRefundable ==> intent.terms.refundable, "REFUND_POLICY_VIOLATION")
  {
    FailuresUnfold(
      9, spec.requireRefundable ==> intent.terms.refundable,
      "REFUND_POLICY_VIOLATION", spec, specHash, intent, ctx);
    FailuresUnfold(
      8, intent.terms.nights == spec.nights && intent.terms.rooms == spec.rooms,
      "QUANTITY_MISMATCH", spec, specHash, intent, ctx);
    FailuresUnfold(7, ctx.txnCount < spec.maxTransactions, "TXN_LIMIT_EXCEEDED", spec, specHash, intent, ctx);
  }

  /** The last three rules. */
  lemma FreshnessLast(spec: Spec, specHash: string, intent: Intent, ctx: Context)
    ensures Failures(12, spec, specHash, intent, ctx) ==
      Failures(9, spec, specHash, intent, ctx)
      + Unless(WithinDrift(intent.totalMinor, intent.terms.currentTotalMinor, spec.maxPriceDeltaBps), "PRICE_DRIFT")
      + Unless(intent.terms.catalogVersion == ctx.catalogVersion, "STALE_PRICE")
      + Unless(intent.terms.mandateSpecHash == specHash, "INTENT_MISMATCH")
  {
    DriftIsMeasured(intent.totalMinor, intent.terms.currentTotalMinor, spec.maxPriceDeltaBps);
    FailuresUnfold(12, intent.terms.mandateSpecHash == specHash, "INTENT_MISMATCH", spec, specHash, intent, ctx);
    FailuresUnfold(11, intent.terms.catalogVersion == ctx.catalogVersion, "STALE_PRICE", spec, specHash, intent, ctx);
    FailuresUnfold(
      10, WithinDrift(intent.totalMinor, intent.terms.currentTotalMinor, spec.maxPriceDeltaBps),
      "PRICE_DRIFT", spec, specHash, intent, ctx);
  }

  /** The reason codes of a request: each rule's comparison and code, in the engine's order. */
  lemma FailuresSay(spec: Spec, specHash: string, intent: Intent, ctx: Context)
    ensures Failures(12, spec, specHash, intent, ctx) ==
      Unless(intent.terms.currency == spec.currency, "CURRENCY_MISMATCH")
      + Unless(intent.terms.category in spec.allowedCategories, "CATEGORY_NOT_ALLOWED")
      + Unless(intent.terms.merchant !in spec.blockedMerchants, "MERCHANT_BLOCKED")
      + Unless(
          spec.notBefore <= ctx.now < spec.expiresAt,
          if ctx.now < spec.notBefore then "MANDATE_NOT_YET_VALID" else "MANDATE_EXPIRED")
      + Unless(intent.terms.unitPriceMinor <= spec.maxUnitMinor, "UNIT_CAP_EXCEEDED")
      + Unless(ctx.reservedMinor + intent.totalMinor <= spec.maxTotalMinor, "BUDGET_EXCEEDED")
      + Unless(ctx.txnCount < spec.maxTransactions, "TXN_LIMIT_EXCEEDED")
      + Unless(intent.terms.nights == spec.nights && intent.terms.rooms == spec.rooms, "QUANTITY_MISMATCH")
      + Unless(spec.requireRefundable ==> intent.terms.refundable, "REFUND_POLICY_VIOLATION")
      + Unless(WithinDrift(intent.totalMinor, intent.terms.currentTotalMinor, spec.maxPriceDeltaBps), "PRICE_DRIFT")
      + Unless(intent.terms.catalogVersion == ctx.catalogVersion, "STALE_PRICE")
      + Unless(intent.terms.mandateSpecHash == specHash, "INTENT_MISMATCH")
  {
    TermsFirst(spec, specHash, intent, ctx);
    CapsNext(spec, specHash, intent, ctx);
    CountNext(spec, specHash, intent, ctx);
    FreshnessLast(spec, specHash, intent, ctx);
  }

  /** `evaluate`: the verdict, and the reason codes of all failing rules. */
  method Evaluate(spec: Spec, specHash: string, intent: Intent, ctx: Context) returns (allow: bool, reasonCodes: seq<string>)
    ensures allow <==> forall rule :: Passes(rule, spec, specHash, intent, ctx)
    ensures allow <==> Allows(spec, specHash, intent, ctx)
    ensures reasonCodes == if allow then ["OK"] else Failures(|RULES|, spec, specHash, intent, ctx)
    ensures allow <==>
      && intent.terms.currency == spec.currency
      && intent.terms.category in spec.allowedCategories
      && intent.terms.merchant !in spec.blockedMerchants
      && spec.notBefore <= ctx.now < spec.expiresAt
      && intent.terms.unitPriceMinor <= spec.maxUnitMinor
      && ctx.reservedMinor + intent.totalMinor <= spec.maxTotalMinor
      && ctx.txnCount < spec.maxTransactions
      && intent.terms.nights == spec.nights && intent.terms.rooms == spec.rooms
      && (spec.requireRefundable ==> intent.terms.refundable)
      && WithinDrift(intent.totalMinor, intent.terms.currentTotalMinor, spec.maxPriceDeltaBps)
      && intent.terms.catalogVersion == ctx.catalogVersion
      && intent.terms.mandateSpecHash == specHash
  {
    reasonCodes := [];
    for i := 0 to |RULES|
      invariant reasonCodes == Failures(i, spec, specHash, intent, ctx)
    {
      if !Passes(RULES[i], spec, specHash, intent, ctx) {
        reasonCodes := reasonCodes + [Code(RULES[i], spec, ctx)];
      }
    }
    AllowsIsAll(spec, specHash, intent, ctx);
    PassesSay(spec, specHash, intent, ctx);
    allow := reasonCodes == [];
    if allow { reasonCodes := ["OK"]; }
  }
}
