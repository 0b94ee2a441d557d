/** Beginning a purchase: the money action gate and the first half of the saga
(src/actl/application/gate.py, `create_provider_order` in
src/actl/application/payment_service.py, `release_reservation_and_mark_compensated`
in src/actl/application/compensations.py, and `begin_purchase` in
src/actl/application/orchestrator/saga.py), run by one caller without a crash.
*/
module Purchase {
  import opened Digests
  import opened Ledger
  import opened Mandate
  import opened Policy
  import opened OrderCreation
  import opened Settlement

  datatype Reason =
    | OK | INTERNAL_ERROR | AUDIT_UNAVAILABLE | MALFORMED_REQUEST
    | MANDATE_INVALID | MANDATE_REVOKED | MANDATE_TAMPERED | MANDATE_UNSIGNED | MANDATE_EXPIRED
    | INTENT_MISMATCH | DECISION_STALE | POLICY(rule: string)
    | BUDGET_EXCEEDED | QUOTE_EXPIRED | STALE_PRICE | PROVIDER_TERMINAL | PROVIDER_TRANSIENT

  /** A mandate row; the outcome of the two cryptographic checks is part of it. */
  datatype MandateRow = MandateRow(
    status: Status, spec: Spec, specHash: Option<string>, specHashVerifies: bool, signaturePresent: bool,
    signatureVerifies: bool)

  datatype Decision = Decision(
    intent: Intent, mandateSpecHash: string, evaluatedAt: int, ttl: int, allow: bool, reasonCodes: seq<string>)

  datatype Quote = Quote(
    sku: string, mandateId: string, unitPriceMinor: int, nights: int, totalMinor: int, catalogVersion: int,
    refundable: bool, expiresAt: int)

  datatype Request = Request(
    mandateId: string, decisionId: string, quoteId: string, intent: Intent, amountMinor: int, attemptNo: int)

  /** The clock as each check reads it. */
  datatype Clock = Clock(g1: int, g2: int, g5: int, propose: int)

  datatype ProviderAnswer = OrderMade(id: string) | TerminalFailure | TransientFailure

  datatype SagaState = RUNNING | AWAITING_AUTHORIZATION | SAGA_FAILED | SAGA_RESOLVED

  datatype Saga = Saga(state: SagaState, orderId: Option<CallerId>)

  datatype ActionResult = ActionResult(allow: bool, reason: Reason, orderId: Option<CallerId>, duplicate: bool)

  datatype OrderResult =
    | Made(order: Order, duplicate: bool) | FailedBefore | InFlight | ProviderError(terminal: bool) | NotRecorded

  function KeyOf(req: Request): Ref {
    Ref(req.mandateId, req.intent, req.attemptNo)
  }

  predicate WellFormedRequest(req: Request) {
    req.amountMinor > 0 && req.mandateId != "" && req.decisionId != "" && req.quoteId != ""
  }

  /******* The checks *******/

  /** G1: the mandate is there, in force, untampered, signed and in date. */
  function G1(row: Option<MandateRow>, now: int): (r: Option<Reason>)
    ensures r.None? <==>
      && row.Some? && (row.value.status == LOCKED || row.value.status == EXECUTING)
      && row.value.specHashVerifies && row.value.specHash.Some? && row.value.signaturePresent && row.value.signatureVerifies
      && now < row.value.spec.expiresAt
    ensures r == Some(MANDATE_REVOKED) <==> row.Some? && row.value.status == REVOKED
    ensures row.None? ==> r == Some(MANDATE_INVALID)
    ensures row.Some? && row.value.status !in {REVOKED, LOCKED, EXECUTING} ==> r == Some(MANDATE_INVALID)
    ensures row.Some? && row.value.status in {LOCKED, EXECUTING} ==>
      && (r == Some(MANDATE_TAMPERED) <==> !row.value.specHashVerifies)
      && (r == Some(MANDATE_UNSIGNED) <==>
            && row.value.specHashVerifies
            && (row.value.specHash.None? || !row.value.signaturePresent || !row.value.signatureVerifies))
      && r in {None, Some(MANDATE_TAMPERED), Some(MANDATE_UNSIGNED), Some(MANDATE_EXPIRED)}
  {
    if row.None? then Some(MANDATE_INVALID)
    else
      var m := row.value;
      if m.status == REVOKED then Some(MANDATE_REVOKED)
      else if m.status != LOCKED && m.status != EXECUTING then Some(MANDATE_INVALID)
      else if !m.specHashVerifies then Some(MANDATE_TAMPERED)
      else if m.specHash.None? || !m.signaturePresent then Some(MANDATE_UNSIGNED)
      else if !m.signatureVerifies then Some(MANDATE_UNSIGNED)
      else if now >= m.spec.expiresAt then Some(MANDATE_EXPIRED)
      else None
  }

  /** G2: the decision is about this intent and this mandate, and fresh. */
  function G2(decision: Option<Decision>, intent: Intent, specHash: Option<string>, now: int): (r: Option<Reason>)
    ensures r == Some(INTENT_MISMATCH) <==>
      decision.None? || decision.value.intent != intent || Some(decision.value.mandateSpecHash) != specHash
    ensures r != Some(INTENT_MISMATCH) ==>
      r == if now <= decision.value.evaluatedAt + decision.value.ttl then None else Some(DECISION_STALE)
  {
    if decision.None? || decision.value.intent != intent then Some(INTENT_MISMATCH)
    else if Some(decision.value.mandateSpecHash) != specHash then Some(INTENT_MISMATCH)
    else if now - decision.value.evaluatedAt > decision.value.ttl then Some(DECISION_STALE)
    else None
  }

  /** G3: the verdict.  A denying decision without a reason code makes the gate raise. */
  function G3(decision: Decision): Option<Reason> {
    if decision.allow then None
    else if decision.reasonCodes == [] then Some(INTERNAL_ERROR)
    else Some(POLICY(decision.reasonCodes[0]))
  }

  /** G5: the quote is live and of the current catalogue version. */
  function G5(quote: Option<Quote>, catalogVersion: int, now: int): (r: Option<Reason>)
    ensures r == Some(QUOTE_EXPIRED) <==> quote.None? || now >= quote.value.expiresAt
    ensures r == Some(STALE_PRICE) <==> quote.Some? && now < quote.value.expiresAt && quote.value.catalogVersion != catalogVersion
    ensures r.Some? ==> r.value in {QUOTE_EXPIRED, STALE_PRICE}
  {
    if quote.None? || quote.value.expiresAt <= now then Some(QUOTE_EXPIRED)
    else if quote.value.catalogVersion != catalogVersion then Some(STALE_PRICE)
    else None
  }

  /** The second unique index of `orders`: one order per mandate and attempt. */
  predicate AttemptTaken(orders: map<Ref, Order>, key: Ref) {
    exists k :: k in orders && k.mandateId == key.mandateId && k.attemptNo == key.attemptNo
  }

  /** What the gate tells its caller about it. */
  function ActionOutcome(made: OrderResult): ActionResult {
    match made
    case Made(order, duplicate) => ActionResult(true, OK, Some(order.orderId), duplicate)
    case FailedBefore => ActionResult(false, PROVIDER_TERMINAL, None, true)
    case InFlight => ActionResult(false, PROVIDER_TRANSIENT, None, true)
    case ProviderError(terminal) => ActionResult(false, if terminal then PROVIDER_TERMINAL else PROVIDER_TRANSIENT, None, false)
    case NotRecorded => ActionResult(false, PROVIDER_TRANSIENT, None, false)
  }

  /** The tables that a purchase writes, the ledger's and the sagas' apart. */
  datatype Tables = Tables(
    orders: map<Ref, Order>, keys: map<Ref, KeyState>, providerOrders: map<Ref, string>, log: seq<LogEntry>,
    mandates: map<string, MandateRow>)
  {
    /** After G1 to G5: the mandate executing, the reservation on the audit log. */
    ghost function Reserved(mandateId: string, key: Ref): Tables
      requires mandateId in mandates
    {
      this.(
        mandates := mandates[mandateId := mandates[mandateId].(status := EXECUTING)],
        log := log + [BudgetReserved(key)])
    }

    /** After an order that the provider made. */
    ghost function Ordered(key: Ref, orderId: CallerId, id: string): Tables {
      this.(
        orders := orders[key := Order(orderId, Some(id), false)], keys := keys[key := COMPLETED],
        providerOrders := providerOrders[key := id], log := log + [PaymentIntent(key, orderId)])
    }

    /** After an order that the provider refused. */
    ghost function Refused(key: Ref, orderId: CallerId): Tables {
      this.(
        orders := orders[key := Order(orderId, None, true)], keys := keys[key := FAILED],
        log := log + [PaymentIntent(key, orderId)] + [OtherEntry("payment.result")])
    }

    /** After C1. */
    ghost function Released(mandateId: string): Tables {
      this.(
        mandates :=
          if mandateId in mandates && mandates[mandateId].status == EXECUTING
          then mandates[mandateId := mandates[mandateId].(status := COMPENSATED)] else mandates,
        log := log + [OtherEntry("compensation.applied")])
    }
  }

  function Find<K, V>(table: map<K, V>, key: K): Option<V> {
    if key in table then Some(table[key]) else None
  }

  class PurchaseService {
    const ledger: LedgerService
    var halted: bool
    var mandates: map<string, MandateRow>
    var decisions: map<string, Decision>
    var quotes: map<string, Quote>
    var catalogVersion: int
    var sagas: map<Ref, Saga>
    var keys: map<Ref, KeyState>
    var orders: map<Ref, Order>
    var log: seq<LogEntry>
    var providerOrders: map<Ref, string>

    /** The ledger locks the rows of the same mandates table. */
    ghost predicate Valid()
      reads this, ledger
    {
      ledger.mandates == mandates.Keys
    }

    /** A fresh service over a fresh ledger for these mandates. */
    constructor (
      mandates: map<string, MandateRow>, decisions: map<string, Decision>, quotes: map<string, Quote>, catalogVersion: int)
      ensures Valid() && fresh(ledger) && ledger.entries == []
      ensures this.mandates == mandates && sagas == map[] && keys == map[] && orders == map[]
    {
      this.ledger := new LedgerService(mandates.Keys);
      this.mandates, this.decisions, this.quotes, this.catalogVersion := mandates, decisions, quotes, catalogVersion;
      halted, sagas, keys, orders, log, providerOrders := false, map[], map[], map[], [], map[];
    }

    /** G1, G2, G3 and G5 let the request pass. */
    ghost predicate Admits(req: Request, clock: Clock)
      reads this
    {
      && req.mandateId in mandates && req.decisionId in decisions && req.quoteId in quotes
      && var m, d, q := mandates[req.mandateId], decisions[req.decisionId], quotes[req.quoteId];
      && (m.status == LOCKED || m.status == EXECUTING)
      && m.specHashVerifies && m.specHash.Some? && m.signaturePresent && m.signatureVerifies && clock.g1 < m.spec.expiresAt
      && d.intent == req.intent && Some(d.mandateSpecHash) == m.specHash && clock.g2 - d.evaluatedAt <= d.ttl && d.allow
      && clock.g5 < q.expiresAt && q.catalogVersion == catalogVersion
      && (m.status == LOCKED ==> clock.propose < m.spec.expiresAt && 0 < m.spec.maxTransactions)
    }

    /** The reason of the first check that fails, in the order of the gates. */
    ghost function FirstDenial(req: Request, clock: Clock): Option<Reason>
      reads this, ledger
    {
      var row, decision := Find(mandates, req.mandateId), Find(decisions, req.decisionId);
      var stale := G5(Find(quotes, req.quoteId), catalogVersion, clock.g5);
      if G1(row, clock.g1).Some? then G1(row, clock.g1)
      else if G2(decision, req.intent, row.value.specHash, clock.g2).Some?
      then G2(decision, req.intent, row.value.specHash, clock.g2)
      else if G3(decision.value).Some? then G3(decision.value)
      else if !Affords(req) then Some(BUDGET_EXCEEDED)
      else if stale.Some? then stale
      else if Admits(req, clock) then None
      else Some(INTERNAL_ERROR)
    }

    ghost function ReserveOperation(req: Request): Operation
      requires req.mandateId in mandates
      reads this
    {
      Operation(ReservationRow, req.mandateId, req.amountMinor, KeyOf(req), mandates[req.mandateId].spec.maxTotalMinor)
    }

    /** The ledger with the reservation made, if it can be. */
    ghost function Reserving(req: Request): Outcome
      requires req.mandateId in mandates
      reads this, ledger
    {
      Execute(ledger.mandates, ledger.entries, ReserveOperation(req))
    }

    /** The ledger takes the reservation: the key has rows already, or the amount fits
        under the mandate's cap together with what is held and settled. */
    ghost predicate Affords(req: Request)
      reads this, ledger
    {
      && req.mandateId in mandates
      && (RowsOf(ledger.entries, KeyOf(req)) != []
          || Balance(ledger.entries, Account(req.mandateId, Bucket.Reserved))
             + Balance(ledger.entries, Account(req.mandateId, Bucket.Settled)) + req.amountMinor
             <= mandates[req.mandateId].spec.maxTotalMinor)
    }

    lemma AffordsIsReserving(req: Request)
      requires Valid()
      ensures Affords(req) <==> req.mandateId in mandates && Reserving(req).ok
    {
      if req.mandateId in mandates {
        var rows := RowsOf(ledger.entries, KeyOf(req));
        assert rows != [] ==> rows[0].refType in RefTypes(rows);
        ExecutePlan(
          ledger.mandates, ledger.entries, ReserveOperation(req), RefTypes(rows), Committed(ledger.entries, req.mandateId));
      }
    }

    ghost function Record(): Tables
      reads this
    {
      Tables(orders, keys, providerOrders, log, mandates)
    }

    /** Nothing is on record for the key. */
    ghost predicate FreshKey(key: Ref)
      reads this, ledger
    {
      key !in sagas && key !in keys && RowsOf(ledger.entries, key) == []
    }

    /** `_run_g1_through_g5`, with what it may leave behind uncommitted. */
    method RunG1ThroughG5(req: Request, clock: Clock) returns (deny: Option<Reason>)
      requires Valid()
      modifies this`mandates, this`log, ledger`entries
      ensures deny.None? ==> Valid()
      ensures deny == old(FirstDenial(req, clock))
      ensures deny.None? <==> old(Admits(req, clock)) && old(Affords(req))
      ensures deny.None? ==>
        && ledger.entries == old(Reserving(req)).entries
        && Record() == old(Record()).Reserved(req.mandateId, KeyOf(req))
    {
      var row := Find(mandates, req.mandateId);
      deny := G1(row, clock.g1);
      if deny.Some? { return; }
      var mandate := row.value;
      var decision := Find(decisions, req.decisionId);
      deny := G2(decision, req.intent, mandate.specHash, clock.g2);
      if deny.Some? { return; }
      deny := G3(decision.value);
      if deny.Some? { return; }
      AffordsIsReserving(req);
      var reserved := ledger.Reserve(req.mandateId, req.amountMinor, mandate.spec.maxTotalMinor, KeyOf(req));
      if !reserved { return Some(BUDGET_EXCEEDED); }
      deny := G5(Find(quotes, req.quoteId), catalogVersion, clock.g5);
      if deny.Some? { return; }
      if mandate.status == LOCKED {
        var ctx := DEFAULT_CONTEXT.(
          now := Some(clock.propose), expiresAt := Some(mandate.spec.expiresAt),
          maxTransactions := mandate.spec.maxTransactions);
        FireIsTarget(LOCKED, Propose, ctx);
        var status := Fire(mandate.status, Propose, ctx);
        if status.Err? { return Some(INTERNAL_ERROR); }
        mandates := mandates[req.mandateId := mandate.(status := status.value)];
      }
      log := log + [BudgetReserved(KeyOf(req))];
    }

    /** The same in its transaction: a denial rolls everything back. */
    method AttemptG1ThroughG5(req: Request, clock: Clock) returns (deny: Option<Reason>)
      requires Valid()
      modifies this`mandates, this`log, ledger`entries
      ensures Valid()
      ensures deny == old(FirstDenial(req, clock))
      ensures deny.None? <==> old(Admits(req, clock)) && old(Affords(req))
      ensures deny.None? ==>
        && ledger.entries == old(Reserving(req)).entries
        && Record() == old(Record()).Reserved(req.mandateId, KeyOf(req))
      ensures deny.Some? ==>
        Record() == old(Record()) && ledger.entries == old(ledger.entries)
    {
      var entries, mandatesBefore, logBefore := ledger.entries, mandates, log;
      deny := RunG1ThroughG5(req, clock);
      if deny.Some? {
        ledger.entries, mandates, log := entries, mandatesBefore, logBefore;
      }
    }

    /** `create_provider_order` with nobody else at work.  An order of another intent
        under the same mandate and attempt number makes the insert fail for good. */
    method CreateProviderOrder(key: Ref, orderId: CallerId, answer: ProviderAnswer) returns (r: OrderResult)
      modifies this`keys, this`orders, this`log, this`providerOrders
      ensures key in old(keys) ==>
        && Record() == old(Record())
        && (old(keys)[key] == FAILED ==> r == FailedBefore)
        && (old(keys)[key] == COMPLETED && key in old(orders) ==> r == Made(old(orders)[key], true))
        && (old(keys)[key] == IN_FLIGHT ==> r == InFlight)
        && (r.Made? ==> key in old(orders) && r == Made(old(orders)[key], true))
        && (r.Made? || r.FailedBefore? || r.InFlight?)
      ensures key !in old(keys) && AttemptTaken(old(orders), key) ==> r == NotRecorded && Record() == old(Record())
      ensures key !in old(keys) && !AttemptTaken(old(orders), key) && answer.OrderMade? ==>
        && r == Made(Order(orderId, Some(answer.id), false), false)
        && Record() == old(Record()).Ordered(key, orderId, answer.id)
        && key in orders && orders[key].orderId == orderId && orders[key].providerOrderId == Some(answer.id)
        && !orders[key].failed && keys[key] == COMPLETED && providerOrders[key] == answer.id
        && log == old(log) + [PaymentIntent(key, orderId)]
      ensures key !in old(keys) && !AttemptTaken(old(orders), key) && !answer.OrderMade? ==>
        && r == ProviderError(answer.TerminalFailure?)
        && Record() == old(Record()).Refused(key, orderId)
        && key in orders && orders[key].orderId == orderId && orders[key].providerOrderId.None? && orders[key].failed
        && keys[key] == FAILED && providerOrders == old(providerOrders)
        && log == old(log) + [PaymentIntent(key, orderId), OtherEntry("payment.result")]
    {
      if key in keys {
        if keys[key] == COMPLETED && key in orders { return Made(orders[key], true); }
        if keys[key] == FAILED { return FailedBefore; }
        return InFlight;
      }
      if AttemptTaken(orders, key) { return NotRecorded; }
      r := MakeAttempt(key, orderId, answer);
    }

    /** The winner's part: the local order, the provider's call, the outcome. */
    method MakeAttempt(key: Ref, orderId: CallerId, answer: ProviderAnswer) returns (r: OrderResult)
      modifies this`keys, this`orders, this`log, this`providerOrders
      ensures answer.OrderMade? ==>
        && r == Made(Order(orderId, Some(answer.id), false), false)
        && Record() == old(Record()).Ordered(key, orderId, answer.id)
      ensures !answer.OrderMade? ==>
        && r == ProviderError(answer.TerminalFailure?)
        && Record() == old(Record()).Refused(key, orderId)
    {
      var order := Order(orderId, None, false);
      UpdateTwice(keys, key, IN_FLIGHT, if answer.OrderMade? then COMPLETED else FAILED);
      keys := keys[key := IN_FLIGHT];
      ghost var ordersBefore := orders;
      orders := orders[key := order];
      log := log + [PaymentIntent(key, orderId)];
      match answer
      case OrderMade(id) =>
        UpdateTwice(ordersBefore, key, order, order.(providerOrderId := Some(id)));
        providerOrders := providerOrders[key := id];
        orders := orders[key := order.(providerOrderId := Some(id))];
        keys := keys[key := COMPLETED];
        return Made(orders[key], false);
      case _ =>
        UpdateTwice(ordersBefore, key, order, order.(failed := true));
        orders := orders[key := order.(failed := true)];
        keys := keys[key := FAILED];
        log := log + [OtherEntry("payment.result")];
        return ProviderError(answer.TerminalFailure?);
    }

    /** C1: the reservation is given back if it is held, and the mandate closed. */
    method ReleaseReservationAndMarkCompensated(mandateId: string, amountMinor: int, key: Ref)
      requires Valid()
      modifies this`mandates, this`log, ledger`entries
      ensures Valid()
      ensures ledger.entries ==
        Execute(ledger.mandates, old(ledger.entries), ReleaseOperation(mandateId, amountMinor, key)).entries
      ensures Record() == old(Record()).Released(mandateId)
    {
      var released := ledger.Release(mandateId, amountMinor, key);
      log := log + [OtherEntry("compensation.applied")];
      if mandateId in mandates && mandates[mandateId].status == EXECUTING {
        mandates := mandates[mandateId := mandates[mandateId].(status := MarkCompensated(EXECUTING))];
      }
    }

    /** `_run_g6_g7_execute`, once the reservation is committed. */
    method RunG6G7Execute(req: Request, orderId: CallerId, answer: ProviderAnswer) returns (r: ActionResult)
      requires Valid()
      modifies this`mandates, this`log, this`keys, this`orders, this`providerOrders, ledger`entries
      ensures Valid()
      // A replay touches nothing.
      ensures KeyOf(req) in old(keys) ==>
        && Record() == old(Record()) && ledger.entries == old(ledger.entries)
        && (old(keys)[KeyOf(req)] == FAILED ==> r == ActionResult(false, PROVIDER_TERMINAL, None, true))
        && (old(keys)[KeyOf(req)] == IN_FLIGHT ==> r == ActionResult(false, PROVIDER_TRANSIENT, None, true))
        && (old(keys)[KeyOf(req)] == COMPLETED && KeyOf(req) in old(orders) ==>
              r == ActionResult(true, OK, Some(old(orders)[KeyOf(req)].orderId), true))
      // A first attempt is made, or given back.
      ensures KeyOf(req) !in old(keys) && !AttemptTaken(old(orders), KeyOf(req)) && answer.OrderMade? ==>
        && r == ActionResult(true, OK, Some(orderId), false) && ledger.entries == old(ledger.entries)
        && Record() == old(Record()).Ordered(KeyOf(req), orderId, answer.id)
      ensures KeyOf(req) !in old(keys) && !AttemptTaken(old(orders), KeyOf(req)) && !answer.OrderMade? ==>
        && r == ActionResult(false, if answer.TerminalFailure? then PROVIDER_TERMINAL else PROVIDER_TRANSIENT, None, false)
        && Record() == old(Record()).Refused(KeyOf(req), orderId).Released(req.mandateId)
      ensures KeyOf(req) !in old(keys) && AttemptTaken(old(orders), KeyOf(req)) ==>
        && r == ActionResult(false, PROVIDER_TRANSIENT, None, false)
        && Record() == old(Record()).Released(req.mandateId)
      ensures KeyOf(req) !in old(keys) && !r.allow ==>
        ledger.entries ==
          Execute(ledger.mandates, old(ledger.entries), ReleaseOperation(req.mandateId, req.amountMinor, KeyOf(req))).entries
    {
      var made := CreateProviderOrder(KeyOf(req), orderId, answer);
      if made.ProviderError? || made.NotRecorded? {
        ReleaseReservationAndMarkCompensated(req.mandateId, req.amountMinor, KeyOf(req));
      }
      return ActionOutcome(made);
    }

    /** Nothing halts or denies the request before the order is made. */
    ghost predicate Clears(req: Request, clock: Clock)
      reads this, ledger
    {
      && !halted && req.amountMinor > 0 && req.mandateId != "" && req.decisionId != "" && req.quoteId != ""
      && Admits(req, clock) && Affords(req)
    }

    /** Everything that a fresh key's purchase needs. */
    ghost predicate Proceeds(req: Request, clock: Clock, answer: ProviderAnswer)
      reads this, ledger
    {
      Clears(req, clock) && !AttemptTaken(orders, KeyOf(req)) && answer.OrderMade?
    }

    /** `execute_money_action` */
    method ExecuteMoneyAction(req: Request, clock: Clock, orderId: CallerId, answer: ProviderAnswer) returns (r: ActionResult)
      requires Valid()
      modifies this`mandates, this`log, this`keys, this`orders, this`providerOrders, ledger`entries
      ensures Valid()
      ensures !old(Clears(req, clock)) ==>
        !r.allow && Record() == old(Record()) && ledger.entries == old(ledger.entries)
      ensures halted ==> r == Denied(AUDIT_UNAVAILABLE)
      ensures !halted && !WellFormedRequest(req) ==> r == Denied(MALFORMED_REQUEST)
      ensures !halted && WellFormedRequest(req) && old(FirstDenial(req, clock)).Some? ==>
        r == Denied(old(FirstDenial(req, clock)).value)
      ensures r.allow ==> old(Affords(req)) && ledger.entries == old(Reserving(req)).entries
      ensures KeyOf(req) !in old(keys) ==> (r.allow <==> old(Proceeds(req, clock, answer)))
      ensures KeyOf(req) !in old(keys) && r.allow ==>
        && r == ActionResult(true, OK, Some(orderId), false)
        && Record() == old(Record()).Reserved(req.mandateId, KeyOf(req)).Ordered(KeyOf(req), orderId, answer.id)
      ensures KeyOf(req) !in old(keys) && !r.allow && old(Clears(req, clock)) ==>
        && r.reason == (if answer.TerminalFailure? && !AttemptTaken(old(orders), KeyOf(req))
                        then PROVIDER_TERMINAL else PROVIDER_TRANSIENT)
        && Record() ==
             GivenUp(old(Record()).Reserved(req.mandateId, KeyOf(req)), KeyOf(req), orderId).Released(req.mandateId)
        && ledger.entries == ReservedAndReleased(ledger.mandates, old(ledger.entries), old(ReserveOperation(req)))
    {
      if halted { return Denied(AUDIT_UNAVAILABLE); }
      if !WellFormedRequest(req) { return Denied(MALFORMED_REQUEST); }
      var deny := AttemptG1ThroughG5(req, clock);
      if deny.Some? { return Denied(deny.value); }
      r := RunG6G7Execute(req, orderId, answer);
    }

    /** `begin_purchase`: on a fresh key it ends awaiting authorization with exactly the
        amount newly held, or failed with both balances of the mandate as before.
        A saga that is not running is returned as it is. */
    method BeginPurchase(req: Request, clock: Clock, orderId: CallerId, answer: ProviderAnswer) returns (r: Saga)
      requires Valid()
      modifies this`sagas, this`mandates, this`log, this`keys, this`orders, this`providerOrders, ledger`entries
      ensures Valid() && KeyOf(req) in sagas && sagas == old(sagas)[KeyOf(req) := r]
      ensures old(KeyOf(req) in sagas && sagas[KeyOf(req)].state != RUNNING) ==>
        r == old(sagas)[KeyOf(req)] && ledger.entries == old(ledger.entries) && Record() == old(Record())
      ensures old(FreshKey(KeyOf(req))) ==> (r.state == AWAITING_AUTHORIZATION <==> old(Proceeds(req, clock, answer)))
      ensures old(FreshKey(KeyOf(req))) && r.state == AWAITING_AUTHORIZATION ==>
        && r.orderId == Some(orderId)
        && KeyOf(req) in orders && orders[KeyOf(req)].orderId == orderId
        && orders[KeyOf(req)].providerOrderId == Some(answer.id) && !orders[KeyOf(req)].failed
        && orders == old(orders)[KeyOf(req) := orders[KeyOf(req)]]
        && keys == old(keys)[KeyOf(req) := COMPLETED]
        && providerOrders == old(providerOrders)[KeyOf(req) := answer.id]
        && log == old(log) + [BudgetReserved(KeyOf(req)), PaymentIntent(KeyOf(req), orderId)]
        && req.mandateId in mandates && mandates[req.mandateId].status == EXECUTING
        && ledger.entries == old(Reserving(req)).entries
        && NewlyHeld(old(ledger.entries), ledger.entries, req.mandateId, req.amountMinor)
      ensures old(FreshKey(KeyOf(req))) && r.state != AWAITING_AUTHORIZATION ==>
        r.state == SAGA_FAILED && SameBalances(old(ledger.entries), ledger.entries)
      // Turned away, it writes nothing but its own row.
      ensures old(FreshKey(KeyOf(req))) && !old(Clears(req, clock)) ==>
        Record() == old(Record()) && ledger.entries == old(ledger.entries)
      // The gates let it pass and the provider failed: a failed order and its entries.
      ensures old(FreshKey(KeyOf(req)) && Clears(req, clock)) && !AttemptTaken(old(orders), KeyOf(req)) && !answer.OrderMade? ==>
        && KeyOf(req) in orders && orders[KeyOf(req)].orderId == orderId
        && orders[KeyOf(req)].providerOrderId.None? && orders[KeyOf(req)].failed
        && KeyOf(req) in keys && keys[KeyOf(req)] == FAILED && providerOrders == old(providerOrders)
        && log == old(log) + [
             BudgetReserved(KeyOf(req)), PaymentIntent(KeyOf(req), orderId), OtherEntry("payment.result"),
             OtherEntry("compensation.applied")]
        && req.mandateId in mandates && mandates[req.mandateId].status == COMPENSATED
    {
      var key := KeyOf(req);
      if key in sagas && sagas[key].state != RUNNING { return sagas[key]; }
      r := RunSaga(req, clock, orderId, answer);
    }

    /** The gate's action, as a saga with nothing yet on record sees it. */
    method ActOnce(req: Request, clock: Clock, orderId: CallerId, answer: ProviderAnswer) returns (r: ActionResult)
      requires Valid()
      modifies this`mandates, this`log, this`keys, this`orders, this`providerOrders, ledger`entries
      ensures Valid()
      ensures KeyOf(req) !in old(keys) ==> (r.allow <==> old(Proceeds(req, clock, answer)))
      ensures KeyOf(req) !in old(keys) && r.allow ==>
        && r.orderId == Some(orderId) && ledger.entries == old(Reserving(req)).entries
        && Record() == old(Record()).Reserved(req.mandateId, KeyOf(req)).Ordered(KeyOf(req), orderId, answer.id)
      ensures !old(Clears(req, clock)) ==> Record() == old(Record()) && ledger.entries == old(ledger.entries)
      ensures
        KeyOf(req) !in old(keys) && old(Clears(req, clock))
        && !AttemptTaken(old(orders), KeyOf(req)) && !answer.OrderMade? ==>
        Record() == old(Record()).Reserved(req.mandateId, KeyOf(req)).Refused(KeyOf(req), orderId).Released(req.mandateId)
      ensures KeyOf(req) !in old(keys) && RowsOf(old(ledger.entries), KeyOf(req)) == [] ==>
        if r.allow then NewlyHeld(old(ledger.entries), ledger.entries, req.mandateId, req.amountMinor)
        else SameBalances(old(ledger.entries), ledger.entries)
    {
      ghost var entries := ledger.entries;
      AffordsIsReserving(req);
      if RowsOf(entries, KeyOf(req)) == [] && Affords(req) {
        FreshReservation(ledger.mandates, entries, ReserveOperation(req));
      }
      r := ExecuteMoneyAction(req, clock, orderId, answer);
    }

    /** The same for a saga that is new or was left running. */
    method RunSaga(req: Request, clock: Clock, orderId: CallerId, answer: ProviderAnswer) returns (r: Saga)
      requires Valid()
      modifies this`sagas, this`mandates, this`log, this`keys, this`orders, this`providerOrders, ledger`entries
      ensures Valid() && sagas == old(sagas)[KeyOf(req) := r]
      ensures r.state == AWAITING_AUTHORIZATION || r.state == SAGA_FAILED
      ensures KeyOf(req) !in old(keys) ==> (r.state == AWAITING_AUTHORIZATION <==> old(Proceeds(req, clock, answer)))
      ensures KeyOf(req) !in old(keys) && r.state == AWAITING_AUTHORIZATION ==>
        && r.orderId == Some(orderId) && ledger.entries == old(Reserving(req)).entries
        && Record() == old(Record()).Reserved(req.mandateId, KeyOf(req)).Ordered(KeyOf(req), orderId, answer.id)
      ensures !old(Clears(req, clock)) ==> Record() == old(Record()) && ledger.entries == old(ledger.entries)
      ensures
        KeyOf(req) !in old(keys) && old(Clears(req, clock))
        && !AttemptTaken(old(orders), KeyOf(req)) && !answer.OrderMade? ==>
        Record() == old(Record()).Reserved(req.mandateId, KeyOf(req)).Refused(KeyOf(req), orderId).Released(req.mandateId)
      ensures KeyOf(req) !in old(keys) && RowsOf(old(ledger.entries), KeyOf(req)) == [] ==>
        if r.state == AWAITING_AUTHORIZATION
        then NewlyHeld(old(ledger.entries), ledger.entries, req.mandateId, req.amountMinor)
        else SameBalances(old(ledger.entries), ledger.entries)
    {
      var key := KeyOf(req);
      var running := if key in sagas then sagas[key] else Saga(RUNNING, None);
      sagas := sagas[key := running];
      var result := ActOnce(req, clock, orderId, answer);
      r := if result.allow then Saga(AWAITING_AUTHORIZATION, result.orderId) else Saga(SAGA_FAILED, running.orderId);
      UpdateTwice(old(sagas), key, running, r);
      sagas := sagas[key := r];
    }
  }

  /** The tables of an attempt that came to nothing, before its compensation. */
  ghost function GivenUp(t: Tables, key: Ref, orderId: CallerId): Tables {
    if AttemptTaken(t.orders, key) then t else t.Refused(key, orderId)
  }

  function Denied(reason: Reason): ActionResult {
    ActionResult(false, reason, None, false)
  }

  function ReleaseOperation(mandateId: string, amountMinor: int, key: Ref): Operation {
    Operation(ReleaseRow, mandateId, amountMinor, key, 0)
  }

  /** The rows after a reservation and its release. */
  ghost function ReservedAndReleased(mandates: set<string>, entries: seq<Row>, op: Operation): seq<Row> {
    var reserved := Execute(mandates, entries, op).entries;
    Execute(mandates, reserved, ReleaseOperation(op.mandateId, op.amountMinor, op.refId)).entries
  }

  ghost function Share(mandateId: string, amountMinor: int, m: string): int {
    if m == mandateId then amountMinor else 0
  }

  /** The amount, and nothing else, was added to what the mandate holds. */
  ghost predicate NewlyHeld(before: seq<Row>, after: seq<Row>, mandateId: string, amountMinor: int) {
    forall m ::
      && Balance(after, Account(m, Reserved)) == Balance(before, Account(m, Reserved)) + Share(mandateId, amountMinor, m)
      && Balance(after, Account(m, Settled)) == Balance(before, Account(m, Settled))
  }

  ghost predicate SameBalances(before: seq<Row>, after: seq<Row>) {
    forall m ::
      && Balance(after, Account(m, Reserved)) == Balance(before, Account(m, Reserved))
      && Balance(after, Account(m, Settled)) == Balance(before, Account(m, Settled))
  }

  /** A reservation's pair of rows adds its amount to the reserved balance of its
      mandate, a release's pair takes it away; no other such balance moves. */
  lemma PairMoves(entries: seq<Row>, op: Operation, m: string)
    requires op.kind == ReservationRow || op.kind == ReleaseRow
    ensures var after, share := entries + PostedRows(op), Share(op.mandateId, op.amountMinor, m);
      && Balance(after, Account(m, Reserved)) ==
           Balance(entries, Account(m, Reserved)) + (if op.kind == ReservationRow then share else -share)
      && Balance(after, Account(m, Settled)) == Balance(entries, Account(m, Settled))
  {
    BalanceAppend(entries, PostedRows(op), Account(m, Reserved));
    BalanceAppend(entries, PostedRows(op), Account(m, Settled));
    PairQueries(op.kind, op.mandateId, op.amountMinor, op.refId, op.refId, Account(m, Reserved));
    PairQueries(op.kind, op.mandateId, op.amountMinor, op.refId, op.refId, Account(m, Settled));
  }

  /** Releasing right after a first reservation posts the release. */
  lemma ReleasePosts(mandates: set<string>, entries: seq<Row>, op: Operation)
    requires op.kind == ReservationRow && op.mandateId in mandates && RowsOf(entries, op.refId) == []
    ensures var release := ReleaseOperation(op.mandateId, op.amountMinor, op.refId);
      Execute(mandates, entries + PostedRows(op), release).entries == entries + PostedRows(op) + PostedRows(release)
  {
    var release, reserved := ReleaseOperation(op.mandateId, op.amountMinor, op.refId), entries + PostedRows(op);
    FirstKinds(entries, op);
    ExecutePlan(mandates, reserved, release, {ReservationRow}, Committed(reserved, op.mandateId));
  }

  /** The only kind of row under a key just reserved. */
  lemma FirstKinds(entries: seq<Row>, op: Operation)
    requires op.kind == ReservationRow && RowsOf(entries, op.refId) == []
    ensures RefTypes(RowsOf(entries + PostedRows(op), op.refId)) == {ReservationRow}
  {
    var rows := PostedRows(op);
    RowsOfAppend(entries, rows, op.refId);
    PairQueries(op.kind, op.mandateId, op.amountMinor, op.refId, op.refId, Account(op.mandateId, Reserved));
    assert [] + rows == rows;
    assert rows[0] in rows;
  }

  /** A reservation under a key with no rows holds exactly its amount, and releasing
      it gives exactly that back. */
  lemma FreshReservation(mandates: set<string>, entries: seq<Row>, op: Operation)
    requires op.kind == ReservationRow && RowsOf(entries, op.refId) == [] && Execute(mandates, entries, op).ok
    ensures NewlyHeld(entries, Execute(mandates, entries, op).entries, op.mandateId, op.amountMinor)
    ensures SameBalances(entries, ReservedAndReleased(mandates, entries, op))
  {
    var release := ReleaseOperation(op.mandateId, op.amountMinor, op.refId);
    var reserved := entries + PostedRows(op);
    assert RefTypes(RowsOf(entries, op.refId)) == {};
    assert Execute(mandates, entries, op).entries == reserved;
    ReleasePosts(mandates, entries, op);
    forall m
      ensures Balance(reserved, Account(m, Reserved)) ==
        Balance(entries, Account(m, Reserved)) + Share(op.mandateId, op.amountMinor, m)
      ensures Balance(reserved, Account(m, Settled)) == Balance(entries, Account(m, Settled))
    {
      PairMoves(entries, op, m);
    }
    var released := reserved + PostedRows(release);
    forall m
      ensures Balance(released, Account(m, Reserved)) == Balance(entries, Account(m, Reserved))
      ensures Balance(released, Account(m, Settled)) == Balance(entries, Account(m, Settled))
    {
      PairMoves(reserved, release, m);
    }
  }
}
