/** A purchase from its request to its end: `begin_purchase` and then
`complete_purchase` (src/actl/application/orchestrator/saga.py) over one ledger.
*/
module PurchaseFlow {
  import opened Digests
  import opened Ledger
  import opened Settlement
  import opened SagaService
  import opened Purchase
  import OrderCreation
  import PriceFreshness

  /** Every request that a merchant ever made from a proposal asks for the total that
      its key was made from, whatever was seeded meanwhile. */
  lemma {:induction false} ProposedAgrees(s: PriceFreshness.Shop, steps: seq<PriceFreshness.Step>, req: Request)
    requires s.quotes == map[] && s.requests == {}
    ensures PriceFreshness.Sane(PriceFreshness.Run(s, steps))
    ensures req in PriceFreshness.Run(s, steps).requests ==> req.amountMinor == req.intent.totalMinor > 0
    decreases |steps|
  {
    if steps != [] {
      ProposedAgrees(s, steps[..|steps| - 1], req);
      PriceFreshness.ApplyKeepsSane(PriceFreshness.Run(s, steps[..|steps| - 1]), steps[|steps| - 1]);
    }
    var s' := PriceFreshness.Run(s, steps);
    if req in s'.requests {
      assert PriceFreshness.Matches(s', req) && PriceFreshness.QuoteOk(s', s'.quotes[req.quoteId]);
    }
  }

  /** A saga row and its order as `begin_purchase` leaves them, over rows that refine
      a book, are where the machine of Settlement starts. */
  lemma BeginsInitial(
    mandates: set<string>, entries: seq<Row>, book: Book, req: Request, maxTotalMinor: int, status: Mandate.Status,
    spentKey: SpentKey)
    requires Refines(entries, book) && WellFormed(book, mandates) && RowsOf(entries, KeyOf(req)) == []
    requires req.mandateId in mandates && req.amountMinor == req.intent.totalMinor > 0
    requires Execute(mandates, entries, Operation(ReservationRow, req.mandateId, req.amountMinor, KeyOf(req), maxTotalMinor)).ok
    ensures var op := Operation(ReservationRow, req.mandateId, req.amountMinor, KeyOf(req), maxTotalMinor);
      var held := book[KeyOf(req) := Held];
      && Refines(Execute(mandates, entries, op).entries, held) && WellFormed(held, mandates)
      && Initial(World(KeyOf(req), AwaitingAuthorization, OrderCreated, Held, status, {}, {}, spentKey, NotRunning))
  {
    var key := KeyOf(req);
    var op := Operation(ReservationRow, req.mandateId, req.amountMinor, key, maxTotalMinor);
    ExecuteRefines(mandates, entries, book, op);
    assert RowsOf(entries, key) == ExpectedRows(book, key);
    NoHistoryIsEmpty(key, book);
  }

  lemma NoHistoryIsEmpty(key: Ref, book: Book)
    ensures key in book ==> ExpectedRows(book, key) != []
  {
  }

  /** `begin_purchase` on a fresh key: where it ends awaiting authorization, the tables
      are where the machine of Settlement starts; where not, no balance has moved. */
  method OpenSaga(
    service: PurchaseService, req: Request, clock: Clock, orderId: OrderCreation.CallerId, answer: ProviderAnswer,
    spentKey: SpentKey, ghost book: Book)
      returns (store: SagaStore?)
    requires service.Valid() && service.FreshKey(KeyOf(req))
    requires Refines(service.ledger.entries, book) && WellFormed(book, service.ledger.mandates)
    requires req.amountMinor == req.intent.totalMinor
    modifies service, service.ledger
    ensures store == null <==> !old(service.Proceeds(req, clock, answer))
    ensures store == null ==> SameBalances(old(service.ledger.entries), service.ledger.entries)
    ensures store != null ==>
      && fresh(store) && store.Valid() && store.ref == KeyOf(req) && store.ledger == service.ledger
      && Initial(store.View(NotRunning)) && store.mandate == Mandate.EXECUTING && store.spentKey == spentKey
  {
    ghost var entries := service.ledger.entries;
    ghost var maxTotal := if req.mandateId in service.mandates then service.mandates[req.mandateId].spec.maxTotalMinor else 0;
    var saga := service.BeginPurchase(req, clock, orderId, answer);
    if saga.state != AWAITING_AUTHORIZATION { return null; }
    var status := if req.mandateId in service.mandates then service.mandates[req.mandateId].status else Mandate.EXECUTING;
    BeginsInitial(service.ledger.mandates, entries, book, req, maxTotal, status, spentKey);
    store := new SagaStore(service.ledger, KeyOf(req), OrderCreated, status, spentKey, book[KeyOf(req) := Held]);
  }

  /** How a whole purchase can end. */
  datatype End = NotBegun | StillOpen | Over(saga: SagaStatus)

  /** One purchase of a fresh key, then one call to complete it, with whatever the
      provider, sweeps, revocations and stops do around that call: if it is over, it is
      settled and charged, or undone and not charged; if it never began, no balance
      has moved. */
  method BuyAndComplete(
    service: PurchaseService, req: Request, clock: Clock, orderId: OrderCreation.CallerId, answer: ProviderAnswer,
    spentKey: SpentKey, call: Call, script: Script, ghost book: Book)
      returns (end: End, store: SagaStore?)
    requires service.Valid() && service.FreshKey(KeyOf(req))
    requires Refines(service.ledger.entries, book) && WellFormed(book, service.ledger.mandates)
    requires req.amountMinor == req.intent.totalMinor
    modifies service, service.ledger
    ensures end.NotBegun? <==> !old(service.Proceeds(req, clock, answer))
    ensures end.NotBegun? ==> SameBalances(old(service.ledger.entries), service.ledger.entries)
    ensures !end.NotBegun? ==> store != null && store.Valid() && store.ref == KeyOf(req) && store.ledger == service.ledger
    ensures end.Over? ==> end.saga == store.saga && Good(store.View(Returned))
    // A declined payment is not taken, and an undisturbed good one is settled.
    ensures !end.NotBegun? && script.fetch == Declined ==> store.captured == {} && end != Over(Completed)
    ensures !end.NotBegun? && Calm(script) && script.fetch == NotDeclined && call.signatureOk && !script.captureRaises ==>
      end == Over(Completed) && store.captured == {call.payment}
  {
    store := OpenSaga(service, req, clock, orderId, answer, spentKey, book);
    if store == null { return NotBegun, null; }
    var r, _ := store.CompletePurchase(call, script);
    end := if r.Ok? then Over(r.value) else StillOpen;
  }
}
