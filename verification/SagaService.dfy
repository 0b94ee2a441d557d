/** `complete_purchase` as the program runs it, over the ledger's rows.

The class holds the tables that one saga touches and the provider's records.
What other transactions and the provider do between the steps of a call comes in
as a script.  Every call is shown to be a run of the machine of Settlement.
*/
module SagaService {
  import opened Digests
  import opened Ledger
  import opened Mandate
  import opened Settlement

  /** What other transactions may commit between two steps of a call. */
  datatype Event = Swept | MandateSet(status: Status)

  /** What happens around one call: how the provider answers, what commits before
      each of its steps, and before which of them it stops, if before any. */
  datatype Script = Script(
    fetch: FetchAnswer, captureRaises: bool, refundRaises: bool, gaps: nat -> seq<Event>, stops: nat -> bool)

  /** A ledger operation on a reserved key, rows and phases side by side. */
  lemma LedgerMoves(mandates: set<string>, entries: seq<Row>, book: Book, ref: Ref, kind: RefType)
    requires Refines(entries, book) && WellFormed(book, mandates) && ref in book && kind != ReservationRow
    ensures var op := Operation(kind, ref.mandateId, ref.intent.totalMinor, ref, 0);
      var (out, step) := (Execute(mandates, entries, op), LedgerStep(ref, book[ref], kind));
      && out.ok == step.1
      && Refines(out.entries, book[ref := step.0]) && WellFormed(book[ref := step.0], mandates)
  {
    LedgerStepIsLocal(book, ref, kind);
    ExecuteRefines(mandates, entries, book, Operation(kind, ref.mandateId, ref.intent.totalMinor, ref, 0));
  }

  class SagaStore {
    const ledger: LedgerService
    const ref: Ref
    var saga: SagaStatus
    var order: OrderStatus
    var mandate: Status
    var captured: set<PaymentId>
    var refunded: set<PaymentId>
    const spentKey: SpentKey
    ghost var book: Book

    ghost predicate Valid()
      reads this, ledger
    {
      Refines(ledger.entries, book) && WellFormed(book, ledger.mandates) && ref in book
    }

    /** The store as a world of the machine, with the call at `pc`. */
    ghost function View(pc: Pc): World
      requires ref in book
      reads this
    {
      World(ref, saga, order, book[ref], mandate, captured, refunded, spentKey, pc)
    }

    constructor (
      ledger: LedgerService, ref: Ref, order: OrderStatus, mandate: Status, spentKey: SpentKey, ghost book: Book)
      requires Refines(ledger.entries, book) && WellFormed(book, ledger.mandates) && ref in book
      ensures Valid() && this.ledger == ledger && this.ref == ref && this.book == book
      ensures View(NotRunning) == World(ref, AwaitingAuthorization, order, book[ref], mandate, {}, {}, spentKey, NotRunning)
    {
      this.ledger, this.ref, this.order, this.mandate, this.book := ledger, ref, order, mandate, book;
      this.spentKey, saga, captured, refunded := spentKey, AwaitingAuthorization, {}, {};
    }

    method Happen(event: Event, ghost pc: Pc)
      requires Valid()
      modifies this`mandate, this`book, ledger`entries, ledger`expiredEntries
      ensures Valid() && View(pc) == Apply(old(View(pc)), AsStep(event))
    {
      match event {
        case Swept => SweepKey();
        case MandateSet(status) => if mandate != REVOKED { mandate := status; }
      }
    }

    /** Sweeps and mandate changes by others. */
    method Meanwhile(events: seq<Event>, ghost pc: Pc) returns (ghost steps: seq<Step>)
      requires Valid()
      modifies this`mandate, this`book, ledger`entries, ledger`expiredEntries
      ensures Valid() && Leads(old(View(pc)), steps, View(pc))
      ensures |steps| == |events| && forall i :: 0 <= i < |events| ==> steps[i] == AsStep(events[i])
    {
      steps := [];
      for i := 0 to |events|
        invariant Valid() && Leads(old(View(pc)), steps, View(pc))
        invariant |steps| == i && forall j :: 0 <= j < i ==> steps[j] == AsStep(events[j])
      {
        ghost var before := View(pc);
        Happen(events[i], pc);
        LeadsStep(old(View(pc)), steps, before, AsStep(events[i]));
        steps := steps + [AsStep(events[i])];
      }
    }

    /** The time before step k of a call: others commit, and the call may stop there. */
    method Pause(script: Script, k: nat, ghost pc: Pc) returns (stopped: bool, ghost steps: seq<Step>)
      requires Valid() && Running(pc)
      modifies this`mandate, this`book, ledger`entries, ledger`expiredEntries
      ensures Valid() && Leads(old(View(pc)), steps, View(if stopped then Raised else pc))
      ensures stopped == script.stops(k)
      ensures script.gaps(k) == [] ==> View(pc) == old(View(pc))
    {
      steps := Meanwhile(script.gaps(k), pc);
      stopped := script.stops(k);
      if stopped {
        LeadsStep(old(View(pc)), steps, View(pc), Crash);
        steps := steps + [Crash];
      }
    }

    method SweepKey()
      requires Valid()
      modifies this`book, ledger`entries, ledger`expiredEntries
      ensures Valid() && book == old(book)[ref := LedgerStep(ref, old(book)[ref], ExpireRow).0]
    {
      LedgerTable(ref, book[ref]);
      var _ := ledger.SweepRef(ref, book);
      assert ExpireOne(book, ref) == book[ref := LedgerStep(ref, book[ref], ExpireRow).0];
      book := ExpireOne(book, ref);
    }

    /** One of the ledger's calls for the saga's key. */
    method LedgerCall(kind: RefType) returns (ok: bool)
      requires Valid() && kind in {CaptureRow, ReleaseRow, ReverseRow}
      modifies this`book, ledger`entries, ledger`expiredEntries
      ensures Valid() && book == old(book)[ref := LedgerStep(ref, old(book)[ref], kind).0]
      ensures ok == LedgerStep(ref, old(book)[ref], kind).1
    {
      LedgerMoves(ledger.mandates, ledger.entries, book, ref, kind);
      var mandateId, amountMinor := ref.mandateId, ref.intent.totalMinor;
      match kind {
        case CaptureRow => ok := ledger.Capture(mandateId, amountMinor, ref);
        case ReleaseRow => ok := ledger.Release(mandateId, amountMinor, ref);
        case ReverseRow => ok := ledger.ReverseSettlement(mandateId, amountMinor, ref);
      }
      book := book[ref := LedgerStep(ref, book[ref], kind).0];
    }

    /** `void_order_and_release_reservation` */
    method VoidOrderAndReleaseReservation(ghost c: Call)
      requires Valid()
      modifies this`order, this`mandate, this`book, ledger`entries, ledger`expiredEntries
      ensures Valid() && View(Finalize(c)) == Transact(old(View(Void(c))))
    {
      if order == OrderCreated { order := OrderFailed; }
      var released := LedgerCall(ReleaseRow);
      mandate := MarkCompensated(mandate);
    }

    /** The transaction of `refund_and_reverse_settlement`, after the provider's refund. */
    method ReverseSettlement(ghost c: Call)
      requires Valid()
      modifies this`order, this`mandate, this`book, ledger`entries, ledger`expiredEntries
      ensures Valid() && View(Finalize(c)) == Transact(old(View(Reverse(c))))
    {
      if order != OrderFailed { order := OrderFailed; }
      var reversed := LedgerCall(ReverseRow);
      mandate := MarkCompensated(mandate);
    }

    /** The settling transaction: true when the ledger took the capture. */
    method SettleCapture(ghost c: Call) returns (settled: bool)
      requires Valid()
      modifies this`saga, this`mandate, this`book, ledger`entries, ledger`expiredEntries
      ensures Valid() && View(if settled then Returned else Refund(c)) == Transact(old(View(Settle(c))))
    {
      settled := LedgerCall(CaptureRow);
      if settled {
        mandate := MarkSettled(mandate);
        saga := Completed;
      }
    }

    /** C2 and C1, then `_finalize`. */
    method CompensateByVoid(c: Call, script: Script) returns (raised: bool, ghost steps: seq<Step>)
      requires Valid()
      modifies this`saga, this`order, this`mandate, this`book, ledger`entries, ledger`expiredEntries
      ensures Valid() && Leads(old(View(Void(c))), steps, View(After(raised)))
      ensures raised ==> Interrupted(script)
      ensures !raised ==> saga == Compensated
      ensures Calm(script) ==> View(Returned) == Voided(old(View(Void(c))))
    {
      ghost var w := View(Void(c));
      raised, steps := Pause(script, 0, Void(c));
      if raised { return; }
      ghost var w1 := View(Void(c));
      LedgerTable(ref, book[ref]);
      VoidOrderAndReleaseReservation(c);
      LeadsStep(w, steps, w1, Transaction);
      raised, steps := FinalizeAfter(c, script, w, steps + [Transaction]);
    }

    /** `_finalize` with status COMPENSATED. */
    method FinalizeAfter(c: Call, script: Script, ghost w: World, ghost done: seq<Step>)
        returns (raised: bool, ghost steps: seq<Step>)
      requires Valid() && Leads(w, done, View(Finalize(c)))
      modifies this`saga, this`mandate, this`book, ledger`entries, ledger`expiredEntries
      ensures Valid() && Leads(w, steps, View(After(raised)))
      ensures raised ==> Interrupted(script)
      ensures !raised ==> saga == Compensated
      ensures Calm(script) ==> View(Returned) == old(View(Returned)).(saga := Compensated)
    {
      ghost var w1 := View(Finalize(c));
      ghost var more;
      raised, more := Pause(script, 1, Finalize(c));
      LeadsThen(w, done, w1, more, View(if raised then Raised else Finalize(c)));
      steps := done + more;
      if raised { return; }
      LeadsStep(w, steps, View(Finalize(c)), Transaction);
      saga := Compensated;
      steps := steps + [Transaction];
    }

    /** The provider's refund. */
    method ProviderRefund(c: Call, script: Script) returns (raised: bool, ghost steps: seq<Step>)
      requires Valid()
      modifies this`mandate, this`refunded, this`book, ledger`entries, ledger`expiredEntries
      ensures Valid() && Leads(old(View(Refund(c))), steps, View(if raised then Raised else Reverse(c)))
      ensures raised ==> Interrupted(script) || script.refundRaises || RefundRefused(old(refunded), spentKey, c.payment)
      ensures Calm(script) ==>
        View(Raised) == old(View(Raised)).(
          refunded := if raised then old(refunded) else AfterRefund(old(refunded), spentKey, c.payment))
      ensures Calm(script) ==> (raised <==> script.refundRaises || RefundRefused(old(refunded), spentKey, c.payment))
    {
      ghost var w := View(Refund(c));
      raised, steps := Pause(script, 2, Refund(c));
      if raised { return; }
      LeadsStep(w, steps, View(Refund(c)), RefundReply(script.refundRaises));
      steps := steps + [RefundReply(script.refundRaises)];
      raised := script.refundRaises || RefundRefused(refunded, spentKey, c.payment);
      if !raised { refunded := AfterRefund(refunded, spentKey, c.payment); }
    }

    /** C4 and C5, then `_finalize`; the provider's refund may raise. */
    method CompensateByRefund(c: Call, script: Script) returns (raised: bool, ghost steps: seq<Step>)
      requires Valid()
      modifies this`saga, this`order, this`mandate, this`refunded, this`book, ledger`entries, ledger`expiredEntries
      ensures Valid() && Leads(old(View(Refund(c))), steps, View(After(raised)))
      ensures raised ==> Interrupted(script) || script.refundRaises || RefundRefused(old(refunded), spentKey, c.payment)
      ensures Calm(script) ==> View(After(raised)) == RefundedOrRaised(old(View(Refund(c))), c, script.refundRaises)
    {
      ghost var w := View(Refund(c));
      raised, steps := ProviderRefund(c, script);
      if raised { return; }
      ghost var w1 := View(Reverse(c));
      ghost var more;
      raised, more := Pause(script, 3, Reverse(c));
      LeadsThen(w, steps, w1, more, View(if raised then Raised else Reverse(c)));
      steps := steps + more;
      if raised { return; }
      LeadsStep(w, steps, View(Reverse(c)), Transaction);
      LedgerTable(ref, book[ref]);
      ReverseSettlement(c);
      raised, steps := FinalizeAfter(c, script, w, steps + [Transaction]);
    }

    /** S5, and its compensation when the ledger refuses. */
    method SettleOrRefund(c: Call, script: Script) returns (raised: bool, ghost steps: seq<Step>)
      requires Valid()
      modifies this`saga, this`order, this`mandate, this`refunded, this`book, ledger`entries, ledger`expiredEntries
      ensures Valid() && Leads(old(View(Settle(c))), steps, View(After(raised)))
      ensures raised ==> Interrupted(script) || script.refundRaises || RefundRefused(old(refunded), spentKey, c.payment)
      ensures Calm(script) ==> View(After(raised)) == SettledOrNot(old(View(Settle(c))), c, script.refundRaises)
    {
      ghost var w := View(Settle(c));
      raised, steps := Pause(script, 4, Settle(c));
      if raised { return; }
      LeadsStep(w, steps, View(Settle(c)), Transaction);
      LedgerTable(ref, book[ref]);
      var settled := SettleCapture(c);
      steps := steps + [Transaction];
      if settled { return; }
      ghost var w1 := View(Refund(c));
      ghost var more;
      raised, more := CompensateByRefund(c, script);
      LeadsThen(w, steps, w1, more, View(After(raised)));
      steps := steps + more;
    }

    /** A captured payment is recorded on the order, then settled. */
    method RecordCaptureAndSettle(c: Call, script: Script) returns (raised: bool, ghost steps: seq<Step>)
      requires Valid()
      modifies this`saga, this`order, this`mandate, this`refunded, this`book, ledger`entries, ledger`expiredEntries
      ensures Valid() && Leads(old(View(RecordCapture(c))), steps, View(After(raised)))
      ensures raised ==> Interrupted(script) || script.refundRaises || RefundRefused(old(refunded), spentKey, c.payment)
      ensures Calm(script) ==>
        View(After(raised)) == SettledOrNot(old(View(Settle(c))).(order := OrderCaptured), c, script.refundRaises)
    {
      ghost var w := View(RecordCapture(c));
      raised, steps := Pause(script, 5, RecordCapture(c));
      if raised { return; }
      LeadsStep(w, steps, View(RecordCapture(c)), Transaction);
      order := OrderCaptured;
      steps := steps + [Transaction];
      ghost var w1 := View(Settle(c));
      ghost var more;
      raised, more := SettleOrRefund(c, script);
      LeadsThen(w, steps, w1, more, View(After(raised)));
      steps := steps + more;
    }

    /** S4: what `verify_and_capture` does once the signature is known. */
    method CaptureAndSettle(c: Call, script: Script) returns (raised: bool, ghost steps: seq<Step>)
      requires Valid()
      modifies this`saga, this`order, this`mandate, this`captured, this`refunded, this`book, ledger`entries, ledger`expiredEntries
      ensures Valid() && Leads(old(View(VerifyAndCapture(c))), steps, View(After(raised)))
      ensures raised ==> Interrupted(script) || script.refundRaises || RefundRefused(old(refunded), spentKey, c.payment)
      ensures Calm(script) ==>
        View(After(raised)) ==
          if script.captureRaises then Voided(old(View(Void(c))).(order := OrderFailed))
          else SettledOrNot(
            old(View(Settle(c))).(order := OrderCaptured, captured := old(captured) + {c.payment}), c, script.refundRaises)
    {
      ghost var w := View(VerifyAndCapture(c));
      raised, steps := Pause(script, 6, VerifyAndCapture(c));
      if raised { return; }
      LeadsStep(w, steps, View(VerifyAndCapture(c)), CaptureReply(script.captureRaises));
      steps := steps + [CaptureReply(script.captureRaises)];
      ghost var w1, more := View(RecordFailure(c)), [];
      if script.captureRaises {
        raised, more := RecordFailureAndVoid(c, script);
      } else {
        captured := captured + {c.payment};
        w1 := View(RecordCapture(c));
        raised, more := RecordCaptureAndSettle(c, script);
      }
      LeadsThen(w, steps, w1, more, View(After(raised)));
      steps := steps + more;
    }

    /** The failing ends of `verify_and_capture`, and the void that follows. */
    method RecordFailureAndVoid(c: Call, script: Script) returns (raised: bool, ghost steps: seq<Step>)
      requires Valid()
      modifies this`saga, this`order, this`mandate, this`book, ledger`entries, ledger`expiredEntries
      ensures Valid() && Leads(old(View(RecordFailure(c))), steps, View(After(raised)))
      ensures raised ==> Interrupted(script)
      ensures !raised ==> saga == Compensated
      ensures Calm(script) ==> View(Returned) == Voided(old(View(Void(c))).(order := OrderFailed))
    {
      ghost var w := View(RecordFailure(c));
      raised, steps := Pause(script, 7, RecordFailure(c));
      if raised { return; }
      LeadsStep(w, steps, View(RecordFailure(c)), Transaction);
      order := OrderFailed;
      steps := steps + [Transaction];
      ghost var w1 := View(Void(c));
      ghost var more;
      raised, more := CompensateByVoid(c, script);
      LeadsThen(w, steps, w1, more, View(After(raised)));
      steps := steps + more;
    }

    /** S3 on. */
    method AuthorizeAndGoOn(c: Call, script: Script) returns (raised: bool, ghost steps: seq<Step>)
      requires Valid()
      modifies this`saga, this`order, this`mandate, this`captured, this`refunded, this`book, ledger`entries, ledger`expiredEntries
      ensures Valid() && Leads(old(View(FetchPayments(c))), steps, View(After(raised)))
      ensures raised ==>
        || Interrupted(script) || script.fetch == FetchRaises || script.refundRaises
        || RefundRefused(old(refunded), spentKey, c.payment)
      ensures script.fetch == Declined ==> captured == old(captured) && (!raised ==> saga == Compensated)
      ensures Calm(script) ==> View(After(raised)) == Authorized(old(View(FetchPayments(c))), c, script)
    {
      ghost var w := View(FetchPayments(c));
      raised, steps := Pause(script, 8, FetchPayments(c));
      if raised { return; }
      var answer := script.fetch;
      ghost var w1 := Apply(View(FetchPayments(c)), FetchReply(answer));
      LeadsStep(w, steps, View(FetchPayments(c)), FetchReply(answer));
      steps := steps + [FetchReply(answer)];
      raised := answer == FetchRaises;
      if raised { return; }
      ghost var more;
      if answer == Declined {
        raised, more := CompensateByVoid(c, script);
      } else if !c.signatureOk {
        raised, more := RecordFailureAndVoid(c, script);
      } else {
        raised, more := CaptureAndSettle(c, script);
      }
      LeadsThen(w, steps, w1, more, View(After(raised)));
      steps := steps + more;
    }

    /** The call of an open saga. */
    method CompleteOpen(c: Call, script: Script) returns (raised: bool, ghost steps: seq<Step>)
      requires Valid()
      modifies this`saga, this`order, this`mandate, this`captured, this`refunded, this`book, ledger`entries, ledger`expiredEntries
      ensures Valid() && Leads(old(View(CheckMandate(c))), steps, View(After(raised)))
      ensures raised ==>
        || Interrupted(script) || script.fetch == FetchRaises || script.refundRaises
        || RefundRefused(old(refunded), spentKey, c.payment)
      ensures script.fetch == Declined ==> captured == old(captured) && (!raised ==> saga == Compensated)
      ensures Calm(script) ==>
        View(After(raised)) ==
          if old(mandate) == REVOKED then Voided(old(View(Void(c)))) else Authorized(old(View(FetchPayments(c))), c, script)
    {
      ghost var w := View(CheckMandate(c));
      raised, steps := Pause(script, 9, CheckMandate(c));
      if raised { return; }
      LeadsStep(w, steps, View(CheckMandate(c)), Transaction);
      steps := steps + [Transaction];
      ghost var w1 := View(if mandate == REVOKED then Void(c) else FetchPayments(c));
      ghost var more;
      if mandate == REVOKED {
        raised, more := CompensateByVoid(c, script);
      } else {
        raised, more := AuthorizeAndGoOn(c, script);
      }
      LeadsThen(w, steps, w1, more, View(After(raised)));
      steps := steps + more;
    }

    /** `complete_purchase`: a run of the machine, and so, from a safe start, an end
        that is settled and charged or undone and refunded. */
    method CompletePurchase(c: Call, script: Script) returns (r: Result<SagaStatus>, ghost steps: seq<Step>)
      requires Valid()
      modifies this`saga, this`order, this`mandate, this`captured, this`refunded, this`book, ledger`entries, ledger`expiredEntries
      ensures Valid() && (r.Ok? ==> r.value == saga)
      ensures Leads(Apply(old(View(NotRunning)), Begin(c)), steps, View(After(r.Err?)))
      ensures InvSafe(old(View(NotRunning))) && Safe(old(View(NotRunning)), c) && r.Ok? ==> Good(View(Returned))
      // A resolved saga is returned as it is.
      ensures old(saga) != AwaitingAuthorization ==> r == Ok(old(saga)) && View(Returned) == old(View(Returned))
      // It raises only where something raises, refuses or stops it.
      ensures r.Err? ==>
        || (exists k :: script.stops(k)) || script.fetch == FetchRaises || script.refundRaises
        || (old(refunded) != {} && c.payment !in old(refunded) && spentKey == Refuses)
      // A declined payment is never captured.
      ensures old(saga) == AwaitingAuthorization && script.fetch == Declined ==>
        captured == old(captured) && (r.Ok? ==> saga == Compensated)
      // Left alone, each course has its end.
      ensures old(saga) == AwaitingAuthorization && Calm(script) ==>
        if old(mandate) == REVOKED || script.fetch == Declined then
          && r == Ok(Compensated) && captured == old(captured) && refunded == old(refunded)
          && order == (if old(order) == OrderCreated then OrderFailed else old(order))
          && book[ref] == (if old(book[ref]) == Held then Released else old(book[ref]))
          && mandate == (if old(mandate) == EXECUTING then COMPENSATED else old(mandate))
        else if script.fetch == FetchRaises then
          r.Err? && View(Raised) == old(View(Raised))
        else if !c.signatureOk || script.captureRaises then
          && r == Ok(Compensated) && captured == old(captured) && refunded == old(refunded) && order == OrderFailed
          && book[ref] == (if old(book[ref]) == Held then Released else old(book[ref]))
          && mandate == (if old(mandate) == EXECUTING then COMPENSATED else old(mandate))
        else if old(book[ref]) == Held || old(book[ref]) == Captured || old(book[ref]) == Reversed then
          && r == Ok(Completed) && captured == old(captured) + {c.payment} && refunded == old(refunded)
          && order == OrderCaptured
          && book[ref] == (if old(book[ref]) == Held then Captured else old(book[ref]))
          && mandate == (if old(mandate) == EXECUTING then SETTLED else old(mandate))
        else if script.refundRaises || (old(refunded) != {} && c.payment !in old(refunded) && spentKey == Refuses) then
          && r.Err? && saga == AwaitingAuthorization && captured == old(captured) + {c.payment}
          && refunded == old(refunded) && order == OrderCaptured && book[ref] == old(book[ref]) && mandate == old(mandate)
        else
          && r == Ok(Compensated) && captured == old(captured) + {c.payment} && order == OrderFailed
          && refunded == (if old(refunded) != {} && c.payment !in old(refunded) && spentKey == Swallows
                          then old(refunded) else old(refunded) + {c.payment})
          && book[ref] == old(book[ref])
          && mandate == (if old(mandate) == EXECUTING then COMPENSATED else old(mandate))
    {
      ghost var w := View(NotRunning);
      var raised := false;
      steps := [];
      if saga == AwaitingAuthorization { raised, steps := CompleteOpen(c, script); }
      r := if raised then Err("raised") else Ok(saga);
      EndsWell(w, c, steps);
    }
  }

  /** Nothing commits in between and nothing stops the call. */
  ghost predicate Calm(script: Script) {
    forall k :: script.gaps(k) == [] && !script.stops(k)
  }

  ghost predicate Interrupted(script: Script) {
    exists k :: script.stops(k)
  }

  /** The world after a void and its finalization. */
  ghost function Voided(w: World): World {
    w.(
      saga := Compensated, order := if w.order == OrderCreated then OrderFailed else w.order,
      phase := if w.phase == Held then Released else w.phase,
      mandate := if w.mandate == EXECUTING then COMPENSATED else w.mandate, pc := Returned)
  }

  /** The world after the refund branch. */
  ghost function RefundedOrRaised(w: World, c: Call, raises: bool): World {
    if raises || RefundRefused(w.refunded, w.spentKey, c.payment) then w.(pc := Raised)
    else w.(
      saga := Compensated, order := OrderFailed, refunded := AfterRefund(w.refunded, w.spentKey, c.payment),
      phase := if w.phase == Captured then Reversed else w.phase,
      mandate := if w.mandate == EXECUTING then COMPENSATED else w.mandate, pc := Returned)
  }

  /** The world after the settling transaction and what follows it. */
  ghost function SettledOrNot(w: World, c: Call, raises: bool): World {
    if w.phase == Held || w.phase == Captured || w.phase == Reversed then w.(
      saga := Completed, phase := if w.phase == Held then Captured else w.phase,
      mandate := if w.mandate == EXECUTING then SETTLED else w.mandate, pc := Returned)
    else RefundedOrRaised(w, c, raises)
  }

  /** The world after S3 and what follows it. */
  ghost function Authorized(w: World, c: Call, script: Script): World {
    if script.fetch == FetchRaises then w.(pc := Raised)
    else if script.fetch == Declined then Voided(w)
    else if !c.signatureOk || script.captureRaises then Voided(w.(order := OrderFailed))
    else SettledOrNot(w.(order := OrderCaptured, captured := w.captured + {c.payment}), c, script.refundRaises)
  }

  /** Where a call is that is over. */
  ghost function After(raised: bool): Pc {
    if raised then Raised else Returned
  }

  /** One stretch of a call. */
  ghost predicate Leads(w: World, steps: seq<Step>, w': World) {
    OneCall(steps) && Run(w, steps) == w'
  }

  lemma LeadsThen(w: World, a: seq<Step>, w1: World, b: seq<Step>, w2: World)
    requires Leads(w, a, w1) && Leads(w1, b, w2)
    ensures Leads(w, a + b, w2)
  {
    RunAppend(w, a, b);
  }

  lemma LeadsStep(w: World, a: seq<Step>, w1: World, step: Step)
    requires Leads(w, a, w1) && !step.Begin?
    ensures Leads(w, a + [step], Apply(w1, step))
  {
    RunSnoc(w, a, step);
  }

  lemma EndsWell(w: World, c: Call, steps: seq<Step>)
    requires OneCall(steps) && !Running(w.pc)
    ensures var w' := Run(Apply(w, Begin(c)), steps);
      InvSafe(w) && Safe(w, c) && w'.pc.Returned? ==> Good(w')
  {
    if InvSafe(w) && Safe(w, c) {
      ApplyKeepsSafe(w, Begin(c));
      OneCallIsSafe(Apply(w, Begin(c)), steps);
      SafeRunKeeps(Apply(w, Begin(c)), steps);
    }
  }

  ghost function AsStep(event: Event): Step {
    match event
    case Swept => Sweep
    case MandateSet(status) => SetMandate(status)
  }
}
