/** Completing a purchase (`complete_purchase` in
src/actl/application/orchestrator/saga.py, `verify_and_capture` in
src/actl/application/payment_service.py, and the compensations of
src/actl/application/compensations.py).

A call goes through several database transactions with provider calls between
them.  Each is one step here.  Between any two steps the environment may sweep
the reservation or change the mandate; calls for one saga do not overlap, but a
call may raise or stop at any point and be followed by another.  A provider call
that raises has had no effect.  Capturing a payment again, or refunding it again
under the saga's refund key, changes nothing.  What the provider does when that
key, once used, comes with another payment is not settled by the port or by either
adapter; it is an input.
*/
module Settlement {
  import opened Digests
  import opened Ledger
  import opened Mandate

  type PaymentId = string

  datatype SagaStatus = AwaitingAuthorization | Completed | Compensated

  datatype OrderStatus = OrderCreated | OrderCaptured | OrderFailed

  /** The arguments that matter: which payment, and whether its signature verifies. */
  datatype Call = Call(payment: PaymentId, signatureOk: bool)

  /** The next thing a call does. */
  datatype Pc =
    | NotRunning
    | CheckMandate(c: Call)
    | FetchPayments(c: Call)
    | VerifyAndCapture(c: Call)
    | RecordFailure(c: Call)
    | RecordCapture(c: Call)
    | Settle(c: Call)
    | Refund(c: Call)
    | Reverse(c: Call)
    | Void(c: Call)
    | Finalize(c: Call)
    | Returned
    | Raised

  /** What a refund does whose key was already used for another payment: it is taken
      for a repetition and nothing happens, the payment is refunded all the same, or
      the provider refuses and the call raises. */
  datatype SpentKey = Swallows | RefundsAnyway | Refuses

  /** One saga: its row, its order, the phase of its reservation, its mandate, and
      what the provider holds: the captured payments, and those of them refunded
      under the saga's refund key. */
  datatype World = World(
    ref: Ref,
    saga: SagaStatus,
    order: OrderStatus,
    phase: Phase,
    mandate: Status,
    captured: set<PaymentId>,
    refunded: set<PaymentId>,
    spentKey: SpentKey,
    pc: Pc)

  datatype FetchAnswer = FetchRaises | Declined | NotDeclined

  datatype Step =
    | Begin(call: Call)
    | Transaction
    | FetchReply(answer: FetchAnswer)
    | CaptureReply(raises: bool)
    | RefundReply(raises: bool)
    | Crash
    | Sweep
    | SetMandate(status: Status)

  predicate Running(pc: Pc) {
    !pc.NotRunning? && !pc.Returned? && !pc.Raised?
  }

  /** A ledger operation on the saga's own key. */
  ghost function LedgerStep(ref: Ref, phase: Phase, kind: RefType): (Phase, bool)
    requires kind != ReservationRow
  {
    var (book, ok) := StepBook(map[ref := phase], Operation(kind, ref.mandateId, ref.intent.totalMinor, ref, 0));
    (book[ref], ok)
  }

  /** In any book the operation does this to the key, and touches no other. */
  lemma LedgerStepIsLocal(book: Book, ref: Ref, kind: RefType)
    requires ref in book && kind != ReservationRow
    ensures var (phase, ok) := LedgerStep(ref, book[ref], kind);
      var op := Operation(kind, ref.mandateId, ref.intent.totalMinor, ref, 0);
      StepBook(book, op) == (book[ref := phase], ok)
  {
    assert book[ref := book[ref]] == book;
  }

  /** `_mark_compensated` */
  function MarkCompensated(status: Status): Status {
    if status == EXECUTING then COMPENSATED else status
  }

  /** The status after settling. */
  function MarkSettled(status: Status): Status {
    if status == EXECUTING then SETTLED else status
  }

  /** Both are the lifecycle's own transitions, whose guards always hold here. */
  lemma MarksAreTransitions(amount: int)
    ensures Fire(EXECUTING, Failure, DEFAULT_CONTEXT) == Ok(MarkCompensated(EXECUTING))
    ensures var ctx := DEFAULT_CONTEXT.(reservedMinor := amount, capturedMinor := amount);
      Fire(EXECUTING, CapturedAll, ctx) == Ok(MarkSettled(EXECUTING))
  {
    FireIsTarget(EXECUTING, Failure, DEFAULT_CONTEXT);
    FireIsTarget(EXECUTING, CapturedAll, DEFAULT_CONTEXT.(reservedMinor := amount, capturedMinor := amount));
  }

  /** The refund key was used, and not for this payment. */
  predicate Spent(refunded: set<PaymentId>, payment: PaymentId) {
    refunded != {} && payment !in refunded
  }

  predicate RefundRefused(refunded: set<PaymentId>, spentKey: SpentKey, payment: PaymentId) {
    Spent(refunded, payment) && spentKey == Refuses
  }

  /** The refunded payments after a refund that the provider takes. */
  function AfterRefund(refunded: set<PaymentId>, spentKey: SpentKey, payment: PaymentId): set<PaymentId> {
    if Spent(refunded, payment) && spentKey == Swallows then refunded else refunded + {payment}
  }

  /** A database transaction of the call. */
  ghost function Transact(w: World): World {
    match w.pc
    case CheckMandate(c) => w.(pc := if w.mandate == REVOKED then Void(c) else FetchPayments(c))
    case RecordFailure(c) => w.(order := OrderFailed, pc := Void(c))
    case RecordCapture(c) => w.(order := OrderCaptured, pc := Settle(c))
    case Settle(c) =>
      var (phase, ok) := LedgerStep(w.ref, w.phase, CaptureRow);
      if !ok then w.(phase := phase, pc := Refund(c))
      else w.(
        phase := phase, mandate := MarkSettled(w.mandate),
        saga := Completed, pc := Returned)
    case Reverse(c) =>
      var (phase, _) := LedgerStep(w.ref, w.phase, ReverseRow);
      w.(order := OrderFailed, phase := phase, mandate := MarkCompensated(w.mandate), pc := Finalize(c))
    case Void(c) =>
      var (phase, _) := LedgerStep(w.ref, w.phase, ReleaseRow);
      w.(
        order := if w.order == OrderCreated then OrderFailed else w.order,
        phase := phase, mandate := MarkCompensated(w.mandate), pc := Finalize(c))
    case Finalize(c) => w.(saga := Compensated, pc := Returned)
    case _ => w
  }

  ghost function Apply(w: World, step: Step): World {
    match step
    case Begin(c) =>
      if Running(w.pc) then w
      else w.(pc := if w.saga == AwaitingAuthorization then CheckMandate(c) else Returned)
    case Transaction => Transact(w)
    case FetchReply(answer) =>
      if !w.pc.FetchPayments? then w
      else w.(pc := match answer
        case FetchRaises => Raised
        case Declined => Void(w.pc.c)
        case NotDeclined => if w.pc.c.signatureOk then VerifyAndCapture(w.pc.c) else RecordFailure(w.pc.c))
    case CaptureReply(raises) =>
      if !w.pc.VerifyAndCapture? then w
      else if raises then w.(pc := RecordFailure(w.pc.c))
      else w.(captured := w.captured + {w.pc.c.payment}, pc := RecordCapture(w.pc.c))
    case RefundReply(raises) =>
      if !w.pc.Refund? then w
      else if raises || RefundRefused(w.refunded, w.spentKey, w.pc.c.payment) then w.(pc := Raised)
      else w.(refunded := AfterRefund(w.refunded, w.spentKey, w.pc.c.payment), pc := Reverse(w.pc.c))
    case Crash => if Running(w.pc) then w.(pc := Raised) else w
    case Sweep => w.(phase := LedgerStep(w.ref, w.phase, ExpireRow).0)
    case SetMandate(status) => if w.mandate == REVOKED then w else w.(mandate := status)
  }

  ghost function Run(w: World, steps: seq<Step>): World {
    if steps == [] then w else Apply(Run(w, steps[..|steps| - 1]), steps[|steps| - 1])
  }

  /** As `begin_purchase` leaves it. */
  ghost predicate Initial(w: World) {
    && w.saga == AwaitingAuthorization && w.order == OrderCreated && w.phase == Held
    && w.captured == {} && w.refunded == {} && w.pc.NotRunning? && w.ref.intent.totalMinor > 0
  }

  /******* What a call should leave behind *******/

  /** What the provider has taken and not given back. */
  ghost function ProviderNet(w: World): int {
    w.ref.intent.totalMinor * (|w.captured| - |w.refunded|)
  }

  ghost function BalanceOf(w: World, bucket: Bucket): int {
    Weight(w.ref, w.phase, Account(w.ref.mandateId, bucket))
  }

  /** Settled and charged, or undone and not charged. */
  ghost predicate Good(w: World) {
    var amount := w.ref.intent.totalMinor;
    match w.saga
    case AwaitingAuthorization => false
    case Completed =>
      && BalanceOf(w, Settled) == amount && BalanceOf(w, Reserved) == 0
      && ProviderNet(w) == amount && w.order == OrderCaptured
    case Compensated =>
      && BalanceOf(w, Settled) == 0 && BalanceOf(w, Reserved) == 0
      && ProviderNet(w) == 0 && w.order == OrderFailed
  }

  /******* What holds in every reachable world *******/

  ghost predicate Inv(w: World) {
    && w.ref.intent.totalMinor > 0
    && (w.saga == AwaitingAuthorization ==> w.phase in {Held, Released, Expired})
    && w.refunded <= w.captured
    && (w.refunded != {} ==> w.phase in {Released, Expired} && w.order != OrderCreated)
    && (w.captured == {} ==> w.order != OrderCaptured)
    && (Running(w.pc) ==> w.saga == AwaitingAuthorization)
    && (w.pc.Returned? ==> w.saga != AwaitingAuthorization)
    && (w.pc.RecordCapture? || w.pc.Settle? || w.pc.Refund? || w.pc.Reverse? ==> w.pc.c.payment in w.captured)
    && (w.pc.Settle? || w.pc.Refund? ==> w.order == OrderCaptured)
    && (w.pc.Refund? || w.pc.Reverse? || w.pc.Finalize? ==> w.phase != Held)
    && (w.pc.Reverse? ==> w.refunded != {})
  }

  /** What the ledger does with the key, phase by phase. */
  lemma LedgerTable(ref: Ref, phase: Phase)
    ensures LedgerStep(ref, phase, CaptureRow) ==
      (if phase == Held then Captured else phase, phase in {Held, Captured, Reversed})
    ensures LedgerStep(ref, phase, ReleaseRow).0 == if phase == Held then Released else phase
    ensures LedgerStep(ref, phase, ExpireRow).0 == if phase == Held then Expired else phase
    ensures LedgerStep(ref, phase, ReverseRow).0 == if phase == Captured then Reversed else phase
  {
  }

  lemma TransactKeepsInv(w: World)
    requires Inv(w)
    ensures Inv(Transact(w))
  {
    LedgerTable(w.ref, w.phase);
  }

  lemma ApplyKeepsInv(w: World, step: Step)
    requires Inv(w)
    ensures Inv(Apply(w, step)) && Apply(w, step).ref == w.ref
  {
    if step.Transaction? { TransactKeepsInv(w); } else { LedgerTable(w.ref, w.phase); }
  }

  /******* When a call is safe *******/

  /** Everything captured has been refunded, and the order says so. */
  ghost predicate Clean(w: World) {
    w.captured == {} || (w.captured == w.refunded && w.order == OrderFailed)
  }

  /** This payment can still be refunded, should it be captured. */
  ghost predicate Refundable(w: World, payment: PaymentId) {
    w.spentKey == Swallows ==> !Spent(w.refunded, payment)
  }

  /** Nothing is left over from an earlier call; and where the provider swallows a
      spent key, this call cannot capture a payment that the key no longer refunds. */
  ghost predicate Safe(w: World, c: Call) {
    w.saga == AwaitingAuthorization ==>
      && Clean(w)
      && (Refundable(w, c.payment) || !c.signatureOk || w.mandate == REVOKED)
  }

  /** Nothing but this payment is outstanding, and it can be refunded. */
  ghost predicate OnlyThis(w: World, payment: PaymentId) {
    w.captured <= w.refunded + {payment} && Refundable(w, payment)
  }

  /** What a call that began safely keeps at each point. */
  ghost predicate OnCourse(w: World) {
    match w.pc
    case CheckMandate(c) => Safe(w, c)
    case FetchPayments(c) => Clean(w) && (Refundable(w, c.payment) || !c.signatureOk)
    case VerifyAndCapture(c) => Clean(w) && Refundable(w, c.payment)
    case RecordFailure(c) => w.captured == w.refunded
    case Void(c) => w.captured == w.refunded && w.order != OrderCaptured
    case RecordCapture(c) => OnlyThis(w, c.payment)
    case Settle(c) => OnlyThis(w, c.payment)
    case Refund(c) => OnlyThis(w, c.payment)
    case Reverse(c) => w.captured == w.refunded
    case Finalize(c) => w.captured == w.refunded && w.order == OrderFailed
    case _ => true
  }

  ghost predicate InvSafe(w: World) {
    Inv(w) && OnCourse(w) && (w.saga != AwaitingAuthorization ==> Good(w))
  }

  lemma NetOfSets(w: World)
    ensures w.captured == w.refunded ==> ProviderNet(w) == 0
    ensures forall p :: w.captured == w.refunded + {p} && p !in w.refunded ==> ProviderNet(w) == w.ref.intent.totalMinor
  {
  }

  lemma TransactKeepsSafe(w: World)
    requires InvSafe(w)
    ensures OnCourse(Transact(w))
    ensures Transact(w).saga != AwaitingAuthorization ==> Good(Transact(w))
  {
    if w.pc.Settle? { SettleIsGood(w); } else if w.pc.Finalize? { FinalizeIsGood(w); } else { TransactStaysOnCourse(w); }
  }

  lemma TransactStaysOnCourse(w: World)
    requires Inv(w) && OnCourse(w) && !w.pc.Settle? && !w.pc.Finalize?
    ensures OnCourse(Transact(w)) && Transact(w).saga == w.saga
    ensures !Running(w.pc) ==> Transact(w) == w
  {
    LedgerTable(w.ref, w.phase);
  }

  lemma SettleIsGood(w: World)
    requires Inv(w) && OnCourse(w) && w.pc.Settle?
    ensures OnCourse(Transact(w))
    ensures Transact(w).saga == Completed ==> Good(Transact(w))
    ensures Transact(w).saga == Completed || Transact(w).saga == AwaitingAuthorization
  {
    LedgerTable(w.ref, w.phase);
    NetOfSets(w);
  }

  lemma FinalizeIsGood(w: World)
    requires Inv(w) && OnCourse(w) && w.pc.Finalize?
    ensures Good(Transact(w))
  {
    NetOfSets(w);
  }

  /** An ended saga stays as it is: no call does anything more, and a sweep finds
      nothing held. */
  lemma GoodStays(w: World, step: Step)
    requires Inv(w) && w.saga != AwaitingAuthorization && Good(w) && !step.Transaction?
    ensures Good(Apply(w, step))
  {
    LedgerTable(w.ref, w.phase);
  }

  lemma CaptureStaysOnCourse(w: World, raises: bool)
    requires Inv(w) && OnCourse(w)
    ensures OnCourse(Apply(w, CaptureReply(raises)))
  {
  }

  lemma RefundStaysOnCourse(w: World, raises: bool)
    requires Inv(w) && OnCourse(w)
    ensures OnCourse(Apply(w, RefundReply(raises)))
  {
  }

  lemma OthersStayOnCourse(w: World, step: Step)
    requires Inv(w) && OnCourse(w) && !step.Transaction? && !step.CaptureReply? && !step.RefundReply?
    requires step.Begin? && !Running(w.pc) ==> Safe(w, step.call)
    ensures OnCourse(Apply(w, step))
  {
  }

  lemma ApplyKeepsSafe(w: World, step: Step)
    requires InvSafe(w) && (step.Begin? && !Running(w.pc) ==> Safe(w, step.call))
    ensures InvSafe(Apply(w, step))
  {
    ApplyKeepsInv(w, step);
    if step.Transaction? {
      TransactKeepsSafe(w);
    } else {
      if w.saga != AwaitingAuthorization { GoodStays(w, step); }
      match step
      case CaptureReply(raises) => CaptureStaysOnCourse(w, raises);
      case RefundReply(raises) => RefundStaysOnCourse(w, raises);
      case _ => OthersStayOnCourse(w, step);
    }
  }

  /******* Whole runs *******/

  /** Every call of the run begins safely. */
  ghost predicate SafeRun(w: World, steps: seq<Step>) {
    steps == [] ||
    var front, last := steps[..|steps| - 1], steps[|steps| - 1];
    SafeRun(w, front) && (last.Begin? && !Running(Run(w, front).pc) ==> Safe(Run(w, front), last.call))
  }

  lemma {:induction false} SafeRunKeeps(w: World, steps: seq<Step>)
    requires InvSafe(w) && SafeRun(w, steps)
    ensures InvSafe(Run(w, steps))
    decreases |steps|
  {
    if steps != [] {
      var front, last := steps[..|steps| - 1], steps[|steps| - 1];
      SafeRunKeeps(w, front);
      ApplyKeepsSafe(Run(w, front), last);
    }
  }

  /** Whatever the environment and the provider do, a call that returns in a run of
      safe calls leaves the purchase settled and charged, or undone and refunded. */
  lemma SafeRunsEndWell(w: World, steps: seq<Step>)
    requires Initial(w) && SafeRun(w, steps)
    ensures Run(w, steps).pc.Returned? ==> Good(Run(w, steps))
  {
    SafeRunKeeps(w, steps);
  }

  /** Nothing stops part-way and no refund raises. */
  ghost predicate Quiet(steps: seq<Step>) {
    forall i :: 0 <= i < |steps| ==> !steps[i].Crash? && steps[i] != RefundReply(true)
  }

  /** Without such stops a captured payment is always being dealt with. */
  ghost predicate DealtWith(w: World) {
    || w.captured == {}
    || w.saga != AwaitingAuthorization
    || ((w.pc.RecordCapture? || w.pc.Settle? || w.pc.Refund? || w.pc.Reverse? || w.pc.Finalize?)
        && w.captured <= {w.pc.c.payment})
  }

  lemma QuietStep(w: World, step: Step)
    requires InvSafe(w) && DealtWith(w) && !step.Crash? && step != RefundReply(true)
    ensures step.Begin? && !Running(w.pc) ==> Safe(w, step.call)
    ensures DealtWith(Apply(w, step))
  {
    LedgerTable(w.ref, w.phase);
  }

  lemma {:induction false} QuietRunIsSafe(w: World, steps: seq<Step>)
    requires InvSafe(w) && DealtWith(w) && Quiet(steps)
    ensures SafeRun(w, steps) && DealtWith(Run(w, steps))
    decreases |steps|
  {
    if steps != [] {
      var front, last := steps[..|steps| - 1], steps[|steps| - 1];
      QuietRunIsSafe(w, front);
      SafeRunKeeps(w, front);
      QuietStep(Run(w, front), last);
    }
  }

  /** No orphaned charge: over any number of calls, with sweeps and revocations
      anywhere between their transactions, provided no refund raises and no call
      stops part-way. */
  lemma NoOrphanedCharge(w: World, steps: seq<Step>)
    requires Initial(w) && Quiet(steps)
    ensures Run(w, steps).pc.Returned? ==> Good(Run(w, steps))
  {
    QuietRunIsSafe(w, steps);
    SafeRunsEndWell(w, steps);
  }

  /******* The condition is exact *******/

  ghost predicate OneCall(steps: seq<Step>) {
    forall i :: 0 <= i < |steps| ==> !steps[i].Begin?
  }

  /** However the rest of this call goes, it ends well if it returns. */
  ghost predicate AlwaysEndsWell(w: World, c: Call) {
    forall steps :: OneCall(steps) ==>
      var w' := Run(Apply(w, Begin(c)), steps);
      w'.pc.Returned? ==> Good(w')
  }

  lemma RunSnoc(w: World, steps: seq<Step>, step: Step)
    ensures Run(w, steps + [step]) == Apply(Run(w, steps), step)
  {
    assert (steps + [step])[..|steps|] == steps;
  }

  lemma {:induction false} OneCallIsSafe(w: World, steps: seq<Step>)
    requires OneCall(steps)
    ensures SafeRun(w, steps)
    decreases |steps|
  {
    if steps != [] { OneCallIsSafe(w, steps[..|steps| - 1]); }
  }

  lemma FewerRefunds(captured: set<PaymentId>, refunded: set<PaymentId>)
    requires refunded < captured
    ensures |refunded| < |captured|
  {
    var p :| p in captured && p !in refunded;
    assert captured == refunded + (captured - refunded);
    assert p in captured - refunded;
  }

  lemma UncleanNetOrOrder(w: World)
    requires Inv(w) && !Clean(w)
    ensures ProviderNet(w) != 0 || (w.captured == w.refunded && w.order == OrderCaptured)
  {
    if w.captured != w.refunded { FewerRefunds(w.captured, w.refunded); }
  }

  lemma {:induction false} RunAppend(w: World, a: seq<Step>, b: seq<Step>)
    ensures Run(w, a + b) == Run(Run(w, a), b)
    decreases |b|
  {
    if b == [] {
      assert a + b == a;
    } else {
      RunAppend(w, a, b[..|b| - 1]);
      assert (a + b)[..|a + b| - 1] == a + b[..|b| - 1];
    }
  }

  lemma RunThree(w: World, s1: Step, s2: Step, s3: Step)
    ensures Run(w, [s1, s2, s3]) == Apply(Apply(Apply(w, s1), s2), s3)
  {
    RunSnoc(w, [], s1);
    RunSnoc(w, [s1], s2);
    RunSnoc(w, [s1, s2], s3);
    assert [] + [s1] == [s1] && [s1] + [s2] == [s1, s2] && [s1, s2] + [s3] == [s1, s2, s3];
  }

  /** The void branch and its finalization. */
  lemma VoidEnds(w: World, s: Step)
    requires Inv(w) && Apply(w, s).pc.Void?
    ensures var w' := Run(w, [s, Transaction, Transaction]);
      && w'.pc.Returned? && w'.saga == Compensated
      && w'.captured == Apply(w, s).captured && w'.refunded == Apply(w, s).refunded && w'.ref == Apply(w, s).ref
      && (Apply(w, s).order == OrderCaptured ==> w'.order == OrderCaptured)
  {
    RunThree(w, s, Transaction, Transaction);
  }

  /** A revocation that lands before the call: the void branch forgets what an
      earlier call had captured. */
  lemma RevokedEndsBadly(w: World, c: Call) returns (steps: seq<Step>)
    requires Inv(w) && !Running(w.pc) && w.saga == AwaitingAuthorization && !Clean(w)
    ensures OneCall(steps)
    ensures var w' := Run(Apply(w, Begin(c)), steps);
      && w'.pc.Returned? && w'.saga == Compensated && !Good(w')
      && ProviderNet(w') == ProviderNet(w) && w'.ref == w.ref
  {
    var w0 := Apply(w, Begin(c));
    ApplyKeepsInv(w, Begin(c));
    ApplyKeepsInv(w0, SetMandate(REVOKED));
    steps := [SetMandate(REVOKED)] + [Transaction, Transaction, Transaction];
    RunSnoc(w0, [], SetMandate(REVOKED));
    assert [] + [SetMandate(REVOKED)] == [SetMandate(REVOKED)];
    RunAppend(w0, [SetMandate(REVOKED)], [Transaction, Transaction, Transaction]);
    VoidEnds(Apply(w0, SetMandate(REVOKED)), Transaction);
    UncleanNetOrOrder(w);
  }

  /** From the start of a call to the provider's capture. */
  lemma CaptureReached(w: World, c: Call)
    requires w.pc == CheckMandate(c) && w.mandate != REVOKED && c.signatureOk
    ensures Run(w, [Transaction, FetchReply(NotDeclined), CaptureReply(false)]) ==
      w.(captured := w.captured + {c.payment}, pc := RecordCapture(c))
  {
    RunThree(w, Transaction, FetchReply(NotDeclined), CaptureReply(false));
  }

  /** From there to the refund, once the reservation is gone. */
  lemma RefundReached(w: World, c: Call, raises: bool)
    requires w.pc == RecordCapture(c) && w.phase in {Released, Expired}
    ensures Run(w, [Transaction, Transaction, RefundReply(raises)]) ==
      if raises || RefundRefused(w.refunded, w.spentKey, c.payment) then w.(order := OrderCaptured, pc := Raised)
      else w.(order := OrderCaptured, refunded := AfterRefund(w.refunded, w.spentKey, c.payment), pc := Reverse(c))
  {
    RunThree(w, Transaction, Transaction, RefundReply(raises));
    LedgerTable(w.ref, w.phase);
  }

  lemma ReverseEnds(w: World, c: Call)
    requires w.pc == Reverse(c)
    ensures var w' := Run(w, [Transaction] + [Transaction]);
      && w'.pc.Returned? && w'.saga == Compensated
      && w'.captured == w.captured && w'.refunded == w.refunded && w'.ref == w.ref
  {
    RunSnoc(w, [], Transaction);
    assert [] + [Transaction] == [Transaction];
    RunSnoc(w, [Transaction], Transaction);
  }

  /** A call that captures a payment whose reservation is gone, up to its refund. */
  lemma CapturedTooLate(w: World, c: Call, raises: bool) returns (steps: seq<Step>)
    requires w.pc == CheckMandate(c) && w.mandate != REVOKED && c.signatureOk && w.phase in {Released, Expired}
    ensures OneCall(steps)
    ensures var captured := w.captured + {c.payment};
      Run(w, steps) ==
        if raises || RefundRefused(w.refunded, w.spentKey, c.payment)
        then w.(captured := captured, order := OrderCaptured, pc := Raised)
        else w.(
          captured := captured, order := OrderCaptured,
          refunded := AfterRefund(w.refunded, w.spentKey, c.payment), pc := Reverse(c))
  {
    var a := [Transaction, FetchReply(NotDeclined), CaptureReply(false)];
    var b := [Transaction, Transaction, RefundReply(raises)];
    CaptureReached(w, c);
    RefundReached(Run(w, a), c, raises);
    RunAppend(w, a, b);
    steps := a + b;
  }

  /** A second payment after the first was refunded.  Where the provider swallows the
      spent key, the call reports COMPENSATED and the provider keeps the second
      payment; where it refunds all the same, nothing is kept; where it refuses, the
      call raises with the second payment outstanding. */
  lemma SecondPayment(w: World, c: Call) returns (steps: seq<Step>)
    requires Inv(w) && !Running(w.pc) && w.saga == AwaitingAuthorization
    requires w.captured == w.refunded && Spent(w.refunded, c.payment) && c.signatureOk && w.mandate != REVOKED
    ensures OneCall(steps)
    ensures var w' := Run(Apply(w, Begin(c)), steps);
      match w.spentKey
      case Swallows =>
        w'.pc.Returned? && w'.saga == Compensated && ProviderNet(w') == w.ref.intent.totalMinor && !Good(w')
      case RefundsAnyway => w'.pc.Returned? && w'.saga == Compensated && ProviderNet(w') == 0
      case Refuses =>
        w'.pc.Raised? && w'.saga == AwaitingAuthorization && ProviderNet(w') == w.ref.intent.totalMinor && !Clean(w')
  {
    var w0 := Apply(w, Begin(c));
    steps := CapturedTooLate(w0, c, false);
    var w1 := Run(w0, steps);
    NetOfSets(w1);
    if w.spentKey != Refuses {
      ReverseEnds(w1, c);
      RunAppend(w0, steps, [Transaction] + [Transaction]);
      steps := steps + ([Transaction] + [Transaction]);
      NetOfSets(Run(w0, steps));
    }
  }

  /** Where the provider swallows a spent key, no other payment is ever refunded. */
  lemma {:induction false} SpentKeyStaysSpent(w: World, steps: seq<Step>)
    requires w.spentKey == Swallows && w.refunded != {}
    ensures Run(w, steps).refunded == w.refunded && Run(w, steps).spentKey == Swallows
    decreases |steps|
  {
    if steps != [] {
      var front := steps[..|steps| - 1];
      SpentKeyStaysSpent(w, front);
      var w1 := Run(w, front);
      if w1.pc.Refund? { RepeatedRefund(w1.refunded, w1.pc.c.payment); }
    }
  }

  lemma RepeatedRefund(refunded: set<PaymentId>, payment: PaymentId)
    ensures refunded != {} ==> AfterRefund(refunded, Swallows, payment) == refunded
  {
  }

  /** A call ends well however it goes exactly when it begins safely. */
  lemma SafeIsExact(w: World, c: Call)
    requires Inv(w) && !Running(w.pc) && (w.saga != AwaitingAuthorization ==> Good(w))
    ensures AlwaysEndsWell(w, c) <==> Safe(w, c)
  {
    var w0 := Apply(w, Begin(c));
    if Safe(w, c) {
      ApplyKeepsSafe(w, Begin(c));
      forall steps | OneCall(steps) ensures Run(w0, steps).pc.Returned? ==> Good(Run(w0, steps)) {
        OneCallIsSafe(w0, steps);
        SafeRunKeeps(w0, steps);
      }
    } else if !Clean(w) {
      var steps := RevokedEndsBadly(w, c);
    } else {
      var steps := SecondPayment(w, c);
    }
  }

  /******* Unsafe states are reachable *******/

  /** The reservation is swept before the call, which captures all the same. */
  lemma SweptCall(w: World, c: Call, raises: bool) returns (steps: seq<Step>)
    requires Initial(w) && w.mandate != REVOKED && c.signatureOk
    ensures Run(w, steps) ==
      if raises then w.(phase := Expired, captured := {c.payment}, order := OrderCaptured, pc := Raised)
      else w.(phase := Expired, captured := {c.payment}, refunded := {c.payment}, order := OrderCaptured, pc := Reverse(c))
  {
    var start := [Sweep] + [Begin(c)];
    RunSnoc(w, [], Sweep);
    assert [] + [Sweep] == [Sweep];
    RunSnoc(w, [Sweep], Begin(c));
    LedgerTable(w.ref, w.phase);
    var rest := CapturedTooLate(Run(w, start), c, raises);
    RunAppend(w, start, rest);
    steps := start + rest;
    assert {} + {c.payment} == {c.payment};
  }

  /** The reservation is swept, the refund raises, the mandate is revoked, and the next
      call reports the purchase compensated although the provider still holds the
      money. */
  lemma OrphanedChargeExists(w: World, c: Call) returns (steps: seq<Step>)
    requires Initial(w) && w.mandate != REVOKED && c.signatureOk
    ensures var w' := Run(w, steps);
      w'.pc.Returned? && w'.saga == Compensated && ProviderNet(w') == w.ref.intent.totalMinor
  {
    var first := SweptCall(w, c, true);
    var w2 := Run(w, first);
    NetOfSets(w2);
    var rest := RevokedEndsBadly(w2, c);
    RunSnoc(w, first, Begin(c));
    RunAppend(w, first + [Begin(c)], rest);
    steps := first + [Begin(c)] + rest;
  }

  /** The call stops right after its refund and is followed by one with another
      payment, which a provider that swallows the spent key keeps. */
  lemma SecondPaymentExists(w: World, c: Call, d: Call) returns (steps: seq<Step>)
    requires Initial(w) && w.spentKey == Swallows && w.mandate != REVOKED
    requires c.signatureOk && d.signatureOk && c.payment != d.payment
    ensures var w' := Run(w, steps);
      w'.pc.Returned? && w'.saga == Compensated && ProviderNet(w') == w.ref.intent.totalMinor
  {
    var first := SweptCall(w, c, false);
    RunSnoc(w, first, Crash);
    var stopped := first + [Crash];
    var w2 := Run(w, stopped);
    var rest := SecondPayment(w2, d);
    RunSnoc(w, stopped, Begin(d));
    RunAppend(w, stopped + [Begin(d)], rest);
    steps := stopped + [Begin(d)] + rest;
  }
}
