/** Idempotent order creation behind the gate (`create_provider_order` and
`_await_in_flight_completion` in src/actl/application/payment_service.py, and the
order of steps of `execute_money_action` in src/actl/application/gate.py).

Any number of callers with the same key run at once; everything done for other
keys is part of the environment.  A caller may stop at any point.  Either of its
transactions may be rolled back, and the gate then makes the whole call again.  A
claim that is not yet committed makes every other claim wait.  A run is any
sequence of steps; a step that is not enabled does nothing.
*/
module OrderCreation {
  import opened Digests
  import opened Ledger

  /** A call of the gate; it is also the fresh order id that the call generates. */
  type CallerId = nat

  datatype KeyState = IN_FLIGHT | COMPLETED | FAILED

  datatype Order = Order(orderId: CallerId, providerOrderId: Option<string>, failed: bool)

  datatype LogEntry = BudgetReserved(key: Ref) | PaymentIntent(key: Ref, orderId: CallerId) | OtherEntry(text: string)

  datatype Ending = Got(order: Order, duplicate: bool) | AttemptFailed | TimedOut | ProviderFailed | GaveUp

  /** Where a caller is; a waiting one has polled that many times. */
  datatype Pc =
    | AtGate
    | Lookup
    | Claiming
    | Claimed
    | Calling
    | GotProviderOrder(id: string)
    | ProviderRaised
    | Waiting(polls: nat)
    | Ended(ending: Ending)

  datatype System = System(
    key: Ref,
    book: Book,
    log: seq<LogEntry>,
    keyState: Option<KeyState>,
    claim: Option<CallerId>,
    order: Option<Order>,
    callers: map<CallerId, Pc>,
    providerCallers: set<CallerId>,
    providerOrder: Option<string>)

  datatype Step =
    | Arrive(c: CallerId)
    | PassGate(c: CallerId, maxTotalMinor: int)
    | Look(c: CallerId)
    | Claim(c: CallerId)
    | CommitIntent(c: CallerId)
    | RollBack(c: CallerId)
    | ProviderAnswers(c: CallerId, id: string)
    | ProviderFails(c: CallerId, finally: bool)
    | RecordOrder(c: CallerId)
    | RecordFailure(c: CallerId)
    | RetryRecord(c: CallerId)
    | Poll(c: CallerId)
    | Stop(c: CallerId)
    | LedgerMoves(op: Operation)
    | LogGrows(entry: LogEntry)

  const MAX_POLLS := 40

  ghost predicate At(s: System, c: CallerId, pc: Pc) {
    c in s.callers && s.callers[c] == pc
  }

  ghost function Go(s: System, c: CallerId, pc: Pc): System {
    s.(callers := s.callers[c := pc])
  }

  /** What a finished key answers with; `None` while it is in flight. */
  function Answer(s: System): Option<Ending> {
    match (s.keyState, s.order)
    case (Some(FAILED), _) => Some(AttemptFailed)
    case (Some(COMPLETED), Some(order)) => Some(Got(order, true))
    case _ => None
  }

  ghost function Unclaimed(s: System, c: CallerId): System {
    if s.claim == Some(c) then s.(claim := None) else s
  }

  /** G1-G5 in one transaction: the reservation and its audit entry, or a denial. */
  ghost function PassesGate(s: System, c: CallerId, maxTotalMinor: int): System {
    var op := Operation(ReservationRow, s.key.mandateId, s.key.intent.totalMinor, s.key, maxTotalMinor);
    var (book, ok) := StepBook(s.book, op);
    if !ok then Go(s, c, Ended(GaveUp))
    else Go(s, c, Lookup).(book := book, log := s.log + [BudgetReserved(s.key)])
  }

  ghost function Polls(s: System, c: CallerId, polls: nat): System {
    if Answer(s).Some? then Go(s, c, Ended(Answer(s).value))
    else if polls + 1 < MAX_POLLS then Go(s, c, Waiting(polls + 1))
    else Go(s, c, Ended(TimedOut))
  }

  ghost function Apply(s: System, step: Step): System {
    match step
    case Arrive(c) => if c in s.callers then s else Go(s, c, AtGate)
    case PassGate(c, maxTotalMinor) => if At(s, c, AtGate) then PassesGate(s, c, maxTotalMinor) else s
    case Look(c) =>
      if !At(s, c, Lookup) then s
      else if s.keyState.None? then Go(s, c, Claiming)
      else if Answer(s).Some? then Go(s, c, Ended(Answer(s).value))
      else Go(s, c, Waiting(0))
    case Claim(c) =>
      if !At(s, c, Claiming) then s
      else if s.keyState.Some? then Go(s, c, Waiting(0))
      else if s.claim.Some? then s
      else Go(s, c, Claimed).(claim := Some(c))
    case CommitIntent(c) =>
      if !At(s, c, Claimed) then s
      else Go(s, c, Calling).(
        claim := None,
        keyState := Some(IN_FLIGHT),
        order := Some(Order(c, None, false)),
        log := s.log + [PaymentIntent(s.key, c)])
    case RollBack(c) =>
      if At(s, c, Claiming) || At(s, c, Claimed) then Unclaimed(Go(s, c, Lookup), c) else s
    case ProviderAnswers(c, id) =>
      if !At(s, c, Calling) then s
      else Go(s, c, GotProviderOrder(id)).(providerCallers := s.providerCallers + {c}, providerOrder := Some(id))
    case ProviderFails(c, finally) =>
      if !At(s, c, Calling) then s
      else Go(s, c, if finally then ProviderRaised else Calling).(providerCallers := s.providerCallers + {c})
    case RecordOrder(c) =>
      if c in s.callers && s.callers[c].GotProviderOrder? && s.order.Some? then
        var order := s.order.value.(providerOrderId := Some(s.callers[c].id));
        Go(s, c, Ended(Got(order, false))).(order := Some(order), keyState := Some(COMPLETED))
      else s
    case RecordFailure(c) =>
      if At(s, c, ProviderRaised) && s.order.Some? then
        Go(s, c, Ended(ProviderFailed)).(order := Some(s.order.value.(failed := true)), keyState := Some(FAILED))
      else s
    case RetryRecord(c) =>
      if c in s.callers && (s.callers[c].GotProviderOrder? || s.callers[c].ProviderRaised?) then Go(s, c, Lookup) else s
    case Poll(c) => if c in s.callers && s.callers[c].Waiting? then Polls(s, c, s.callers[c].polls) else s
    case Stop(c) => if c in s.callers && !s.callers[c].Ended? then Unclaimed(Go(s, c, Ended(GaveUp)), c) else s
    case LedgerMoves(op) => s.(book := StepBook(s.book, op).0)
    case LogGrows(entry) => if entry.OtherEntry? || entry.key != s.key then s.(log := s.log + [entry]) else s
  }

  ghost function Run(s: System, steps: seq<Step>): System {
    if steps == [] then s else Apply(Run(s, steps[..|steps| - 1]), steps[|steps| - 1])
  }

  ghost predicate Initial(s: System) {
    && s.keyState.None? && s.claim.None? && s.order.None? && s.callers == map[]
    && s.providerCallers == {} && s.providerOrder.None?
  }

  /******* The invariant *******/

  /** Both write-ahead entries are in the log, in order. */
  ghost predicate WrittenAhead(log: seq<LogEntry>, key: Ref, orderId: CallerId) {
    exists i, j :: 0 <= i < j < |log| && log[i] == BudgetReserved(key) && log[j] == PaymentIntent(key, orderId)
  }

  ghost predicate TablesOk(s: System) {
    && (s.keyState.Some? <==> s.order.Some?)
    && (s.claim.Some? ==> s.keyState.None? && At(s, s.claim.value, Claimed))
    && (s.order.Some? ==> s.key in s.book && WrittenAhead(s.log, s.key, s.order.value.orderId))
    && (s.keyState == Some(COMPLETED) ==> s.providerOrder.Some? && s.order.value.providerOrderId == s.providerOrder)
    && (forall c :: c in s.providerCallers ==> s.order.Some? && s.order.value.orderId == c)
    && (s.providerOrder.Some? ==> s.providerCallers != {})
  }

  /** This caller owns the key's one attempt, which is still running. */
  ghost predicate Owns(s: System, c: CallerId) {
    s.order.Some? && s.order.value.orderId == c && s.keyState == Some(IN_FLIGHT)
  }

  ghost predicate Reserved(s: System) {
    BudgetReserved(s.key) in s.log && s.key in s.book
  }

  ghost predicate CallerOk(s: System, c: CallerId, pc: Pc) {
    match pc
    case AtGate => true
    case Lookup => Reserved(s)
    case Claiming => Reserved(s)
    case Claimed => Reserved(s) && s.claim == Some(c)
    case Calling => Owns(s, c)
    case GotProviderOrder(id) => Owns(s, c) && s.providerOrder == Some(id)
    case ProviderRaised => Owns(s, c)
    case Waiting(polls) => s.keyState.Some? && polls < MAX_POLLS
    case Ended(ending) => ending.Got? ==> s.keyState == Some(COMPLETED) && s.order.Some? && SameOrder(ending.order, s.order.value)
  }

  ghost predicate SameOrder(a: Order, b: Order) {
    a.orderId == b.orderId && a.providerOrderId == b.providerOrderId
  }

  ghost predicate Inv(s: System) {
    TablesOk(s) && forall c :: c in s.callers ==> CallerOk(s, c, s.callers[c])
  }

  /******* What no step undoes *******/

  /** Nothing durable is lost; only the owner of a running attempt can end it. */
  ghost predicate Grows(s: System, s': System, actor: CallerId) {
    && s'.key == s.key && s.book.Keys <= s'.book.Keys
    && (forall entry :: entry in s.log ==> entry in s'.log)
    && (s.claim.Some? && s.claim != Some(actor) ==> s'.claim == s.claim)
    && (s.keyState.Some? && s.order.Some? ==>
          && s'.keyState.Some? && s'.order.Some? && s'.order.value.orderId == s.order.value.orderId
          && (s.keyState != Some(IN_FLIGHT) || !Owns(s, actor) ==>
                s'.keyState == s.keyState && s'.order == s.order && s'.providerOrder == s.providerOrder))
  }

  lemma Bystander(s: System, s': System, actor: CallerId, c: CallerId, pc: Pc)
    requires CallerOk(s, c, pc) && Grows(s, s', actor) && c != actor
    requires s.keyState.Some? <==> s.order.Some?
    ensures CallerOk(s', c, pc)
  {
  }

  lemma Others(s: System, s': System, actor: CallerId)
    requires Inv(s) && Grows(s, s', actor) && TablesOk(s')
    requires forall c :: c in s'.callers && c != actor ==> c in s.callers && s'.callers[c] == s.callers[c]
    requires actor in s'.callers ==> CallerOk(s', actor, s'.callers[actor])
    ensures Inv(s')
  {
    forall c | c in s'.callers ensures CallerOk(s', c, s'.callers[c]) {
      if c != actor { Bystander(s, s', actor, c, s.callers[c]); }
    }
  }

  lemma StillWrittenAhead(log: seq<LogEntry>, more: seq<LogEntry>, key: Ref, orderId: CallerId)
    requires WrittenAhead(log, key, orderId)
    ensures WrittenAhead(log + more, key, orderId)
  {
    var i, j :| 0 <= i < j < |log| && log[i] == BudgetReserved(key) && log[j] == PaymentIntent(key, orderId);
    var log' := log + more;
    assert log'[i] == log[i] && log'[j] == log[j];
  }

  lemma IntentWrittenAhead(log: seq<LogEntry>, key: Ref, orderId: CallerId)
    requires BudgetReserved(key) in log
    ensures WrittenAhead(log + [PaymentIntent(key, orderId)], key, orderId)
  {
    var i :| 0 <= i < |log| && log[i] == BudgetReserved(key);
    var log' := log + [PaymentIntent(key, orderId)];
    assert log'[i] == BudgetReserved(key) && log'[|log|] == PaymentIntent(key, orderId);
  }

  lemma StepBookKeepsKeys(book: Book, op: Operation)
    ensures book.Keys <= StepBook(book, op).0.Keys
    ensures op.kind == ReservationRow && StepBook(book, op).1 ==> op.refId in StepBook(book, op).0
  {
  }

  /******* Each step *******/

  lemma OutsideKeeps(s: System, step: Step, actor: CallerId)
    requires Inv(s) && (step.LedgerMoves? || step.LogGrows?)
    ensures Inv(Apply(s, step)) && Grows(s, Apply(s, step), actor)
  {
    var s' := Apply(s, step);
    if step.LedgerMoves? {
      StepBookKeepsKeys(s.book, step.op);
    } else if s.order.Some? {
      StillWrittenAhead(s.log, [step.entry], s.key, s.order.value.orderId);
    }
    assert TablesOk(s');
    forall c | c in s'.callers ensures CallerOk(s', c, s'.callers[c]) { assert CallerOk(s, c, s.callers[c]); }
  }

  lemma PassGateKeeps(s: System, step: Step)
    requires Inv(s) && step.PassGate?
    ensures Inv(Apply(s, step)) && Grows(s, Apply(s, step), step.c)
  {
    var s' := Apply(s, step);
    if s' == s { return; }
    var key := s.key;
    StepBookKeepsKeys(s.book, Operation(ReservationRow, key.mandateId, key.intent.totalMinor, key, step.maxTotalMinor));
    if s.order.Some? { StillWrittenAhead(s.log, [BudgetReserved(key)], key, s.order.value.orderId); }
    Others(s, s', step.c);
  }

  lemma ClaimKeeps(s: System, step: Step)
    requires Inv(s) && (step.Claim? || step.RollBack? || step.Stop?)
    ensures Inv(Apply(s, step)) && Grows(s, Apply(s, step), step.c)
  {
    var s', c := Apply(s, step), step.c;
    if s' == s { return; }
    assert CallerOk(s, c, s.callers[c]);
    Others(s, s', c);
  }

  lemma PollKeeps(s: System, step: Step)
    requires Inv(s) && step.Poll?
    ensures Inv(Apply(s, step)) && Grows(s, Apply(s, step), step.c)
  {
    var s', c := Apply(s, step), step.c;
    if s' == s { return; }
    assert CallerOk(s, c, s.callers[c]);
    Others(s, s', c);
  }

  lemma ReadingKeeps(s: System, step: Step)
    requires Inv(s) && (step.Arrive? || step.Look?)
    ensures Inv(Apply(s, step)) && Grows(s, Apply(s, step), step.c)
  {
    var s', c := Apply(s, step), step.c;
    if s' == s { return; }
    assert c in s.callers ==> CallerOk(s, c, s.callers[c]);
    Others(s, s', c);
  }

  lemma CommitKeeps(s: System, step: Step)
    requires Inv(s) && step.CommitIntent?
    ensures Inv(Apply(s, step)) && Grows(s, Apply(s, step), step.c)
  {
    var s', c := Apply(s, step), step.c;
    if s' == s { return; }
    assert CallerOk(s, c, s.callers[c]);
    IntentWrittenAhead(s.log, s.key, c);
    Others(s, s', c);
  }

  /** The owner, once its second transaction failed, starts over and will find its own
      key in flight. */
  lemma RetryKeeps(s: System, step: Step)
    requires Inv(s) && step.RetryRecord?
    ensures Inv(Apply(s, step)) && Grows(s, Apply(s, step), step.c)
  {
    var s', c := Apply(s, step), step.c;
    if s' == s { return; }
    assert CallerOk(s, c, s.callers[c]);
    assert BudgetReserved(s.key) in s.log;
    Others(s, s', c);
  }

  /** The steps of the owner of the attempt. */
  lemma OwnerKeeps(s: System, step: Step)
    requires Inv(s) && (step.ProviderAnswers? || step.ProviderFails? || step.RecordOrder? || step.RecordFailure?)
    ensures Inv(Apply(s, step)) && Grows(s, Apply(s, step), step.c)
  {
    var s', c := Apply(s, step), step.c;
    if s' == s { return; }
    assert CallerOk(s, c, s.callers[c]);
    Others(s, s', c);
  }

  lemma ApplyKeeps(s: System, step: Step) returns (actor: CallerId)
    requires Inv(s)
    ensures Inv(Apply(s, step)) && Grows(s, Apply(s, step), actor)
  {
    match step
    case LedgerMoves(_) => actor := 0; OutsideKeeps(s, step, actor);
    case LogGrows(_) => actor := 0; OutsideKeeps(s, step, actor);
    case PassGate(c, _) => actor := c; PassGateKeeps(s, step);
    case CommitIntent(c) => actor := c; CommitKeeps(s, step);
    case ProviderAnswers(c, _) => actor := c; OwnerKeeps(s, step);
    case ProviderFails(c, _) => actor := c; OwnerKeeps(s, step);
    case RecordOrder(c) => actor := c; OwnerKeeps(s, step);
    case RecordFailure(c) => actor := c; OwnerKeeps(s, step);
    case RetryRecord(c) => actor := c; RetryKeeps(s, step);
    case Claim(c) => actor := c; ClaimKeeps(s, step);
    case RollBack(c) => actor := c; ClaimKeeps(s, step);
    case Stop(c) => actor := c; ClaimKeeps(s, step);
    case Poll(c) => actor := c; PollKeeps(s, step);
    case _ => actor := step.c; ReadingKeeps(s, step);
  }

  lemma {:induction false} RunKeeps(s: System, steps: seq<Step>)
    requires Inv(s)
    ensures Inv(Run(s, steps)) && Run(s, steps).key == s.key
    decreases |steps|
  {
    if steps != [] {
      RunKeeps(s, steps[..|steps| - 1]);
      var _ := ApplyKeeps(Run(s, steps[..|steps| - 1]), steps[|steps| - 1]);
    }
  }

  /******* Main results *******/

  /** At most one caller ever reaches the provider. */
  lemma OneCallerReachesProvider(s: System, steps: seq<Step>, c: CallerId, d: CallerId)
    requires Initial(s)
    ensures var s' := Run(s, steps); c in s'.providerCallers && d in s'.providerCallers ==> c == d
  {
    RunKeeps(s, steps);
  }

  /** Every caller that returns an order returns the one order made at the provider,
      with the provider's id already set. */
  lemma EveryReturnIsThatOrder(s: System, steps: seq<Step>, c: CallerId)
    requires Initial(s)
    ensures var s' := Run(s, steps);
      c in s'.callers && s'.callers[c].Ended? && s'.callers[c].ending.Got? ==>
        var order := s'.callers[c].ending.order;
        && order.providerOrderId.Some? && order.providerOrderId == s'.providerOrder
        && s'.providerCallers == {order.orderId}
  {
    RunKeeps(s, steps);
    var s' := Run(s, steps);
    if c in s'.callers && s'.callers[c].Ended? && s'.callers[c].ending.Got? {
      assert CallerOk(s', c, s'.callers[c]);
    }
  }

  /** A finished key is never taken up again, and its order stays as it is. */
  lemma {:induction false} FinishedForGood(s: System, steps: seq<Step>)
    requires Inv(s) && s.keyState.Some? && s.keyState != Some(IN_FLIGHT)
    ensures var s' := Run(s, steps);
      s'.keyState == s.keyState && s'.order == s.order && s'.providerOrder == s.providerOrder
    decreases |steps|
  {
    if steps != [] {
      var front := steps[..|steps| - 1];
      FinishedForGood(s, front);
      RunKeeps(s, front);
      var _ := ApplyKeeps(Run(s, front), steps[|steps| - 1]);
    }
  }

  /** Write-ahead: whenever the provider has been called, and so also whenever it has
      an order, the committed log holds the reservation entry and after it the intent
      entry of that very caller, and the key is on the ledger's book. */
  lemma WriteAhead(s: System, steps: seq<Step>, c: CallerId)
    requires Initial(s)
    ensures var s' := Run(s, steps);
      && (s'.providerOrder.Some? ==> s'.providerCallers != {})
      && (c in s'.providerCallers ==> WrittenAhead(s'.log, s.key, c) && s.key in s'.book)
  {
    RunKeeps(s, steps);
  }

  /** A key on the book has its two reservation rows, first of all its rows. */
  lemma ReservationRowsExist(entries: seq<Row>, book: Book, key: Ref)
    requires Refines(entries, book) && key in book
    ensures PairFor(ReservationRow, key) <= RowsOf(entries, key)
  {
    assert RowsOf(entries, key) == ExpectedRows(book, key);
  }

  ghost function CountPolls(steps: seq<Step>, c: CallerId): nat {
    if steps == [] then 0
    else CountPolls(steps[..|steps| - 1], c) + if steps[|steps| - 1] == Poll(c) then 1 else 0
  }

  /** The caller that a step is about, if it is about one. */
  function Actor(step: Step): Option<CallerId> {
    if step.LedgerMoves? || step.LogGrows? then None else Some(step.c)
  }

  lemma OthersUnmoved(s: System, step: Step, c: CallerId)
    requires c in s.callers && Actor(step) != Some(c)
    ensures c in Apply(s, step).callers && Apply(s, step).callers[c] == s.callers[c]
  {
  }

  lemma OwnStep(s: System, step: Step, c: CallerId)
    requires c in s.callers && (s.callers[c].Waiting? || s.callers[c].Ended?) && Actor(step) == Some(c) && !step.Poll?
    ensures var s' := Apply(s, step); c in s'.callers && (s'.callers[c] == s.callers[c] || s'.callers[c].Ended?)
  {
  }

  lemma OthersLeaveAlone(s: System, step: Step, c: CallerId)
    requires c in s.callers && (s.callers[c].Waiting? || s.callers[c].Ended?)
    ensures var s' := Apply(s, step);
      c in s'.callers && (s'.callers[c] == s.callers[c] || s'.callers[c].Ended? || step == Poll(c))
  {
    if Actor(step) != Some(c) { OthersUnmoved(s, step, c); } else if !step.Poll? { OwnStep(s, step, c); }
  }

  /** The wait is bounded: after forty polls a waiting caller has ended, whatever the
      owner of the attempt does. */
  lemma {:induction false} BoundedWait(s: System, steps: seq<Step>, c: CallerId, polls: nat)
    requires c in s.callers && s.callers[c] == Waiting(polls)
    ensures var s' := Run(s, steps);
      && c in s'.callers
      && (s'.callers[c].Ended? || (s'.callers[c].Waiting? && s'.callers[c].polls == polls + CountPolls(steps, c)))
    ensures polls + CountPolls(steps, c) >= MAX_POLLS > polls ==> Run(s, steps).callers[c].Ended?
    decreases |steps|
  {
    if steps != [] {
      var front := steps[..|steps| - 1];
      BoundedWait(s, front, c, polls);
      OthersLeaveAlone(Run(s, front), steps[|steps| - 1], c);
    }
  }

  /******* Callers on their own *******/

  lemma RunSnoc(s: System, steps: seq<Step>, step: Step) returns (s': System)
    ensures s' == Run(s, steps + [step]) == Apply(Run(s, steps), step)
  {
    assert (steps + [step])[..|steps|] == steps;
    s' := Run(s, steps + [step]);
  }

  ghost function ToLookup(c: CallerId, maxTotalMinor: int): seq<Step> {
    [Arrive(c)] + [PassGate(c, maxTotalMinor)] + [Look(c)]
  }

  /** The gate lets this key through and takes its reservation. */
  ghost predicate GateOpen(s: System, maxTotalMinor: int) {
    StepBook(s.book, Operation(ReservationRow, s.key.mandateId, s.key.intent.totalMinor, s.key, maxTotalMinor)).1
  }

  lemma GetsThroughGate(s: System, c: CallerId, maxTotalMinor: int) returns (s': System)
    requires c !in s.callers && GateOpen(s, maxTotalMinor)
    ensures s' == Run(s, [Arrive(c)] + [PassGate(c, maxTotalMinor)]) && At(s', c, Lookup)
    ensures s' == s.(callers := s'.callers, book := s'.book, log := s.log + [BudgetReserved(s.key)])
  {
    assert [] + [Arrive(c)] == [Arrive(c)];
    var arrived := RunSnoc(s, [], Arrive(c));
    s' := RunSnoc(s, [Arrive(c)], PassGate(c, maxTotalMinor));
  }

  /** What the first look at the key leads to. */
  lemma Looks(s: System, c: CallerId)
    requires At(s, c, Lookup)
    ensures var s' := Apply(s, Look(c));
      && c in s'.callers && s' == s.(callers := s'.callers)
      && (s.keyState.None? ==> s'.callers[c] == Claiming)
      && (s.keyState == Some(FAILED) ==> s'.callers[c] == Ended(AttemptFailed))
      && (s.keyState == Some(COMPLETED) && s.order.Some? ==> s'.callers[c] == Ended(Got(s.order.value, true)))
      && (s.keyState == Some(IN_FLIGHT) ==> s'.callers[c] == Waiting(0))
  {
  }

  lemma GetsToLookup(s: System, c: CallerId, maxTotalMinor: int) returns (s': System)
    requires c !in s.callers && GateOpen(s, maxTotalMinor)
    ensures s' == Run(s, ToLookup(c, maxTotalMinor)) && c in s'.callers
    ensures s' == s.(callers := s'.callers, book := s'.book, log := s.log + [BudgetReserved(s.key)])
    ensures s.keyState.None? ==> s'.callers[c] == Claiming
    ensures s.keyState == Some(COMPLETED) && s.order.Some? ==> s'.callers[c] == Ended(Got(s.order.value, true))
  {
    var passed := GetsThroughGate(s, c, maxTotalMinor);
    Looks(passed, c);
    s' := RunSnoc(s, [Arrive(c)] + [PassGate(c, maxTotalMinor)], Look(c));
  }

  /** A caller that comes after a finished attempt gets that order, as a duplicate, and
      the provider is left alone. */
  lemma LaterCallerGetsIt(s: System, c: CallerId, maxTotalMinor: int)
    requires c !in s.callers && GateOpen(s, maxTotalMinor) && s.keyState == Some(COMPLETED) && s.order.Some?
    ensures var s' := Run(s, ToLookup(c, maxTotalMinor));
      && At(s', c, Ended(Got(s.order.value, true)))
      && s'.order == s.order && s'.providerOrder == s.providerOrder && s'.providerCallers == s.providerCallers
  {
    var _ := GetsToLookup(s, c, maxTotalMinor);
  }

  /** A caller whose key is unused wins the claim and writes ahead. */
  lemma GetsToCall(s: System, steps: seq<Step>, c: CallerId, found: System) returns (s': System)
    requires found == Run(s, steps) && At(found, c, Claiming) && found.keyState.None? && found.claim.None?
    ensures s' == Run(s, steps + [Claim(c)] + [CommitIntent(c)])
    ensures At(s', c, Calling) && s'.keyState == Some(IN_FLIGHT) && s'.order == Some(Order(c, None, false))
    ensures s'.log == found.log + [PaymentIntent(found.key, c)]
    ensures s'.providerCallers == found.providerCallers && s'.providerOrder == found.providerOrder && s'.claim.None?
  {
    var claimed := RunSnoc(s, steps, Claim(c));
    s' := RunSnoc(s, steps + [Claim(c)], CommitIntent(c));
  }

  /** With the provider's answer it records the order. */
  lemma GetsOrder(s: System, steps: seq<Step>, c: CallerId, id: string, calling: System) returns (s': System)
    requires calling == Run(s, steps) && At(calling, c, Calling) && calling.order == Some(Order(c, None, false))
    ensures s' == Run(s, steps + [ProviderAnswers(c, id)] + [RecordOrder(c)])
    ensures At(s', c, Ended(Got(Order(c, Some(id), false), false))) && s'.keyState == Some(COMPLETED)
    ensures s'.order == Some(Order(c, Some(id), false)) && s'.providerOrder == Some(id) && s'.log == calling.log
  {
    var answered := RunSnoc(s, steps, ProviderAnswers(c, id));
    s' := RunSnoc(s, steps + [ProviderAnswers(c, id)], RecordOrder(c));
  }

  lemma GetsFailure(s: System, steps: seq<Step>, c: CallerId, calling: System) returns (s': System)
    requires calling == Run(s, steps) && At(calling, c, Calling) && calling.order == Some(Order(c, None, false))
    ensures s' == Run(s, steps + [ProviderFails(c, true)] + [RecordFailure(c)])
    ensures At(s', c, Ended(ProviderFailed)) && s'.keyState == Some(FAILED)
    ensures s'.order == Some(Order(c, None, true)) && s'.providerOrder == calling.providerOrder && s'.log == calling.log
  {
    var raised := RunSnoc(s, steps, ProviderFails(c, true));
    s' := RunSnoc(s, steps + [ProviderFails(c, true)], RecordFailure(c));
  }

  ghost function ToCall(c: CallerId, maxTotalMinor: int): seq<Step> {
    ToLookup(c, maxTotalMinor) + [Claim(c)] + [CommitIntent(c)]
  }

  /** A caller left alone with an unused key gets its own order, with the provider's id
      and both write-ahead entries. */
  lemma AloneGetsOrder(s: System, c: CallerId, maxTotalMinor: int, id: string)
    requires c !in s.callers && GateOpen(s, maxTotalMinor) && s.keyState.None? && s.claim.None?
    ensures var s' := Run(s, ToCall(c, maxTotalMinor) + [ProviderAnswers(c, id)] + [RecordOrder(c)]);
      && At(s', c, Ended(Got(Order(c, Some(id), false), false)))
      && s'.keyState == Some(COMPLETED) && s'.order == Some(Order(c, Some(id), false)) && s'.providerOrder == Some(id)
      && s'.log == s.log + [BudgetReserved(s.key)] + [PaymentIntent(s.key, c)]
  {
    var found := GetsToLookup(s, c, maxTotalMinor);
    var calling := GetsToCall(s, ToLookup(c, maxTotalMinor), c, found);
    var _ := GetsOrder(s, ToCall(c, maxTotalMinor), c, id, calling);
  }

  /** If the provider fails it leaves a failed key and a failed order behind. */
  lemma AloneFails(s: System, c: CallerId, maxTotalMinor: int)
    requires c !in s.callers && GateOpen(s, maxTotalMinor) && s.keyState.None? && s.claim.None?
    ensures var s' := Run(s, ToCall(c, maxTotalMinor) + [ProviderFails(c, true)] + [RecordFailure(c)]);
      && At(s', c, Ended(ProviderFailed))
      && s'.keyState == Some(FAILED) && s'.order == Some(Order(c, None, true)) && s'.providerOrder == s.providerOrder
      && s'.log == s.log + [BudgetReserved(s.key)] + [PaymentIntent(s.key, c)]
  {
    var found := GetsToLookup(s, c, maxTotalMinor);
    var calling := GetsToCall(s, ToLookup(c, maxTotalMinor), c, found);
    var _ := GetsFailure(s, ToCall(c, maxTotalMinor), c, calling);
  }

  /** A rolled-back claim leaves the tables as they were and the key free again, and its
      caller starts over; so does the owner whose second transaction fails. */
  lemma RollbackStartsOver(s: System, c: CallerId)
    requires c in s.callers
    ensures s.callers[c] == Claimed && s.claim == Some(c) ==>
      Apply(s, RollBack(c)) == s.(callers := s.callers[c := Lookup], claim := None)
    ensures s.callers[c].GotProviderOrder? || s.callers[c].ProviderRaised? ==>
      Apply(s, RetryRecord(c)) == s.(callers := s.callers[c := Lookup])
  {
  }

  /** A poll ends the wait with what the finished key says. */
  lemma PollLearns(s: System, c: CallerId)
    requires c in s.callers && s.callers[c].Waiting?
    ensures var after := Apply(s, Poll(c)).callers[c];
      && (s.keyState == Some(FAILED) ==> after == Ended(AttemptFailed))
      && (s.keyState == Some(COMPLETED) && s.order.Some? ==> after == Ended(Got(s.order.value, true)))
      && (s.keyState == Some(IN_FLIGHT) ==>
            after == if s.callers[c].polls + 1 < 40 then Waiting(s.callers[c].polls + 1) else Ended(TimedOut))
  {
  }

  /******* The waiting loop as written *******/

  /** What one poll of the two tables finds. */
  datatype Sight = Sight(keyState: Option<KeyState>, order: Option<Order>)

  /** `_await_in_flight_completion` with its two default times: the first poll to see a
      finished key among forty ends the wait, and a timeout if there is none. */
  method AwaitInFlightCompletion(sight: nat -> Sight) returns (ending: Ending, polls: nat)
    ensures 0 < polls <= 40
    ensures forall i :: 0 <= i < polls - 1 ==>
      sight(i).keyState != Some(FAILED) && (sight(i).keyState != Some(COMPLETED) || sight(i).order.None?)
    ensures var last := sight(polls - 1);
      if last.keyState == Some(FAILED) then ending == AttemptFailed
      else if last.keyState == Some(COMPLETED) && last.order.Some? then ending == Got(last.order.value, true)
      else ending == TimedOut && polls == 40
  {
    var maxWait, pollInterval, waited := 2.0, 0.05, 0.0;
    polls := 0;
    while waited < maxWait
      invariant 0 <= polls <= MAX_POLLS && waited == polls as real * pollInterval
      invariant forall i :: 0 <= i < polls ==>
        sight(i).keyState != Some(FAILED) && (sight(i).keyState != Some(COMPLETED) || sight(i).order.None?)
      decreases MAX_POLLS - polls
    {
      var record := sight(polls);
      polls := polls + 1;
      if record.keyState == Some(COMPLETED) && record.order.Some? { return Got(record.order.value, true), polls; }
      if record.keyState == Some(FAILED) { return AttemptFailed, polls; }
      waited := waited + pollInterval;
    }
    return TimedOut, polls;
  }
}
