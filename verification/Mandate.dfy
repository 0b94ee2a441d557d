/** The mandate lifecycle (src/actl/domain/mandate/state_machine.py). */
module Mandate {
  import opened Digests

  datatype Status = DRAFT | PENDING_CONFIRM | LOCKED | EXECUTING | SETTLED | COMPENSATED | REVOKED | EXPIRED

  datatype Trigger = DraftOk | Confirm | Propose | CapturedAll | Failure | Revoke | Ttl

  /** The frozen inputs of the guards; an absent time is `None`. */
  datatype GuardContext = GuardContext(
    now: Option<int>,
    expiresAt: Option<int>,
    txnCount: int,
    maxTransactions: int,
    reservedMinor: int,
    capturedMinor: int,
    allCompensationsConfirmed: bool,
    confirmationMatchesDraftHash: bool,
    allRequiredBoundsPresent: bool)

  const DEFAULT_CONTEXT := GuardContext(None, None, 0, 1, 0, 0, true, true, true)

  /** `fromStatus` is `None` for a transition that leaves every status. */
  datatype Transition = Transition(fromStatus: Option<Status>, trigger: Trigger, toStatus: Status, guarded: bool)

  const TRANSITIONS: seq<Transition> := [
    Transition(Some(DRAFT), DraftOk, PENDING_CONFIRM, true),
    Transition(Some(PENDING_CONFIRM), Confirm, LOCKED, true),
    Transition(Some(LOCKED), Propose, EXECUTING, true),
    Transition(Some(EXECUTING), CapturedAll, SETTLED, true),
    Transition(Some(EXECUTING), Failure, COMPENSATED, true),
    Transition(None, Revoke, REVOKED, false),
    Transition(Some(PENDING_CONFIRM), Ttl, EXPIRED, false)]

  predicate Guard(trigger: Trigger, ctx: GuardContext) {
    match trigger
    case DraftOk => ctx.allRequiredBoundsPresent
    case Confirm => ctx.confirmationMatchesDraftHash
    case Propose =>
      && ctx.now.Some? && ctx.expiresAt.Some?
      && ctx.now.value < ctx.expiresAt.value && ctx.txnCount < ctx.maxTransactions
    case CapturedAll => ctx.reservedMinor == ctx.capturedMinor
    case Failure => ctx.allCompensationsConfirmed
    case _ => true
  }

  /** The search through the table, from row i on. */
  function Search(i: nat, current: Status, trigger: Trigger, ctx: GuardContext): Result<Status>
    requires i <= |TRANSITIONS|
    decreases |TRANSITIONS| - i
  {
    if i == |TRANSITIONS| then Err("InvalidTransition")
    else
      var t := TRANSITIONS[i];
      if t.trigger != trigger || (t.fromStatus.Some? && t.fromStatus.value != current)
      then Search(i + 1, current, trigger, ctx)
      else if t.guarded && !Guard(trigger, ctx) then Err("GuardRejected")
      else Ok(t.toStatus)
  }

  function Fire(current: Status, trigger: Trigger, ctx: GuardContext): Result<Status> {
    Search(0, current, trigger, ctx)
  }

  /** The table as a relation. */
  ghost function Target(current: Status, trigger: Trigger): Option<Status> {
    match (current, trigger)
    case (DRAFT, DraftOk) => Some(PENDING_CONFIRM)
    case (PENDING_CONFIRM, Confirm) => Some(LOCKED)
    case (LOCKED, Propose) => Some(EXECUTING)
    case (EXECUTING, CapturedAll) => Some(SETTLED)
    case (EXECUTING, Failure) => Some(COMPENSATED)
    case (PENDING_CONFIRM, Ttl) => Some(EXPIRED)
    case (_, Revoke) => Some(REVOKED)
    case _ => None
  }

  /** One row of the table is passed over, refused by its guard, or taken. */
  lemma SearchRow(i: nat, current: Status, trigger: Trigger, ctx: GuardContext)
    requires i < |TRANSITIONS|
    ensures var t := TRANSITIONS[i];
      Search(i, current, trigger, ctx) ==
        if t.trigger != trigger || (t.fromStatus.Some? && t.fromStatus.value != current) then Search(i + 1, current, trigger, ctx)
        else if t.guarded && !Guard(trigger, ctx) then Err("GuardRejected")
        else Ok(t.toStatus)
  {
  }

  /** The rows for leaving EXECUTING, for revoking, and for expiry. */
  lemma SearchLate(current: Status, trigger: Trigger, ctx: GuardContext)
    ensures Search(3, current, trigger, ctx) ==
      if trigger == DraftOk || trigger == Confirm || trigger == Propose then Err("InvalidTransition")
      else match Target(current, trigger)
        case None => Err("InvalidTransition")
        case Some(to) => if Guard(trigger, ctx) then Ok(to) else Err("GuardRejected")
  {
    SearchRow(3, current, trigger, ctx);
    SearchRow(4, current, trigger, ctx);
    SearchRow(5, current, trigger, ctx);
    SearchRow(6, current, trigger, ctx);
    assert Search(7, current, trigger, ctx) == Err("InvalidTransition");
  }

  /** The first row with the trigger decides, and each pair has at most one row. */
  lemma FireIsTarget(current: Status, trigger: Trigger, ctx: GuardContext)
    ensures Fire(current, trigger, ctx) ==
      match Target(current, trigger)
      case None => Err("InvalidTransition")
      case Some(to) => if Guard(trigger, ctx) then Ok(to) else Err("GuardRejected")
  {
    SearchRow(0, current, trigger, ctx);
    SearchRow(1, current, trigger, ctx);
    SearchRow(2, current, trigger, ctx);
    SearchLate(current, trigger, ctx);
  }

  /** Each transition with its guard written out; any other pair is an invalid transition. */
  lemma FireSays(current: Status, trigger: Trigger, ctx: GuardContext)
    ensures trigger == Revoke ==> Fire(current, trigger, ctx) == Ok(REVOKED)
    ensures current == DRAFT && trigger == DraftOk ==>
      Fire(current, trigger, ctx) == if ctx.allRequiredBoundsPresent then Ok(PENDING_CONFIRM) else Err("GuardRejected")
    ensures current == PENDING_CONFIRM && trigger == Confirm ==>
      Fire(current, trigger, ctx) == if ctx.confirmationMatchesDraftHash then Ok(LOCKED) else Err("GuardRejected")
    ensures current == PENDING_CONFIRM && trigger == Ttl ==> Fire(current, trigger, ctx) == Ok(EXPIRED)
    ensures current == LOCKED && trigger == Propose ==>
      Fire(current, trigger, ctx) ==
        if ctx.now.Some? && ctx.expiresAt.Some? && ctx.now.value < ctx.expiresAt.value && ctx.txnCount < ctx.maxTransactions
        then Ok(EXECUTING) else Err("GuardRejected")
    ensures current == EXECUTING && trigger == CapturedAll ==>
      Fire(current, trigger, ctx) == if ctx.capturedMinor == ctx.reservedMinor then Ok(SETTLED) else Err("GuardRejected")
    ensures current == EXECUTING && trigger == Failure ==>
      Fire(current, trigger, ctx) == if ctx.allCompensationsConfirmed then Ok(COMPENSATED) else Err("GuardRejected")
    ensures Fire(current, trigger, ctx) != Err("InvalidTransition") ==>
      || trigger == Revoke || (current == DRAFT && trigger == DraftOk) || (current == LOCKED && trigger == Propose)
      || (current == PENDING_CONFIRM && (trigger == Confirm || trigger == Ttl))
      || (current == EXECUTING && (trigger == CapturedAll || trigger == Failure))
  {
    FireIsTarget(current, trigger, ctx);
  }

  /******* Lifecycles *******/

  /** A lifecycle: the statuses a mandate takes, each by one transition. */
  ghost predicate Lifecycle(statuses: seq<Status>) {
    forall i :: 0 < i < |statuses| ==> Reachable(statuses[i - 1], statuses[i])
  }

  ghost predicate Reachable(from: Status, to: Status) {
    exists trigger, ctx :: Fire(from, trigger, ctx) == Ok(to)
  }

  /** How far along a status is; nothing ever goes back. */
  ghost function Rank(s: Status): nat {
    match s
    case DRAFT => 0
    case PENDING_CONFIRM => 1
    case LOCKED => 2
    case EXECUTING => 3
    case SETTLED => 4
    case COMPENSATED => 4
    case EXPIRED => 4
    case REVOKED => 5
  }

  /** Further along, or both at the sink. */
  ghost predicate Advances(from: Status, to: Status) {
    Rank(from) < Rank(to) || (from == REVOKED && to == REVOKED)
  }

  lemma TargetAdvances(from: Status, trigger: Trigger)
    ensures Target(from, trigger).Some? ==> Advances(from, Target(from, trigger).value)
  {
  }

  lemma FireAdvances(from: Status, trigger: Trigger, ctx: GuardContext, to: Status)
    requires Fire(from, trigger, ctx) == Ok(to)
    ensures Advances(from, to)
  {
    FireIsTarget(from, trigger, ctx);
    TargetAdvances(from, trigger);
  }

  lemma ReachableAdvances(from: Status, to: Status)
    requires Reachable(from, to)
    ensures Advances(from, to)
  {
    var trigger, ctx :| Fire(from, trigger, ctx) == Ok(to);
    FireAdvances(from, trigger, ctx, to);
  }

  lemma {:induction false} AdvancesChain(statuses: seq<Status>, i: nat, j: nat)
    requires i < j < |statuses| && forall k :: 0 < k < |statuses| ==> Advances(statuses[k - 1], statuses[k])
    ensures Advances(statuses[i], statuses[j])
    decreases j - i
  {
    if i < j - 1 { AdvancesChain(statuses, i, j - 1); }
  }

  /** Authority is never regained: a later status is further along, or both are
      REVOKED.  So a revoked mandate stays revoked. */
  lemma NeverWidens(statuses: seq<Status>, i: nat, j: nat)
    requires Lifecycle(statuses) && i < j < |statuses|
    ensures Rank(statuses[i]) < Rank(statuses[j]) || (statuses[i] == REVOKED && statuses[j] == REVOKED)
  {
    forall k | 0 < k < |statuses| ensures Advances(statuses[k - 1], statuses[k]) {
      ReachableAdvances(statuses[k - 1], statuses[k]);
    }
    AdvancesChain(statuses, i, j);
  }

  /** Contrary to the module's own comment, not every trigger raises on a revoked
      mandate: a second revocation is accepted and changes nothing. */
  lemma RevokedIsASink(trigger: Trigger, ctx: GuardContext)
    ensures Fire(REVOKED, trigger, ctx) == if trigger == Revoke then Ok(REVOKED) else Err("InvalidTransition")
  {
    FireIsTarget(REVOKED, trigger, ctx);
  }
}
