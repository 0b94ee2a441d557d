/** The circuit breaker (src/actl/platform/breaker.py). */
module Breaker {
  import opened Digests

  datatype BreakerState = CLOSED | OPEN | HALF_OPEN

  /** How a call ends; a cancelled one is neither a success nor a failure. */
  datatype Outcome = Succeeded | Failed | Cancelled

  /** The fields that change. */
  datatype Fields = Fields(state: BreakerState, failures: nat, openedAt: Option<int>, trialInFlight: bool)

  const FRESH := Fields(CLOSED, 0, None, false)

  datatype Settings = Settings(failureThreshold: int, recoveryTimeout: int)

  /** The `state` property. */
  function StateAt(b: Fields, settings: Settings, now: int): BreakerState {
    if b.state == OPEN && b.openedAt.Some? && now - b.openedAt.value >= settings.recoveryTimeout then HALF_OPEN else b.state
  }

  predicate Refuses(b: Fields, settings: Settings, now: int) {
    var s := StateAt(b, settings, now);
    s == OPEN || (s == HALF_OPEN && b.trialInFlight)
  }

  /** The fields once a call has been let through. */
  function Started(b: Fields, settings: Settings, now: int): Fields {
    if StateAt(b, settings, now) == HALF_OPEN then b.(trialInFlight := true) else b
  }

  /** The fields once it has ended. */
  function Finished(b: Fields, settings: Settings, outcome: Outcome, now: int): Fields {
    match outcome
    case Succeeded => Fields(CLOSED, 0, None, false)
    case Cancelled => b.(trialInFlight := false)
    case Failed =>
      var failures := b.failures + 1;
      if failures >= settings.failureThreshold || b.state == OPEN
      then Fields(OPEN, failures, Some(now), false)
      else Fields(b.state, failures, b.openedAt, false)
  }

  class CircuitBreaker {
    const failureThreshold: int
    const recoveryTimeout: int
    var state: BreakerState
    var consecutiveFailures: nat
    var openedAt: Option<int>
    var halfOpenTrialInFlight: bool

    function View(): Fields
      reads this
    {
      Fields(state, consecutiveFailures, openedAt, halfOpenTrialInFlight)
    }

    function Config(): Settings {
      Settings(failureThreshold, recoveryTimeout)
    }

    constructor (failureThreshold: int, recoveryTimeout: int)
      ensures View() == FRESH && Config() == Settings(failureThreshold, recoveryTimeout)
    {
      this.failureThreshold, this.recoveryTimeout := failureThreshold, recoveryTimeout;
      state, consecutiveFailures, openedAt, halfOpenTrialInFlight := CLOSED, 0, None, false;
    }

    method OnSuccess()
      modifies this
      ensures View() == Finished(old(View()), Config(), Succeeded, 0).(trialInFlight := old(halfOpenTrialInFlight))
    {
      consecutiveFailures := 0;
      state := CLOSED;
      openedAt := None;
    }

    method OnFailure(now: int)
      modifies this
      ensures View() == Finished(old(View()), Config(), Failed, now).(trialInFlight := old(halfOpenTrialInFlight))
    {
      consecutiveFailures := consecutiveFailures + 1;
      if consecutiveFailures >= failureThreshold || state == OPEN {
        state := OPEN;
        openedAt := Some(now);
      }
    }

    /** The part of `call` before the wrapped function. */
    method Enter(now: int) returns (refused: bool)
      modifies this
      ensures refused == Refuses(old(View()), Config(), now)
      ensures View() == if refused then old(View()) else Started(old(View()), Config(), now)
    {
      var current := StateAt(View(), Config(), now);
      if current == OPEN { return true; }
      if current == HALF_OPEN {
        if halfOpenTrialInFlight { return true; }
        halfOpenTrialInFlight := true;
      }
      return false;
    }

    /** The part of `call` after the wrapped function. */
    method Leave(outcome: Outcome, now: int)
      modifies this
      ensures View() == Finished(old(View()), Config(), outcome, now)
    {
      match outcome {
        case Succeeded => OnSuccess();
        case Failed => OnFailure(now);
        case Cancelled =>
      }
      halfOpenTrialInFlight := false;
    }

    /** One whole call with no other in between. */
    method Call(startedAt: int, outcome: Outcome, endedAt: int) returns (refused: bool)
      modifies this
      ensures (View(), refused) == CallAlone(old(View()), Config(), CallRecord(startedAt, outcome, endedAt))
    {
      refused := Enter(startedAt);
      if !refused { Leave(outcome, endedAt); }
    }
  }

  datatype CallRecord = CallRecord(startedAt: int, outcome: Outcome, endedAt: int)

  function CallAlone(b: Fields, settings: Settings, call: CallRecord): (Fields, bool) {
    if Refuses(b, settings, call.startedAt) then (b, true)
    else (Finished(Started(b, settings, call.startedAt), settings, call.outcome, call.endedAt), false)
  }

  /******* The specification: what the history says *******/

  /** An ended call. */
  datatype Event = Event(outcome: Outcome, at: int)

  /** Failures since the last success. */
  ghost function Trailing(history: seq<Event>): nat {
    if history == [] then 0
    else
      var last := history[|history| - 1];
      match last.outcome
      case Succeeded => 0
      case Failed => Trailing(history[..|history| - 1]) + 1
      case Cancelled => Trailing(history[..|history| - 1])
  }

  /** When the last failure was, if any follows the last success. */
  ghost function LastFailure(history: seq<Event>): Option<int> {
    if history == [] then None
    else
      var last := history[|history| - 1];
      match last.outcome
      case Succeeded => None
      case Failed => Some(last.at)
      case Cancelled => LastFailure(history[..|history| - 1])
  }

  ghost function Trip(settings: Settings): nat {
    if settings.failureThreshold < 1 then 1 else settings.failureThreshold
  }

  /** Enough failures follow the last success, and the last of them is recent. */
  ghost predicate ShouldRefuse(settings: Settings, history: seq<Event>, now: int) {
    && Trailing(history) >= Trip(settings)
    && LastFailure(history).Some? && now - LastFailure(history).value < settings.recoveryTimeout
  }

  /** The fields, but for the trial flag, are a function of the history. */
  ghost predicate Agrees(b: Fields, settings: Settings, history: seq<Event>) {
    && b.failures == Trailing(history)
    && b.state == (if Trailing(history) >= Trip(settings) then OPEN else CLOSED)
    && b.openedAt == (if Trailing(history) >= Trip(settings) then LastFailure(history) else None)
  }

  lemma {:induction false} TrailingHasLast(history: seq<Event>)
    ensures Trailing(history) > 0 <==> LastFailure(history).Some?
  {
    if history != [] { TrailingHasLast(history[..|history| - 1]); }
  }

  lemma HistoryGrows(history: seq<Event>, event: Event)
    ensures Trailing(history + [event]) ==
      if event.outcome == Succeeded then 0 else Trailing(history) + (if event.outcome == Failed then 1 else 0)
    ensures LastFailure(history + [event]) ==
      if event.outcome == Succeeded then None else if event.outcome == Failed then Some(event.at) else LastFailure(history)
  {
    assert (history + [event])[..|history|] == history;
  }

  lemma FinishAgrees(b: Fields, settings: Settings, history: seq<Event>, outcome: Outcome, now: int)
    requires Agrees(b, settings, history)
    ensures Agrees(Finished(b, settings, outcome, now), settings, history + [Event(outcome, now)])
  {
    HistoryGrows(history, Event(outcome, now));
  }

  lemma RefusesAgrees(b: Fields, settings: Settings, history: seq<Event>, now: int)
    requires Agrees(b, settings, history)
    ensures Refuses(b, settings, now) <==>
      ShouldRefuse(settings, history, now) || (Trailing(history) >= Trip(settings) && b.trialInFlight)
  {
    TrailingHasLast(history);
  }

  /******* Sequential runs *******/

  ghost function RunAlone(settings: Settings, calls: seq<CallRecord>): Fields {
    if calls == [] then FRESH
    else CallAlone(RunAlone(settings, calls[..|calls| - 1]), settings, calls[|calls| - 1]).0
  }

  /** The history by the specification alone: refused calls leave no trace. */
  ghost function HistoryOf(settings: Settings, calls: seq<CallRecord>): seq<Event> {
    if calls == [] then []
    else
      var before, last := HistoryOf(settings, calls[..|calls| - 1]), calls[|calls| - 1];
      if ShouldRefuse(settings, before, last.startedAt) then before else before + [Event(last.outcome, last.endedAt)]
  }

  lemma {:induction false} RunAloneAgrees(settings: Settings, calls: seq<CallRecord>)
    ensures Agrees(RunAlone(settings, calls), settings, HistoryOf(settings, calls))
    ensures !RunAlone(settings, calls).trialInFlight
    decreases |calls|
  {
    if calls != [] {
      var front, last := calls[..|calls| - 1], calls[|calls| - 1];
      RunAloneAgrees(settings, front);
      var b, history := RunAlone(settings, front), HistoryOf(settings, front);
      RefusesAgrees(b, settings, history, last.startedAt);
      FinishAgrees(Started(b, settings, last.startedAt), settings, history, last.outcome, last.endedAt);
    }
  }

  /** In every sequential run a call is refused exactly when enough failures follow
      the last success and the last of them is less than the timeout ago. */
  lemma RefusedByHistory(settings: Settings, calls: seq<CallRecord>, next: CallRecord)
    ensures CallAlone(RunAlone(settings, calls), settings, next).1
       <==> ShouldRefuse(settings, HistoryOf(settings, calls), next.startedAt)
  {
    RunAloneAgrees(settings, calls);
    RefusesAgrees(RunAlone(settings, calls), settings, HistoryOf(settings, calls), next.startedAt);
  }

  /******* Overlapping calls *******/

  type CallId = nat

  datatype Step = Enter(c: CallId, now: int) | Leave(c: CallId, outcome: Outcome, now: int)

  /** The breaker with the calls inside, those of them let in as trials, and what has
      ended so far. */
  datatype System = System(fields: Fields, inside: set<CallId>, trials: set<CallId>, history: seq<Event>)

  const NEW := System(FRESH, {}, {}, [])

  function Apply(s: System, settings: Settings, step: Step): System {
    match step
    case Enter(c, now) =>
      if c in s.inside || Refuses(s.fields, settings, now) then s
      else
        s.(
          fields := Started(s.fields, settings, now), inside := s.inside + {c},
          trials := if StateAt(s.fields, settings, now) == HALF_OPEN then s.trials + {c} else s.trials)
    case Leave(c, outcome, now) =>
      if c !in s.inside then s
      else
        System(
          Finished(s.fields, settings, outcome, now), s.inside - {c}, s.trials - {c}, s.history + [Event(outcome, now)])
  }

  function Run(settings: Settings, steps: seq<Step>): System {
    if steps == [] then NEW
    else Apply(Run(settings, steps[..|steps| - 1]), settings, steps[|steps| - 1])
  }

  /** A trial was let in, and no call has ended since. */
  ghost predicate TrialSinceEnd(settings: Settings, steps: seq<Step>) {
    if steps == [] then false
    else
      var front, last := steps[..|steps| - 1], steps[|steps| - 1];
      var before, after := Run(settings, front), Run(settings, steps);
      |after.history| == |before.history| && (TrialSinceEnd(settings, front) || before.trials < after.trials)
  }

  lemma StepAgrees(s: System, settings: Settings, step: Step)
    requires Agrees(s.fields, settings, s.history) && s.trials <= s.inside
    ensures var s' := Apply(s, settings, step);
      && Agrees(s'.fields, settings, s'.history) && s'.trials <= s'.inside
      && (|s'.history| != |s.history| ==> !s'.fields.trialInFlight)
      && (|s'.history| == |s.history| ==>
            (s'.fields.trialInFlight <==> s.fields.trialInFlight || s.trials < s'.trials))
  {
    if step.Leave? && step.c in s.inside { FinishAgrees(s.fields, settings, s.history, step.outcome, step.now); }
  }

  lemma {:induction false} RunAgrees(settings: Settings, steps: seq<Step>)
    ensures var s := Run(settings, steps);
      && Agrees(s.fields, settings, s.history) && s.trials <= s.inside
      && (s.fields.trialInFlight <==> TrialSinceEnd(settings, steps))
    decreases |steps|
  {
    if steps != [] {
      var front, last := steps[..|steps| - 1], steps[|steps| - 1];
      RunAgrees(settings, front);
      StepAgrees(Run(settings, front), settings, last);
    }
  }

  /** However calls overlap, the breaker is OPEN just when that many failures follow
      the last success in the order of their ends, and just then `openedAt` is set, to
      the last of them.  A call is refused exactly if that is less than the timeout ago,
      or if a trial was let in since the last end of any call. */
  lemma OverlappingAgrees(settings: Settings, steps: seq<Step>, now: int)
    ensures var s := Run(settings, steps);
      && (s.fields.state == OPEN <==> s.fields.failures >= Trip(settings))
      && (s.fields.state == OPEN <==> s.fields.openedAt.Some?)
      && Agrees(s.fields, settings, s.history)
      && (Refuses(s.fields, settings, now) <==>
            ShouldRefuse(settings, s.history, now)
            || (Trailing(s.history) >= Trip(settings) && TrialSinceEnd(settings, steps)))
  {
    RunAgrees(settings, steps);
    var s := Run(settings, steps);
    TrailingHasLast(s.history);
    RefusesAgrees(s.fields, settings, s.history, now);
  }

  /******* One trial at a time? *******/

  /** This call is let in, as a trial. */
  ghost predicate LetInAsTrial(settings: Settings, s: System, c: CallId, now: int) {
    c !in s.inside && !Refuses(s.fields, settings, now) && Trailing(s.history) >= Trip(settings)
  }

  ghost predicate StaysIn(c: CallId, more: seq<Step>) {
    forall i :: 0 <= i < |more| ==> !(more[i].Leave? && more[i].c == c)
  }

  lemma RunSnoc(settings: Settings, steps: seq<Step>, step: Step)
    ensures Run(settings, steps + [step]) == Apply(Run(settings, steps), settings, step)
  {
    assert (steps + [step])[..|steps|] == steps;
  }

  /** How a trial enters. */
  lemma TrialEnters(settings: Settings, steps: seq<Step>, c: CallId, now: int)
    requires LetInAsTrial(settings, Run(settings, steps), c, now)
    ensures var s, s' := Run(settings, steps), Run(settings, steps + [Enter(c, now)]);
      && s' == s.(fields := s.fields.(trialInFlight := true), inside := s.inside + {c}, trials := s.trials + {c})
      && s'.fields.state == OPEN
  {
    RunSnoc(settings, steps, Enter(c, now));
    OverlappingAgrees(settings, steps, now);
  }

  /** If nobody else is inside, a trial is alone until it ends. */
  lemma {:induction false} LoneTrial(settings: Settings, steps: seq<Step>, c: CallId, now: int, more: seq<Step>)
    requires LetInAsTrial(settings, Run(settings, steps), c, now) && Run(settings, steps).inside == {} && StaysIn(c, more)
    ensures Run(settings, steps + [Enter(c, now)] + more) == Run(settings, steps + [Enter(c, now)])
    ensures Run(settings, steps + [Enter(c, now)] + more).trials == {c}
    decreases |more|
  {
    var entered := steps + [Enter(c, now)];
    TrialEnters(settings, steps, c, now);
    RunAgrees(settings, steps);
    if more == [] {
      assert entered + more == entered;
    } else {
      var front, last := more[..|more| - 1], more[|more| - 1];
      LoneTrial(settings, steps, c, now, front);
      assert entered + more == (entered + front) + [last];
      RunSnoc(settings, entered + front, last);
    }
  }

  /** If another call is still inside, its end lets the next trial in beside the first. */
  lemma SecondTrial(settings: Settings, steps: seq<Step>, c: CallId, now: int, earlier: CallId, next: CallId)
    requires LetInAsTrial(settings, Run(settings, steps), c, now) && earlier in Run(settings, steps).inside
    requires next != c && next !in Run(settings, steps).inside
    ensures var more := [Leave(earlier, Cancelled, now)] + [Enter(next, now)];
      StaysIn(c, more) && {c, next} <= Run(settings, steps + [Enter(c, now)] + more).trials
  {
    var entered := steps + [Enter(c, now)];
    TrialEnters(settings, steps, c, now);
    RunSnoc(settings, entered, Leave(earlier, Cancelled, now));
    RunSnoc(settings, entered + [Leave(earlier, Cancelled, now)], Enter(next, now));
    var more := [Leave(earlier, Cancelled, now)] + [Enter(next, now)];
    assert entered + more == entered + [Leave(earlier, Cancelled, now)] + [Enter(next, now)];
  }

  /** "Exactly one trial call" is kept for a trial, whatever follows until it ends, if
      and only if no other call is inside when it is let in. */
  lemma OneTrialIsExact(settings: Settings, steps: seq<Step>, c: CallId, now: int, next: CallId)
    requires LetInAsTrial(settings, Run(settings, steps), c, now)
    requires next != c && next !in Run(settings, steps).inside
    ensures (forall more :: StaysIn(c, more) ==> Run(settings, steps + [Enter(c, now)] + more).trials == {c})
       <==> Run(settings, steps).inside == {}
  {
    if Run(settings, steps).inside == {} {
      forall more | StaysIn(c, more) ensures Run(settings, steps + [Enter(c, now)] + more).trials == {c} {
        LoneTrial(settings, steps, c, now, more);
      }
    } else {
      var earlier :| earlier in Run(settings, steps).inside;
      SecondTrial(settings, steps, c, now, earlier, next);
      var more := [Leave(earlier, Cancelled, now)] + [Enter(next, now)];
      assert StaysIn(c, more) && next in Run(settings, steps + [Enter(c, now)] + more).trials;
    }
  }

  /** Such a trial is within reach: of two calls inside, one fails, and the timeout passes. */
  lemma CrowdedTrialExists() returns (settings: Settings, steps: seq<Step>, now: int)
    ensures LetInAsTrial(settings, Run(settings, steps), 2, now) && 1 in Run(settings, steps).inside
  {
    settings, now := Settings(1, 30), 30;
    steps := [] + [Enter(0, 0)] + [Enter(1, 0)] + [Leave(0, Failed, 0)];
    assert Run(settings, []) == NEW;
    RunSnoc(settings, [], Enter(0, 0));
    RunSnoc(settings, [] + [Enter(0, 0)], Enter(1, 0));
    assert Run(settings, [] + [Enter(0, 0)] + [Enter(1, 0)]) == System(FRESH, {0, 1}, {}, []);
    RunSnoc(settings, [] + [Enter(0, 0)] + [Enter(1, 0)], Leave(0, Failed, 0));
    HistoryGrows([], Event(Failed, 0));
    assert Run(settings, steps) == System(Fields(OPEN, 1, Some(0), false), {1}, {}, [] + [Event(Failed, 0)]);
  }
}
