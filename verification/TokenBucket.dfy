/** The rate limiter (src/actl/infrastructure/cache/rate_limit.py), over exact reals.

The stored key may disappear once it has been idle for its time to live.
*/
module TokenBucket {
  import opened Digests

  const TTL := 120.0
  const EPSILON := 0.0000001

  /** The two fields of the Redis hash. */
  datatype Stored = Stored(tokens: real, ts: real)

  /** One call; `gone` says that Redis has dropped the key by then. */
  datatype Call = Call(now: real, requested: int, gone: bool)

  function Min(a: real, b: real): real {
    if a <= b then a else b
  }

  function RefillPerSecond(limitPerMin: nat): real {
    limitPerMin as real / 60.0
  }

  /** The balance a call finds. */
  function Refilled(limitPerMin: nat, stored: Option<Stored>, now: real): real {
    match stored
    case None => limitPerMin as real
    case Some(s) =>
      var elapsed := if now - s.ts < 0.0 then 0.0 else now - s.ts;
      Min(limitPerMin as real, s.tokens + elapsed * RefillPerSecond(limitPerMin))
  }

  /** What the script answers and stores. */
  function Acquire(limitPerMin: nat, stored: Option<Stored>, now: real, requested: int): (Option<Stored>, bool) {
    var tokens := Refilled(limitPerMin, stored, now);
    if tokens + EPSILON >= requested as real
    then (Some(Stored(tokens - requested as real, now)), true)
    else (Some(Stored(tokens, now)), false)
  }

  class TokenBucketLimiter {
    const limitPerMin: nat
    var stored: Option<Stored>

    constructor (limitPerMin: nat)
      ensures this.limitPerMin == limitPerMin && stored == None
    {
      this.limitPerMin, stored := limitPerMin, None;
    }

    method TryAcquire(now: real, requested: int) returns (allowed: bool)
      modifies this
      ensures (stored, allowed) == Acquire(limitPerMin, old(stored), now, requested)
      ensures stored.Some? && stored.value.ts == now
      ensures old(stored).None? ==>
        (allowed <==> requested <= limitPerMin)
        && stored.value.tokens == (limitPerMin - if allowed then requested else 0) as real
      ensures old(stored).Some? ==>
        var waited := if now < old(stored).value.ts then 0.0 else now - old(stored).value.ts;
        var refilled := old(stored).value.tokens + waited * (limitPerMin as real / 60.0);
        var tokens := if refilled > limitPerMin as real then limitPerMin as real else refilled;
        && (allowed <==> requested as real <= tokens + 0.0000001)
        && stored.value.tokens == if allowed then tokens - requested as real else tokens
    {
      var capacity, refill := limitPerMin as real, RefillPerSecond(limitPerMin);
      var tokens, lastTs := capacity, now;
      if stored.Some? { tokens, lastTs := stored.value.tokens, stored.value.ts; }
      var elapsed := now - lastTs;
      if elapsed < 0.0 { elapsed := 0.0; }
      assert stored.None? ==> elapsed == 0.0 && elapsed * refill == 0.0;
      tokens := Min(capacity, tokens + elapsed * refill);
      assert tokens == Refilled(limitPerMin, stored, now);
      allowed := false;
      if tokens + EPSILON >= requested as real {
        tokens := tokens - requested as real;
        allowed := true;
      }
      stored := Some(Stored(tokens, now));
    }
  }

  /******* Runs *******/

  /** The key as a call finds it. */
  function Found(stored: Option<Stored>, call: Call): Option<Stored> {
    if call.gone then None else stored
  }

  function Serve(limitPerMin: nat, stored: Option<Stored>, call: Call): (Option<Stored>, bool) {
    Acquire(limitPerMin, Found(stored, call), call.now, call.requested)
  }

  ghost function Run(limitPerMin: nat, stored: Option<Stored>, calls: seq<Call>): Option<Stored> {
    if calls == [] then stored
    else Serve(limitPerMin, Run(limitPerMin, stored, calls[..|calls| - 1]), calls[|calls| - 1]).0
  }

  /** The answer to the last of these calls. */
  ghost predicate Allowed(limitPerMin: nat, stored: Option<Stored>, calls: seq<Call>)
    requires calls != []
  {
    Serve(limitPerMin, Run(limitPerMin, stored, calls[..|calls| - 1]), calls[|calls| - 1]).1
  }

  /** Tokens granted by all these calls together. */
  ghost function Granted(limitPerMin: nat, stored: Option<Stored>, calls: seq<Call>): int {
    if calls == [] then 0
    else
      Granted(limitPerMin, stored, calls[..|calls| - 1])
      + if Allowed(limitPerMin, stored, calls) then calls[|calls| - 1].requested else 0
  }

  /** The clock never goes back, and a key is only gone after its time to live. */
  ghost predicate Timely(stored: Option<Stored>, calls: seq<Call>) {
    forall i :: 0 <= i < |calls| ==> InTime(LastUse(stored, calls, i), calls[i])
  }

  /** When the key was last written before call i. */
  ghost function LastUse(stored: Option<Stored>, calls: seq<Call>, i: nat): Option<real>
    requires i <= |calls|
  {
    if i > 0 then Some(calls[i - 1].now)
    else if stored.Some? then Some(stored.value.ts) else None
  }

  ghost predicate InTime(last: Option<real>, call: Call) {
    last.Some? ==> call.now >= last.value && (call.gone ==> call.now - last.value >= TTL)
  }

  /** What every reachable bucket satisfies. */
  ghost predicate Sound(stored: Option<Stored>) {
    stored.Some? ==> stored.value.tokens >= -EPSILON
  }

  lemma TimelyFront(stored: Option<Stored>, calls: seq<Call>)
    requires calls != [] && Timely(stored, calls)
    ensures Timely(stored, calls[..|calls| - 1])
    ensures InTime(LastUse(stored, calls, |calls| - 1), calls[|calls| - 1])
  {
    var front := calls[..|calls| - 1];
    forall i | 0 <= i < |front| ensures InTime(LastUse(stored, front, i), front[i]) {
      assert InTime(LastUse(stored, calls, i), calls[i]);
    }
  }

  /** The last write is the one before the next call. */
  lemma {:induction false} RunLast(limitPerMin: nat, stored: Option<Stored>, calls: seq<Call>)
    requires calls != []
    ensures Run(limitPerMin, stored, calls).Some? && Run(limitPerMin, stored, calls).value.ts == calls[|calls| - 1].now
  {
  }

  /** At the last call the clock is not behind the last write. */
  lemma ClockAtLast(limitPerMin: nat, stored: Option<Stored>, calls: seq<Call>)
    requires calls != [] && Timely(stored, calls)
    ensures Timely(stored, calls[..|calls| - 1])
    ensures var before, last := Run(limitPerMin, stored, calls[..|calls| - 1]), calls[|calls| - 1];
      before.Some? ==> last.now >= before.value.ts && (last.gone ==> last.now - before.value.ts >= TTL)
  {
    TimelyFront(stored, calls);
    if |calls| > 1 { RunLast(limitPerMin, stored, calls[..|calls| - 1]); }
  }

  lemma NonNegativeProduct(a: real, b: real)
    requires a >= 0.0 && b >= 0.0
    ensures a * b >= 0.0
  {
  }

  lemma RefillGrows(limitPerMin: nat, s: Stored, now: real)
    requires now >= s.ts
    ensures s.tokens + (now - s.ts) * RefillPerSecond(limitPerMin) >= s.tokens
  {
    NonNegativeProduct(now - s.ts, RefillPerSecond(limitPerMin));
  }

  lemma ServeSound(limitPerMin: nat, stored: Option<Stored>, call: Call)
    requires Sound(stored) && (stored.Some? ==> call.now >= stored.value.ts)
    ensures Sound(Serve(limitPerMin, stored, call).0)
  {
    if stored.Some? { RefillGrows(limitPerMin, stored.value, call.now); }
  }

  /** A full minute fills the bucket, so a bucket dropped after two is as a kept one. */
  lemma DropIsUnobservable(limitPerMin: nat, stored: Option<Stored>, call: Call)
    requires limitPerMin > 0 && Sound(stored) && (stored.Some? && call.gone ==> call.now - stored.value.ts >= TTL)
    ensures Serve(limitPerMin, stored, call) == Serve(limitPerMin, stored, call.(gone := false))
  {
    if stored.Some? && call.gone {
      var s, rate := stored.value, RefillPerSecond(limitPerMin);
      NonNegativeProduct(call.now - s.ts - TTL, rate);
      assert (call.now - s.ts) * rate == (call.now - s.ts - TTL) * rate + TTL * rate;
      assert TTL * rate == 2.0 * limitPerMin as real;
    }
  }

  ghost function Kept(calls: seq<Call>): seq<Call> {
    seq(|calls|, i requires 0 <= i < |calls| => calls[i].(gone := false))
  }

  lemma {:induction false} RunSound(limitPerMin: nat, stored: Option<Stored>, calls: seq<Call>)
    requires Sound(stored) && Timely(stored, calls)
    ensures Sound(Run(limitPerMin, stored, calls))
    decreases |calls|
  {
    if calls != [] {
      var front := calls[..|calls| - 1];
      ClockAtLast(limitPerMin, stored, calls);
      RunSound(limitPerMin, stored, front);
      ServeSound(limitPerMin, Run(limitPerMin, stored, front), calls[|calls| - 1]);
    }
  }

  /** Over a whole run, dropping idle keys changes no answer and no balance. */
  lemma {:induction false} DropsNeverShow(limitPerMin: nat, stored: Option<Stored>, calls: seq<Call>)
    requires limitPerMin > 0 && Sound(stored) && Timely(stored, calls)
    ensures Run(limitPerMin, stored, calls) == Run(limitPerMin, stored, Kept(calls))
    ensures calls != [] ==> (Allowed(limitPerMin, stored, calls) <==> Allowed(limitPerMin, stored, Kept(calls)))
    decreases |calls|
  {
    if calls != [] {
      var front, last := calls[..|calls| - 1], calls[|calls| - 1];
      ClockAtLast(limitPerMin, stored, calls);
      DropsNeverShow(limitPerMin, stored, front);
      RunSound(limitPerMin, stored, front);
      assert Kept(calls)[..|calls| - 1] == Kept(front);
      DropIsUnobservable(limitPerMin, Run(limitPerMin, stored, front), last);
    }
  }

  /** What a call grants comes out of what the bucket held and the refill since. */
  lemma ServePays(limitPerMin: nat, stored: Option<Stored>, call: Call)
    ensures Serve(limitPerMin, stored, call).0.Some?
    ensures var (after, allowed) := Serve(limitPerMin, stored, call);
      var paid := if allowed then call.requested as real else 0.0;
      && after.value.tokens + paid <= limitPerMin as real
      && (stored.Some? && !call.gone && call.now >= stored.value.ts ==>
            after.value.tokens + paid <= stored.value.tokens + Refill(limitPerMin, stored.value.ts, call.now))
  {
  }

  /** The refill between two readings of the clock. */
  function Refill(limitPerMin: nat, from: real, to: real): real {
    (to - from) * RefillPerSecond(limitPerMin)
  }

  /** One full bucket and the refills between neighbouring calls. */
  ghost function Allowance(limitPerMin: nat, calls: seq<Call>): real
    requires calls != []
  {
    if |calls| == 1 then limitPerMin as real
    else Allowance(limitPerMin, calls[..|calls| - 1]) + Refill(limitPerMin, calls[|calls| - 2].now, calls[|calls| - 1].now)
  }

  lemma RefillsAdd(limitPerMin: nat, a: real, b: real, c: real)
    ensures Refill(limitPerMin, a, b) + Refill(limitPerMin, b, c) == Refill(limitPerMin, a, c)
  {
  }

  lemma {:induction false} AllowanceIsOneRefill(limitPerMin: nat, calls: seq<Call>)
    requires calls != []
    ensures Allowance(limitPerMin, calls) == limitPerMin as real + Refill(limitPerMin, calls[0].now, calls[|calls| - 1].now)
    decreases |calls|
  {
    if |calls| > 1 {
      AllowanceIsOneRefill(limitPerMin, calls[..|calls| - 1]);
      RefillsAdd(limitPerMin, calls[0].now, calls[|calls| - 2].now, calls[|calls| - 1].now);
    }
  }

  /** Without drops: granted so far plus what is left never exceeds one full bucket
      plus the refill since the first call. */
  lemma {:induction false} Conservation(limitPerMin: nat, stored: Option<Stored>, calls: seq<Call>)
    requires calls != [] && Timely(stored, calls) && forall i :: 0 <= i < |calls| ==> !calls[i].gone
    ensures Run(limitPerMin, stored, calls).Some?
    ensures Granted(limitPerMin, stored, calls) as real + Run(limitPerMin, stored, calls).value.tokens
         <= Allowance(limitPerMin, calls)
    decreases |calls|
  {
    var front, last := calls[..|calls| - 1], calls[|calls| - 1];
    var before := Run(limitPerMin, stored, front);
    ServePays(limitPerMin, before, last);
    TimelyFront(stored, calls);
    if front != [] {
      Conservation(limitPerMin, stored, front);
      RunLast(limitPerMin, stored, front);
    } else {
      assert Granted(limitPerMin, stored, front) == 0;
    }
  }

  lemma {:induction false} GrantedKept(limitPerMin: nat, stored: Option<Stored>, calls: seq<Call>)
    requires limitPerMin > 0 && Sound(stored) && Timely(stored, calls)
    ensures Granted(limitPerMin, stored, calls) == Granted(limitPerMin, stored, Kept(calls))
    decreases |calls|
  {
    if calls != [] {
      TimelyFront(stored, calls);
      GrantedKept(limitPerMin, stored, calls[..|calls| - 1]);
      DropsNeverShow(limitPerMin, stored, calls);
      assert Kept(calls)[..|calls| - 1] == Kept(calls[..|calls| - 1]);
    }
  }

  /** The bound: any stretch of calls, from any reachable bucket, grants at most the
      capacity plus the refill over its length plus one epsilon. */
  lemma StretchBound(limitPerMin: nat, before: seq<Call>, stretch: seq<Call>)
    requires limitPerMin > 0 && Timely(None, before) && stretch != []
    requires Timely(Run(limitPerMin, None, before), stretch)
    ensures Granted(limitPerMin, Run(limitPerMin, None, before), stretch) as real
         <= limitPerMin as real + Refill(limitPerMin, stretch[0].now, stretch[|stretch| - 1].now) + EPSILON
  {
    var stored := Run(limitPerMin, None, before);
    var kept := Kept(stretch);
    RunSound(limitPerMin, None, before);
    GrantedKept(limitPerMin, stored, stretch);
    forall i | 0 <= i < |kept| ensures InTime(LastUse(stored, kept, i), kept[i]) {
      assert InTime(LastUse(stored, stretch, i), stretch[i]);
    }
    RunSound(limitPerMin, stored, kept);
    Conservation(limitPerMin, stored, kept);
    AllowanceIsOneRefill(limitPerMin, kept);
  }

  /******* Requests that must be allowed *******/

  /** On a missing key, or after a full minute, a request is allowed exactly up to the
      capacity. */
  lemma FullBucket(limitPerMin: nat, stored: Option<Stored>, call: Call)
    requires Sound(stored) && (stored.Some? && !call.gone ==> call.now - stored.value.ts >= 60.0)
    ensures Serve(limitPerMin, stored, call).1 <==> call.requested <= limitPerMin
  {
    if stored.Some? && !call.gone {
      var s, rate := stored.value, RefillPerSecond(limitPerMin);
      NonNegativeProduct(call.now - s.ts - 60.0, rate);
      assert (call.now - s.ts) * rate == (call.now - s.ts - 60.0) * rate + 60.0 * rate;
      assert 60.0 * rate == limitPerMin as real;
    }
  }

  lemma RefillPays(limitPerMin: nat, stored: Option<Stored>, call: Call)
    requires Sound(stored) && call.requested <= limitPerMin
    requires stored.Some? ==> call.now >= stored.value.ts
    requires stored.Some? ==> call.requested as real <= Refill(limitPerMin, stored.value.ts, call.now)
    ensures Serve(limitPerMin, stored, call).1
  {
  }

  /** A request within the capacity is allowed once the refill since the last call alone
      would pay for it, whatever was granted before. */
  lemma WaitingIsEnough(limitPerMin: nat, calls: seq<Call>)
    requires calls != [] && Timely(None, calls)
    requires var last := calls[|calls| - 1];
      && last.requested <= limitPerMin
      && (|calls| > 1 ==> last.requested as real <= Refill(limitPerMin, calls[|calls| - 2].now, last.now))
    ensures Allowed(limitPerMin, None, calls)
  {
    var front := calls[..|calls| - 1];
    TimelyFront(None, calls);
    RunSound(limitPerMin, None, front);
    if front != [] { RunLast(limitPerMin, None, front); }
    RefillPays(limitPerMin, Run(limitPerMin, None, front), calls[|calls| - 1]);
  }
}
