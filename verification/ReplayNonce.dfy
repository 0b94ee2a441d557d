/** Replay protection of agent envelopes (`verify_envelope` in
src/actl/application/agents/envelope_service.py and the nonce cache in
src/actl/infrastructure/cache/nonce.py).  Times are exact seconds.
*/
module ReplayNonce {
  import opened Digests

  const SKEW_WINDOW := 120.0
  const NONCE_TTL := 600.0

  datatype Algorithm = Ed25519 | HmacSha256 | UnknownAlgorithm

  datatype Signature = Signature(alg: Algorithm, keyId: string, value: string)

  datatype Envelope = Envelope(protocolKnown: bool, sender: string, msgId: string, ts: real, sig: Option<Signature>)

  datatype Identity = Identity(agentId: string, revoked: bool, notBefore: real, expiresAt: real, alg: Algorithm, secret: string)

  datatype Rejection =
    | UNKNOWN_PROTOCOL_VERSION | UNKNOWN_ALGORITHM | IDENTITY_UNKNOWN | IDENTITY_REVOKED | IDENTITY_EXPIRED
    | SIGNATURE_INVALID | REPLAY_CHECK_UNAVAILABLE | REPLAYED_MESSAGE | CLOCK_SKEW

  datatype Verdict = Verified(agentId: string) | Rejected(reason: Rejection)

  /** Claimed message ids, each with the time at which Redis forgets it. */
  type Nonces = map<string, real>

  /** One verification: the clock, the identity found for the key id, and whether the
      cache answers. */
  datatype Request = Request(now: real, envelope: Envelope, identity: Option<Identity>, cacheUp: bool)

  /** Timings of the two windows, so that their relation can be studied. */
  datatype Windows = Windows(skew: real, ttl: real)

  const DEPLOYED := Windows(SKEW_WINDOW, NONCE_TTL)

  /** Settings outside the envelope: the signature check and the test-only switch. */
  datatype Config = Config(signatureVerifies: (Envelope, Identity) -> bool, hmacTestOnly: bool)

  function Abs(x: real): real {
    if x < 0.0 then -x else x
  }

  /** A claim that has not expired. */
  predicate Live(nonces: Nonces, msgId: string, now: real) {
    msgId in nonces && now < nonces[msgId]
  }

  /** Everything before the nonce: who sent this, and is it theirs. */
  function Authenticate(config: Config, req: Request): Option<Rejection> {
    var e := req.envelope;
    if !e.protocolKnown then Some(UNKNOWN_PROTOCOL_VERSION)
    else if e.sig.None? || e.sig.value.alg == UnknownAlgorithm then Some(UNKNOWN_ALGORITHM)
    else if e.sig.value.alg == HmacSha256 && !config.hmacTestOnly then Some(UNKNOWN_ALGORITHM)
    else if req.identity.None? || req.identity.value.agentId != e.sender then Some(IDENTITY_UNKNOWN)
    else
      var id := req.identity.value;
      if id.revoked then Some(IDENTITY_REVOKED)
      else if req.now < id.notBefore || req.now >= id.expiresAt then Some(IDENTITY_EXPIRED)
      else if id.alg != e.sig.value.alg || id.secret == "" || !config.signatureVerifies(e, id) then Some(SIGNATURE_INVALID)
      else None
  }

  /** The nonces and the verdict after one verification. */
  function Verify(config: Config, w: Windows, nonces: Nonces, req: Request): (Nonces, Verdict) {
    var denial := Authenticate(config, req);
    if denial.Some? then (nonces, Rejected(denial.value))
    else if !req.cacheUp then (nonces, Rejected(REPLAY_CHECK_UNAVAILABLE))
    else if Live(nonces, req.envelope.msgId, req.now) then (nonces, Rejected(REPLAYED_MESSAGE))
    else
      var claimed := nonces[req.envelope.msgId := req.now + w.ttl];
      if Abs(req.now - req.envelope.ts) > w.skew then (claimed, Rejected(CLOCK_SKEW))
      else (claimed, Verified(req.identity.value.agentId))
  }

  class EnvelopeVerifier {
    const config: Config
    var nonces: Nonces

    constructor (config: Config)
      ensures this.config == config && nonces == map[]
    {
      this.config, nonces := config, map[];
    }

    /** `NonceCache.claim`: set if absent, with an expiry. */
    method Claim(msgId: string, now: real) returns (won: bool)
      modifies this
      ensures won <==> !Live(old(nonces), msgId, now)
      ensures nonces == if won then old(nonces)[msgId := now + NONCE_TTL] else old(nonces)
    {
      won := !(msgId in nonces && now < nonces[msgId]);
      if won { nonces := nonces[msgId := now + NONCE_TTL]; }
    }

    /** `verify_envelope`: verified if and only if every check holds, the first that
        fails gives the reason, and the nonce is taken only once all before it hold. */
    method VerifyEnvelope(req: Request) returns (verdict: Verdict)
      modifies this
      ensures (nonces, verdict) == Verify(config, DEPLOYED, old(nonces), req)
      ensures verdict.Verified? <==>
        && req.envelope.protocolKnown
        && req.envelope.sig.Some?
        && (req.envelope.sig.value.alg == Ed25519 || (req.envelope.sig.value.alg == HmacSha256 && config.hmacTestOnly))
        && req.identity.Some? && req.identity.value.agentId == req.envelope.sender
        && !req.identity.value.revoked
        && req.identity.value.notBefore <= req.now < req.identity.value.expiresAt
        && req.identity.value.alg == req.envelope.sig.value.alg
        && req.identity.value.secret != ""
        && config.signatureVerifies(req.envelope, req.identity.value)
        && req.cacheUp
        && !(req.envelope.msgId in old(nonces) && req.now < old(nonces)[req.envelope.msgId])
        && -120.0 <= req.now - req.envelope.ts <= 120.0
      ensures verdict.Verified? ==> verdict.agentId == req.identity.value.agentId
      ensures nonces ==
        if verdict.Verified? || verdict == Rejected(CLOCK_SKEW)
        then old(nonces)[req.envelope.msgId := req.now + 600.0] else old(nonces)
      ensures verdict == Rejected(UNKNOWN_PROTOCOL_VERSION) <==> !req.envelope.protocolKnown
      ensures verdict == Rejected(UNKNOWN_ALGORITHM) <==>
        && req.envelope.protocolKnown
        && (req.envelope.sig.None? || req.envelope.sig.value.alg == UnknownAlgorithm
            || (req.envelope.sig.value.alg == HmacSha256 && !config.hmacTestOnly))
      ensures verdict.Rejected? ==>
        match verdict.reason
        case UNKNOWN_PROTOCOL_VERSION => true
        case UNKNOWN_ALGORITHM => true
        case IDENTITY_UNKNOWN => req.identity.None? || req.identity.value.agentId != req.envelope.sender
        case other =>
          && req.identity.Some? && req.identity.value.agentId == req.envelope.sender
          && (other == IDENTITY_REVOKED <==> req.identity.value.revoked)
          && (other == IDENTITY_EXPIRED <==>
                !req.identity.value.revoked && !(req.identity.value.notBefore <= req.now < req.identity.value.expiresAt))
          && (other == SIGNATURE_INVALID ==>
                || req.identity.value.alg != req.envelope.sig.value.alg || req.identity.value.secret == ""
                || !config.signatureVerifies(req.envelope, req.identity.value))
          && (other == REPLAY_CHECK_UNAVAILABLE || other == REPLAYED_MESSAGE || other == CLOCK_SKEW ==>
                && req.identity.value.alg == req.envelope.sig.value.alg && req.identity.value.secret != ""
                && config.signatureVerifies(req.envelope, req.identity.value)
                && (other == REPLAY_CHECK_UNAVAILABLE <==> !req.cacheUp)
                && (other == REPLAYED_MESSAGE <==>
                      req.cacheUp && req.envelope.msgId in old(nonces) && req.now < old(nonces)[req.envelope.msgId]))
    {
      var envelope := req.envelope;
      if !envelope.protocolKnown { return Rejected(UNKNOWN_PROTOCOL_VERSION); }
      if envelope.sig.None? || envelope.sig.value.alg == UnknownAlgorithm { return Rejected(UNKNOWN_ALGORITHM); }
      if envelope.sig.value.alg == HmacSha256 && !config.hmacTestOnly { return Rejected(UNKNOWN_ALGORITHM); }
      if req.identity.None? || req.identity.value.agentId != envelope.sender { return Rejected(IDENTITY_UNKNOWN); }
      var identity := req.identity.value;
      if identity.revoked { return Rejected(IDENTITY_REVOKED); }
      if req.now < identity.notBefore || req.now >= identity.expiresAt { return Rejected(IDENTITY_EXPIRED); }
      var verified := false;
      if identity.alg == Ed25519 && envelope.sig.value.alg == Ed25519 && identity.secret != "" {
        verified := config.signatureVerifies(envelope, identity);
      } else if identity.alg == HmacSha256 && envelope.sig.value.alg == HmacSha256 && identity.secret != "" {
        verified := config.signatureVerifies(envelope, identity);
      }
      if !verified { return Rejected(SIGNATURE_INVALID); }
      if !req.cacheUp { return Rejected(REPLAY_CHECK_UNAVAILABLE); }
      var won := Claim(envelope.msgId, req.now);
      if !won { return Rejected(REPLAYED_MESSAGE); }
      if Abs(req.now - envelope.ts) > SKEW_WINDOW { return Rejected(CLOCK_SKEW); }
      return Verified(identity.agentId);
    }
  }

  /******* Runs *******/

  ghost function Run(config: Config, w: Windows, reqs: seq<Request>): Nonces {
    if reqs == [] then map[]
    else Verify(config, w, Run(config, w, reqs[..|reqs| - 1]), reqs[|reqs| - 1]).0
  }

  ghost function VerdictAt(config: Config, w: Windows, reqs: seq<Request>, i: nat): Verdict
    requires i < |reqs|
  {
    Verify(config, w, Run(config, w, reqs[..i]), reqs[i]).1
  }

  ghost predicate ClockAdvances(reqs: seq<Request>) {
    forall i, j :: 0 <= i < j < |reqs| ==> reqs[i].now <= reqs[j].now
  }

  /** A verification that got as far as winning the claim. */
  ghost predicate WonAt(config: Config, w: Windows, reqs: seq<Request>, i: nat)
    requires i < |reqs|
  {
    var v := VerdictAt(config, w, reqs, i);
    v.Verified? || v == Rejected(CLOCK_SKEW)
  }

  /** Once won, an id stays claimed for at least the time to live. */
  lemma {:induction false} ClaimLasts(config: Config, w: Windows, reqs: seq<Request>, i: nat, n: nat)
    requires i < n <= |reqs| && ClockAdvances(reqs) && WonAt(config, w, reqs, i)
    ensures reqs[i].envelope.msgId in Run(config, w, reqs[..n])
    ensures Run(config, w, reqs[..n])[reqs[i].envelope.msgId] >= reqs[i].now + w.ttl
    decreases n
  {
    assert reqs[..n][..n - 1] == reqs[..n - 1];
    if i < n - 1 { ClaimLasts(config, w, reqs, i, n - 1); }
  }

  /** Two claims won for one id lie at least the time to live apart. */
  lemma WinsAreApart(config: Config, w: Windows, reqs: seq<Request>, i: nat, j: nat)
    requires i < j < |reqs| && ClockAdvances(reqs)
    requires WonAt(config, w, reqs, i) && WonAt(config, w, reqs, j)
    requires reqs[i].envelope.msgId == reqs[j].envelope.msgId
    ensures reqs[j].now - reqs[i].now >= w.ttl
  {
    ClaimLasts(config, w, reqs, i, j);
  }

  /** Two accepted envelopes with one message id carry timestamps that differ by at
      least the time to live less twice the skew: 360 seconds as deployed. */
  lemma AcceptedStampsAreApart(config: Config, w: Windows, reqs: seq<Request>, i: nat, j: nat)
    requires i < j < |reqs| && ClockAdvances(reqs)
    requires VerdictAt(config, w, reqs, i).Verified? && VerdictAt(config, w, reqs, j).Verified?
    requires reqs[i].envelope.msgId == reqs[j].envelope.msgId
    ensures reqs[j].envelope.ts - reqs[i].envelope.ts >= w.ttl - 2.0 * w.skew
  {
    WinsAreApart(config, w, reqs, i, j);
  }

  ghost predicate AtMostOnce(config: Config, w: Windows) {
    forall reqs: seq<Request>, i, j | ClockAdvances(reqs) && 0 <= i < j < |reqs| ::
      VerdictAt(config, w, reqs, i).Verified? && VerdictAt(config, w, reqs, j).Verified? ==>
        reqs[i].envelope != reqs[j].envelope
  }

  /** One envelope is accepted at most once in a run of any length. */
  lemma AcceptedAtMostOnce(config: Config, reqs: seq<Request>, i: nat, j: nat)
    requires i < j < |reqs| && ClockAdvances(reqs) && reqs[i].envelope == reqs[j].envelope
    ensures !(VerdictAt(config, DEPLOYED, reqs, i).Verified? && VerdictAt(config, DEPLOYED, reqs, j).Verified?)
  {
    if VerdictAt(config, DEPLOYED, reqs, i).Verified? && VerdictAt(config, DEPLOYED, reqs, j).Verified? {
      AcceptedStampsAreApart(config, DEPLOYED, reqs, i, j);
    }
  }

  /** The choice of windows is exact: as long as some envelope authenticates through
      its whole skew window, replays are impossible just when the time to live
      exceeds twice the skew. */
  lemma WindowsAreExact(config: Config, w: Windows, e: Envelope, identity: Identity)
    requires w.skew >= 0.0 && w.ttl > 0.0
    requires Authenticate(config, Request(e.ts - w.skew, e, Some(identity), true)).None?
    requires Authenticate(config, Request(e.ts + w.skew, e, Some(identity), true)).None?
    ensures AtMostOnce(config, w) <==> w.ttl > 2.0 * w.skew
  {
    if w.ttl > 2.0 * w.skew {
      forall reqs: seq<Request>, i, j | ClockAdvances(reqs) && 0 <= i < j < |reqs|
        ensures VerdictAt(config, w, reqs, i).Verified? && VerdictAt(config, w, reqs, j).Verified? ==>
          reqs[i].envelope != reqs[j].envelope
      {
        if VerdictAt(config, w, reqs, i).Verified? && VerdictAt(config, w, reqs, j).Verified?
          && reqs[i].envelope == reqs[j].envelope {
          AcceptedStampsAreApart(config, w, reqs, i, j);
        }
      }
    } else {
      var first := Request(e.ts - w.skew, e, Some(identity), true);
      var second := Request(e.ts + w.skew, e, Some(identity), true);
      var reqs := [first, second];
      assert reqs[..0] == [] && reqs[..1] == [first];
      assert [first][..0] == [];
      assert ClockAdvances(reqs);
      assert VerdictAt(config, w, reqs, 0).Verified? && VerdictAt(config, w, reqs, 1).Verified?;
    }
  }
}
