/** Tamper evidence of the audit chain (src/actl/domain/audit/chain.py and
`verify_chain` in src/actl/application/audit_service.py).
*/
module AuditTamper {
  import opened Digests
  import opened CanonicalJson
  import opened Merkle
  import opened AuditChain
  import opened AuditHistory

  /******* One head hash, one history *******/

  lemma {:induction false} HeadDetermines<P>(hash: P -> Digest, a: seq<AuditRow<P>>, b: seq<AuditRow<P>>)
    requires ChainHash(hash, Zero32, a) == ChainHash(hash, Zero32, b)
    ensures |a| == |b| && forall i :: 0 <= i < |a| ==> hash(a[i].payload) == hash(b[i].payload)
    decreases |a|
  {
    if a != [] && b != [] {
      HeadDetermines(hash, a[..|a| - 1], b[..|b| - 1]);
    }
  }

  /** A payload's hash is that of its canonical text alone, so payloads with one hash have
      one canonical text, and so one value. */
  lemma HashDetermines(p: Payload, q: Payload)
    ensures PayloadHash(p) == Sha256([Utf8(Encode(p))])
    ensures PayloadHash(p) == PayloadHash(q) <==> Encode(p) == Encode(q)
    ensures PayloadHash(p) == PayloadHash(q) ==> Canon(p) == Canon(q)
  {
    assert PayloadHash(p).preimage[0] == Utf8(Encode(p)) && PayloadHash(q).preimage[0] == Utf8(Encode(q));
    if Encode(p) == Encode(q) { TextDetermines(p, q); }
  }

  /** Both logs pass from sequence number 1 and report the same head. */
  ghost predicate SameHead<P>(hash: P -> Digest, a: seq<AuditRow<P>>, b: seq<AuditRow<P>>,
    ca: Checkpoints, cb: Checkpoints, n: nat, va: Verification, vb: Verification)
  {
    && n > 0
    && Reports(va, RangeFrom(hash, 1, Zero32, n, ca), a) && va.ok
    && Reports(vb, RangeFrom(hash, 1, Zero32, n, cb), b) && vb.ok
    && va.head == vb.head
  }

  lemma SameHeadSameHashes<P>(hash: P -> Digest, a: seq<AuditRow<P>>, b: seq<AuditRow<P>>,
    ca: Checkpoints, cb: Checkpoints, n: nat, va: Verification, vb: Verification)
    requires SameHead(hash, a, b, ca, cb, n, va, vb)
    ensures |a| == |b| && forall i :: 0 <= i < |a| ==> hash(a[i].payload) == hash(b[i].payload)
  {
    if a != [] || b != [] { HeadDetermines(hash, a, b); }
  }

  /** Two logs accepted from sequence number 1 with the same head hold the same
      payloads, position by position. */
  lemma SameHeadSameHistory(a: seq<AuditRow<Payload>>, b: seq<AuditRow<Payload>>,
    ca: Checkpoints, cb: Checkpoints, n: nat, va: Verification, vb: Verification)
    requires SameHead(PayloadHash, a, b, ca, cb, n, va, vb)
    ensures |a| == |b|
    ensures forall i :: 0 <= i < |a| ==>
      Encode(a[i].payload) == Encode(b[i].payload) && Canon(a[i].payload) == Canon(b[i].payload)
  {
    SameHeadSameHashes(PayloadHash, a, b, ca, cb, n, va, vb);
    forall i | 0 <= i < |a|
      ensures Encode(a[i].payload) == Encode(b[i].payload) && Canon(a[i].payload) == Canon(b[i].payload)
    {
      HashDetermines(a[i].payload, b[i].payload);
    }
  }

  /** The checkpoint at row k - 1, looked at and passed. */
  lemma RootAt<P>(g: Range<P>, rows: seq<AuditRow<P>>, k: nat)
    requires g.Sound() && g.from == 1 && Accepts(g, rows) && g.due(k) && k in g.checkpoints && 0 < k <= |rows|
    ensures g.n <= k && g.checkpoints[k].root == Hex(TreeHash(Segment(g.hash, g.start, rows, k - 1, g.n)))
  {
    assert GoodAt(g, rows, k - 1);
  }

  /** The last hash of a segment is the chain's hash there. */
  lemma SegmentEnds<P>(hash: P -> Digest, start: Digest, rows: seq<AuditRow<P>>, k: nat, n: nat)
    requires 0 < n <= k <= |rows|
    ensures var segment := Segment(hash, start, rows, k - 1, n);
      |segment| == n && segment[n - 1] == ChainHash(hash, start, rows[..k])
  {
  }

  /** One stored root at a due boundary fixes everything before it: two logs accepted
      from 1 that carry it hold the same payload hashes up to there. */
  lemma SameRootSameHashes<P>(g: Range<P>, h: Range<P>, a: seq<AuditRow<P>>, b: seq<AuditRow<P>>, k: nat)
    requires g.Sound() && h.Sound() && g.hash == h.hash && g.n == h.n
    requires g.from == 1 && h.from == 1 && g.start == Zero32 && h.start == Zero32
    requires Accepts(g, a) && Accepts(h, b) && 0 < k <= |a| && k <= |b|
    requires g.due(k) && h.due(k) && k in g.checkpoints && k in h.checkpoints && g.checkpoints[k].root == h.checkpoints[k].root
    ensures forall i :: 0 <= i < k ==> g.hash(a[i].payload) == g.hash(b[i].payload)
  {
    RootAt(g, a, k);
    RootAt(h, b, k);
    SegmentEnds(g.hash, Zero32, a, k, g.n);
    SegmentEnds(g.hash, Zero32, b, k, g.n);
    RootDeterminesEntries(Segment(g.hash, Zero32, a, k - 1, g.n), Segment(g.hash, Zero32, b, k - 1, g.n));
    HeadDetermines(g.hash, a[..k], b[..k]);
    forall i | 0 <= i < k ensures g.hash(a[i].payload) == g.hash(b[i].payload) {
      assert a[..k][i] == a[i] && b[..k][i] == b[i];
    }
  }

  /** The same for the hash in use: the payloads up to the boundary are the same. */
  lemma SameRootSameHistory(
    a: seq<AuditRow<Payload>>, b: seq<AuditRow<Payload>>, ca: Checkpoints, cb: Checkpoints, n: nat, k: nat)
    requires n > 0 && Accepts(RangeFrom(PayloadHash, 1, Zero32, n, ca), a) && Accepts(RangeFrom(PayloadHash, 1, Zero32, n, cb), b)
    requires n <= k <= |a| && k <= |b| && k % n == 0 && k in ca && k in cb && ca[k].root == cb[k].root
    ensures forall i :: 0 <= i < k ==> Encode(a[i].payload) == Encode(b[i].payload) && Canon(a[i].payload) == Canon(b[i].payload)
  {
    SameRootSameHashes(RangeFrom(PayloadHash, 1, Zero32, n, ca), RangeFrom(PayloadHash, 1, Zero32, n, cb), a, b, k);
    forall i | 0 <= i < k
      ensures Encode(a[i].payload) == Encode(b[i].payload) && Canon(a[i].payload) == Canon(b[i].payload)
    {
      HashDetermines(a[i].payload, b[i].payload);
    }
  }

  /******* One changed row *******/

  lemma {:induction false} SameHashesSameChain<P>(
    hash: P -> Digest, start: Digest, a: seq<AuditRow<P>>, b: seq<AuditRow<P>>, k: nat)
    requires k <= |a| && k <= |b| && forall i :: 0 <= i < k ==> hash(a[i].payload) == hash(b[i].payload)
    ensures ChainHash(hash, start, a[..k]) == ChainHash(hash, start, b[..k])
  {
    if k > 0 {
      SameHashesSameChain(hash, start, a, b, k - 1);
      WalkStep(hash, a, start, k - 1);
      WalkStep(hash, b, start, k - 1);
    }
  }

  /** A verifier cannot tell rows apart that hash alike and agree in their columns. */
  lemma GoodAlike<P>(g: Range<P>, a: seq<AuditRow<P>>, b: seq<AuditRow<P>>, i: nat)
    requires i < |a| && i < |b| && forall j :: 0 <= j <= i ==> g.hash(a[j].payload) == g.hash(b[j].payload)
    requires a[i].seqNo == b[i].seqNo && a[i].prevHash == b[i].prevHash && a[i].entryHash == b[i].entryHash
    ensures GoodAt(g, a, i) <==> GoodAt(g, b, i)
  {
    SameHashesSameChain(g.hash, g.start, a, b, i);
    SameHashesSameChain(g.hash, g.start, a, b, i + 1);
    RunningAlike(g.hash, g.start, a, b, i + 1);
  }

  lemma RunningAlike<P>(hash: P -> Digest, start: Digest, a: seq<AuditRow<P>>, b: seq<AuditRow<P>>, count: nat)
    requires count <= |a| && count <= |b| && forall j :: 0 <= j < count ==> hash(a[j].payload) == hash(b[j].payload)
    ensures Running(hash, start, a, count) == Running(hash, start, b, count)
  {
    var ra, rb := Running(hash, start, a, count), Running(hash, start, b, count);
    forall j | 0 <= j < count ensures ra[j] == rb[j] {
      SameHashesSameChain(hash, start, a, b, j + 1);
    }
  }

  /** The log with the payload and the unhashed columns of row s replaced. */
  ghost function Tampered<P>(log: seq<AuditRow<P>>, s: int, payload: P, unhashed: string): seq<AuditRow<P>>
    requires 1 <= s <= |log|
  {
    log[s - 1 := log[s - 1].(payload := payload, unhashed := unhashed)]
  }

  /** A wrong payload under the old entry hash. */
  lemma WrongPayload<P>(g: Range<P>, log: seq<AuditRow<P>>, i: nat, row: AuditRow<P>)
    requires i < |log| && RowOk(g.hash, log, g.from, g.start, i)
    requires row.entryHash == log[i].entryHash && g.hash(row.payload) != g.hash(log[i].payload)
    ensures !RowOk(g.hash, log[i := row], g.from, g.start, i)
  {
    var log' := log[i := row];
    assert log'[..i] == log[..i];
    WalkStep(g.hash, log, g.start, i);
    WalkStep(g.hash, log', g.start, i);
    EntryHashInjective(ChainHash(g.hash, g.start, log[..i]), g.hash(log[i].payload), g.hash(row.payload));
  }

  lemma EntryHashInjective(prev: Digest, a: Digest, b: Digest)
    ensures EntryHash(prev, a) == EntryHash(prev, b) ==> a == b
  {
    assert [Bytes32(prev), Bytes32(a)][1] == Bytes32(a) && [Bytes32(prev), Bytes32(b)][1] == Bytes32(b);
  }

  lemma TamperBreaks<P>(g: Range<P>, log: seq<AuditRow<P>>, s: int, payload: P, unhashed: string)
    requires 1 <= s <= |log| && Accepts(g, log) && g.hash(payload) != g.hash(log[s - 1].payload)
    ensures BreaksAt(g, Tampered(log, s, payload, unhashed), s - 1)
    ensures !RowOk(g.hash, Tampered(log, s, payload, unhashed), g.from, g.start, s - 1)
  {
    var log' := Tampered(log, s, payload, unhashed);
    assert GoodAt(g, log, s - 1);
    WrongPayload(g, log, s - 1, log'[s - 1]);
    forall i | 0 <= i < s - 1 ensures GoodAt(g, log', i) {
      assert GoodAt(g, log, i);
      GoodAlike(g, log, log', i);
    }
  }

  lemma TamperUnseen<P>(g: Range<P>, log: seq<AuditRow<P>>, s: int, payload: P, unhashed: string)
    requires 1 <= s <= |log| && Accepts(g, log) && g.hash(payload) == g.hash(log[s - 1].payload)
    ensures Accepts(g, Tampered(log, s, payload, unhashed))
  {
    var log' := Tampered(log, s, payload, unhashed);
    forall i | 0 <= i < |log'| ensures GoodAt(g, log', i) {
      assert GoodAt(g, log, i);
      GoodAlike(g, log, log', i);
    }
  }

  lemma FirstBreakIsUnique<P>(g: Range<P>, rows: seq<AuditRow<P>>, e: nat, f: nat)
    requires BreaksAt(g, rows, e) && BreaksAt(g, rows, f)
    ensures e == f
  {
    assert forall i :: 0 <= i < e ==> GoodAt(g, rows, i);
  }

  /** Changing row s of an honest log, keeping its hash columns: the verifier fails
      at exactly s with s - 1 rows verified when the payload hash changed, and
      passes otherwise, whatever happened to the unhashed columns. */
  lemma TamperFound<P>(hash: P -> Digest, log: seq<AuditRow<P>>, checkpoints: Checkpoints, n: nat,
    s: int, payload: P, unhashed: string, v: Verification)
    requires n > 0 && Honest(hash, log, checkpoints, n) && 1 <= s <= |log|
    requires Reports(v, RangeFrom(hash, 1, Zero32, n, checkpoints), Tampered(log, s, payload, unhashed))
    ensures v.ok <==> hash(payload) == hash(log[s - 1].payload)
    ensures !v.ok ==> v.breakSeq == Some(s) && v.entriesVerified == s - 1
  {
    var g := RangeFrom(hash, 1, Zero32, n, checkpoints);
    HonestRange(hash, log, checkpoints, n, 1, |log|);
    assert log[..0] == [] && log[0..|log|] == log;
    if hash(payload) == hash(log[s - 1].payload) {
      TamperUnseen(g, log, s, payload, unhashed);
    } else {
      TamperBreaks(g, log, s, payload, unhashed);
      if !v.ok { FirstBreakIsUnique(g, Tampered(log, s, payload, unhashed), s - 1, v.breakSeq.value - 1); }
    }
  }

  /** The same for the hash in use: a change is found exactly when it changes the
      canonical text, and never hides a change of value. */
  lemma TamperedPayloadFound(log: seq<AuditRow<Payload>>, checkpoints: Checkpoints, n: nat,
    s: int, payload: Payload, unhashed: string, v: Verification)
    requires n > 0 && Honest(PayloadHash, log, checkpoints, n) && 1 <= s <= |log|
    requires Reports(v, RangeFrom(PayloadHash, 1, Zero32, n, checkpoints), Tampered(log, s, payload, unhashed))
    ensures v.ok <==> Encode(payload) == Encode(log[s - 1].payload)
    ensures Canon(payload) != Canon(log[s - 1].payload) ==> !v.ok
    ensures !v.ok ==> v.breakSeq == Some(s) && v.entriesVerified == s - 1
  {
    TamperFound(PayloadHash, log, checkpoints, n, s, payload, unhashed, v);
    HashDetermines(payload, log[s - 1].payload);
  }
}
