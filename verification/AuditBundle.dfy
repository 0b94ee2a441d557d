/** The standalone bundle verifier and what the exporter puts into a bundle
(scripts/export_audit_bundle.py).
*/
module AuditBundle {
  import opened Digests
  import opened AuditChain
  import opened AuditHistory
  import opened AuditTamper

  datatype Metadata = Metadata(fromSeq: int, checkpointEvery: nat, head: Option<HashText>)

  datatype Bundle<P> = Bundle(entries: seq<AuditRow<P>>, checkpoints: Checkpoints, metadata: Metadata)

  /** Where the bundle verifier starts.  A partial range trusts the first row; a
      first `prev_hash` that is not a digest ends in rejection. */
  function BundleStart<P>(bundle: Bundle<P>): Option<Digest> {
    if bundle.metadata.fromSeq == 1 || bundle.entries == [] then Some(Zero32)
    else match bundle.entries[0].prevHash
      case Hex(d) => Some(d)
      case Respelt(d, _) => Some(d)
      case Garbled(_) => None
  }

  ghost function HeadOf<P>(hash: P -> Digest, start: Digest, rows: seq<AuditRow<P>>): Option<HashText> {
    if rows != [] then Some(Hex(ChainHash(hash, start, rows))) else None
  }

  ghost function BundleRange<P>(hash: P -> Digest, bundle: Bundle<P>, start: Digest): (g: Range<P>)
    requires bundle.metadata.checkpointEvery > 0
    ensures g.Sound()
  {
    RangeFrom(hash, bundle.metadata.fromSeq, start, bundle.metadata.checkpointEvery, bundle.checkpoints)
  }

  /** What a bundle must be for the script to exit with 0. */
  ghost predicate BundleGood<P>(hash: P -> Digest, bundle: Bundle<P>)
    requires bundle.metadata.checkpointEvery > 0
  {
    var start := BundleStart(bundle);
    && start.Some?
    && Accepts(BundleRange(hash, bundle, start.value), bundle.entries)
    && HeadOf(hash, start.value, bundle.entries) == bundle.metadata.head
  }

  /** The loop of `main` in `verify_bundle.py`: the last hash, unless a row breaks. */
  method WalkBundle<P>(g: Range<P>, rows: seq<AuditRow<P>>) returns (head: Option<Digest>)
    requires g.Sound()
    ensures head.Some? <==> Accepts(g, rows)
    ensures head.Some? ==> head.value == ChainHash(g.hash, g.start, rows)
  {
    var prev, segmentHashes, expectedSeq := g.start, [], g.from;
    for i := 0 to |rows|
      invariant expectedSeq == g.from + i
      invariant prev == ChainHash(g.hash, g.start, rows[..i])
      invariant segmentHashes == Running(g.hash, g.start, rows, i)
      invariant GoodUpTo(g, rows, i)
    {
      GoodStep(g, rows, i);
      var _, good, _, recomputed := ExamineRow(g, rows, i, expectedSeq, prev, segmentHashes);
      if !good { return None; }
      segmentHashes := segmentHashes + [recomputed];
      prev := recomputed;
      expectedSeq := expectedSeq + 1;
    }
    assert rows[..|rows|] == rows;
    return Some(prev);
  }

  /** `main` of the script, after the file manifest: true is exit code 0. */
  method VerifyBundle<P>(hash: P -> Digest, bundle: Bundle<P>) returns (ok: bool)
    requires bundle.metadata.checkpointEvery > 0
    ensures ok <==> BundleGood(hash, bundle)
  {
    var metadata := bundle.metadata;
    var start := BundleStart(bundle);
    if start.None? { return false; }
    var g := RangeFrom(hash, metadata.fromSeq, start.value, metadata.checkpointEvery, bundle.checkpoints);
    var prev := WalkBundle(g, bundle.entries);
    if prev.None? { return false; }
    var head := if bundle.entries != [] then Some(Hex(prev.value)) else None;
    return head == metadata.head;
  }

  /******* Export *******/

  /** Checkpoints whose recorded segment lies in the range. */
  function Relevant(checkpoints: Checkpoints, from: int, to: int): Checkpoints {
    map k | k in checkpoints && from <= checkpoints[k].fromSeq && k <= to :: checkpoints[k]
  }

  function Export<P>(log: seq<AuditRow<P>>, checkpoints: Checkpoints, n: nat, from: int, to: int): Bundle<P> {
    var entries := ListRange(log, from, to);
    var head := if entries == [] then None else Some(entries[|entries| - 1].entryHash);
    Bundle(entries, Relevant(checkpoints, from, to), Metadata(from, n, head))
  }

  /******* The two verifiers agree *******/

  lemma AcceptsEach<P>(g: Range<P>, h: Range<P>, rows: seq<AuditRow<P>>)
    requires forall i :: 0 <= i < |rows| ==> (GoodAt(g, rows, i) <==> GoodAt(h, rows, i))
    ensures Accepts(g, rows) <==> Accepts(h, rows)
  {
    assert Accepts(g, rows) ==> forall i :: 0 <= i < |rows| ==> GoodAt(g, rows, i);
    assert Accepts(h, rows) ==> forall i :: 0 <= i < |rows| ==> GoodAt(h, rows, i);
  }

  lemma {:induction false} ListRangeBounds<P>(log: seq<AuditRow<P>>, from: int, to: int)
    ensures forall i :: 0 <= i < |ListRange(log, from, to)| ==> from <= ListRange(log, from, to)[i].seqNo <= to
  {
    if log != [] { ListRangeBounds(log[..|log| - 1], from, to); }
  }

  /** Leaving out checkpoints can only make the verifier accept more. */
  lemma FewerCheckpoints<P>(g: Range<P>, fewer: Checkpoints, rows: seq<AuditRow<P>>)
    requires forall k :: k in fewer ==> k in g.checkpoints && g.checkpoints[k] == fewer[k]
    requires Accepts(g, rows)
    ensures Accepts(g.(checkpoints := fewer), rows)
  {
    var h := g.(checkpoints := fewer);
    forall i | 0 <= i < |rows| ensures GoodAt(h, rows, i) { assert GoodAt(g, rows, i); }
  }

  lemma SameCheckpoint<P>(g: Range<P>, fewer: Checkpoints, rows: seq<AuditRow<P>>, i: nat)
    requires i < |rows|
    requires var k := g.from + i;
      g.due(k) ==> (k in g.checkpoints <==> k in fewer) && (k in fewer ==> g.checkpoints[k] == fewer[k])
    ensures CheckpointOk(g, rows, i) <==> CheckpointOk(g.(checkpoints := fewer), rows, i)
  {
  }

  /** No checkpoint that the range verifier would look at is recorded to start before
      the range. */
  ghost predicate NoneEarly<P>(g: Range<P>, to: int) {
    forall k :: k in g.checkpoints && g.due(k) && k <= to ==> g.checkpoints[k].fromSeq >= g.from
  }

  /** Then the exporter drops none that matters. */
  lemma NoneDropped<P>(g: Range<P>, to: int, rows: seq<AuditRow<P>>)
    requires g.Sound() && NoneEarly(g, to)
    requires forall i :: 0 <= i < |rows| ==> rows[i].seqNo <= to
    ensures Accepts(g, rows) <==> Accepts(g.(checkpoints := Relevant(g.checkpoints, g.from, to)), rows)
  {
    var fewer := Relevant(g.checkpoints, g.from, to);
    var h := g.(checkpoints := fewer);
    forall i | 0 <= i < |rows| ensures GoodAt(g, rows, i) <==> GoodAt(h, rows, i) {
      if rows[i].seqNo == g.from + i { SameCheckpoint(g, fewer, rows, i); }
    }
    AcceptsEach(g, h, rows);
  }

  /** Every due checkpoint up to `to` is recorded to start at 1 or later. */
  ghost predicate NoneBeforeOne(checkpoints: Checkpoints, n: nat, to: int)
    requires n > 0
  {
    forall k :: k in checkpoints && n <= k <= to && k % n == 0 ==> checkpoints[k].fromSeq >= 1
  }

  lemma NoneBeforeOneIsNoneEarly<P>(g: Range<P>, to: int)
    requires g.n > 0 && g.from == 1 && g.due == Every(g.n, 1)
    ensures NoneBeforeOne(g.checkpoints, g.n, to) <==> NoneEarly(g, to)
  {
    assert forall k :: g.due(k) <==> k % g.n == 0 && k >= g.n;
  }

  /** The bundle of a full export, with the head that its metadata states. */
  ghost function FullExport<P>(
    log: seq<AuditRow<P>>, checkpoints: Checkpoints, n: nat, to: int, head: Option<HashText>): Bundle<P>
  {
    var bundle := Export(log, checkpoints, n, 1, to);
    bundle.(metadata := bundle.metadata.(head := head))
  }

  /** A bundle exported from sequence number 1 is accepted exactly when the range
      verifier accepts the same rows and its head is the one in the metadata. */
  lemma FullExportAgrees<P>(hash: P -> Digest, log: seq<AuditRow<P>>, checkpoints: Checkpoints, n: nat, to: int,
    head: Option<HashText>, v: Verification)
    requires n > 0 && NoneBeforeOne(checkpoints, n, to)
    requires Reports(v, RangeFrom(hash, 1, Zero32, n, checkpoints), ListRange(log, 1, to))
    ensures BundleGood(hash, FullExport(log, checkpoints, n, to, head)) <==> v.ok && v.head == head
  {
    var g := RangeFrom(hash, 1, Zero32, n, checkpoints);
    NoneBeforeOneIsNoneEarly(g, to);
    ListRangeBounds(log, 1, to);
    NoneDropped(g, to, ListRange(log, 1, to));
  }

  /** Any acceptance by the range verifier with the right head carries over to the
      bundle, also for a partial range and for any checkpoint table. */
  lemma PartialExportAccepted<P>(hash: P -> Digest, log: seq<AuditRow<P>>, checkpoints: Checkpoints, n: nat, from: int, to: int,
    head: Option<HashText>, v: Verification)
    requires n > 0 && StartOf(log, from).Ok? && StartOf(log, from).value.Some?
    requires Reports(v, RangeFrom(hash, from, StartOf(log, from).value.value, n, checkpoints), ListRange(log, from, to))
    requires v.ok && v.head == head
    ensures var bundle := Export(log, checkpoints, n, from, to);
      BundleGood(hash, bundle.(metadata := bundle.metadata.(head := head)))
  {
    var rows, start := ListRange(log, from, to), StartOf(log, from).value.value;
    var g := RangeFrom(hash, from, start, n, checkpoints);
    if rows != [] {
      assert GoodAt(g, rows, 0);
      assert rows[..0] == [];
      FewerCheckpoints(g, Relevant(checkpoints, from, to), rows);
    }
  }

  /** Every range of an honest log exports to a bundle that is accepted. */
  lemma HonestExportAccepted<P>(hash: P -> Digest, log: seq<AuditRow<P>>, checkpoints: Checkpoints, n: nat, from: int, to: int)
    requires n > 0 && Honest(hash, log, checkpoints, n) && 1 <= from <= to <= |log|
    ensures BundleGood(hash, Export(log, checkpoints, n, from, to))
  {
    HonestStart(hash, log, from);
    HonestHead(hash, log, from, to);
    HonestRange(hash, log, checkpoints, n, from, to);
    var g := RangeFrom(hash, from, ChainHash(hash, Zero32, log[..from - 1]), n, checkpoints);
    var v := Verification(true, to - from + 1, Matching(g, to - from + 1), Some(log[to - 1].entryHash), None);
    PartialExportAccepted(hash, log, checkpoints, n, from, to, v.head, v);
  }

  /** A bundle that the script accepts from sequence number 1 holds the payloads of
      any other accepted bundle with the same published head. */
  lemma BundleHeadDetermines<P>(hash: P -> Digest, a: Bundle<P>, b: Bundle<P>)
    requires a.metadata.checkpointEvery > 0 && b.metadata.checkpointEvery > 0
    requires a.metadata.fromSeq == 1 && b.metadata.fromSeq == 1
    requires BundleGood(hash, a) && BundleGood(hash, b) && a.metadata.head == b.metadata.head
    ensures |a.entries| == |b.entries|
    ensures forall i :: 0 <= i < |a.entries| ==> hash(a.entries[i].payload) == hash(b.entries[i].payload)
  {
    if a.entries != [] || b.entries != [] { HeadDetermines(hash, a.entries, b.entries); }
  }

  /******* The condition is exact *******/

  /** The same checkpoints with this column of roots. */
  ghost function WithRoots(checkpoints: Checkpoints, roots: int -> HashText): Checkpoints {
    map k | k in checkpoints :: checkpoints[k].(root := roots(k))
  }

  /** The two verifiers agree on the rows 1 to `to`, for every stated head. */
  ghost predicate Agree<P>(hash: P -> Digest, log: seq<AuditRow<P>>, checkpoints: Checkpoints, n: nat, to: int)
    requires n > 0
  {
    forall head, v | Reports(v, RangeFrom(hash, 1, Zero32, n, checkpoints), ListRange(log, 1, to)) ::
      BundleGood(hash, FullExport(log, checkpoints, n, to, head)) <==> v.ok && v.head == head
  }

  /** The right root everywhere but at k. */
  ghost function RootsButOne<P>(hash: P -> Digest, log: seq<AuditRow<P>>, n: nat, k: int): int -> HashText
    requires n > 0
  {
    j => if j != k && n <= j <= |log| then HonestRoot(hash, log, n, j) else Garbled("")
  }

  /** Right roots on a linked log are accepted. */
  lemma RightRootsAccepted<P>(g: Range<P>, log: seq<AuditRow<P>>, to: nat)
    requires g.Sound() && g.from == 1 && g.start == Zero32 && Linked(g.hash, log) && to <= |log|
    requires forall k :: k in g.checkpoints && g.due(k) && k <= to ==> g.checkpoints[k].root == HonestRoot(g.hash, log, g.n, k)
    ensures Accepts(g, log[..to])
  {
    assert log[0..to] == log[..to] && log[..0] == [];
    forall i | 0 <= i < to ensures GoodAt(g, log[..to], i) {
      MiddleRow(g.hash, log, 0, to, i);
      MiddleCheckpoint(g, log, 0, to, i);
    }
  }

  /** A root that is no digest is rejected wherever its checkpoint is looked at. */
  lemma GarbledRootRejected<P>(g: Range<P>, rows: seq<AuditRow<P>>, k: int)
    requires g.from <= k < g.from + |rows| && g.due(k) && k in g.checkpoints && g.checkpoints[k].root.Garbled?
    ensures !Accepts(g, rows)
  {
    assert !CheckpointOk(g, rows, k - g.from);
    assert !GoodAt(g, rows, k - g.from);
  }

  lemma LinkedPrefix<P>(hash: P -> Digest, log: seq<AuditRow<P>>, to: nat)
    requires Linked(hash, log) && to <= |log|
    ensures ListRange(log, 1, to) == log[..to]
    ensures to > 0 ==> log[to - 1].entryHash == Hex(ChainHash(hash, Zero32, log[..to]))
  {
    Gapless(hash, log);
    ListRangeIsSlice(log, 1, to, to);
    if to > 0 { assert RowOk(hash, log, 1, Zero32, to - 1); }
  }

  /** At every boundary of every linked log: a checkpoint that is recorded to start
      before 1 is dropped by the exporter, so its wrong root is found by the range
      verifier and not by the bundle's. */
  lemma MovedCheckpointDiffers<P>(hash: P -> Digest, log: seq<AuditRow<P>>, checkpoints: Checkpoints, n: nat, to: nat, k: int)
    requires n > 0 && Linked(hash, log) && to <= |log|
    requires k in checkpoints && n <= k <= to && k % n == 0 && checkpoints[k].fromSeq < 1
    ensures var moved := WithRoots(checkpoints, RootsButOne(hash, log, n, k));
      && BundleGood(hash, Export(log, moved, n, 1, to))
      && !Accepts(RangeFrom(hash, 1, Zero32, n, moved), ListRange(log, 1, to))
  {
    var moved := WithRoots(checkpoints, RootsButOne(hash, log, n, k));
    var g := RangeFrom(hash, 1, Zero32, n, moved);
    LinkedPrefix(hash, log, to);
    assert g.due(k);
    GarbledRootRejected(g, log[..to], k);
    var h := g.(checkpoints := Relevant(moved, 1, to));
    RightRootsAccepted(h, log, to);
  }

  /** The verifiers agree for every column of roots if and only if no due checkpoint
      in the range is recorded to start before 1. */
  lemma AgreementIsExact<P>(hash: P -> Digest, log: seq<AuditRow<P>>, checkpoints: Checkpoints, n: nat, to: nat)
    requires n > 0 && Linked(hash, log) && to <= |log|
    ensures (forall roots :: Agree(hash, log, WithRoots(checkpoints, roots), n, to)) <==> NoneBeforeOne(checkpoints, n, to)
  {
    if NoneBeforeOne(checkpoints, n, to) {
      forall roots ensures Agree(hash, log, WithRoots(checkpoints, roots), n, to) {
        AgreesWithRoots(hash, log, WithRoots(checkpoints, roots), n, to);
      }
    } else {
      var k :| k in checkpoints && n <= k <= to && k % n == 0 && checkpoints[k].fromSeq < 1;
      DisagreesWithRoots(hash, log, checkpoints, n, to, k);
    }
  }

  lemma AgreesWithRoots<P>(hash: P -> Digest, log: seq<AuditRow<P>>, checkpoints: Checkpoints, n: nat, to: int)
    requires n > 0 && NoneBeforeOne(checkpoints, n, to)
    ensures Agree(hash, log, checkpoints, n, to)
  {
    forall head, v | Reports(v, RangeFrom(hash, 1, Zero32, n, checkpoints), ListRange(log, 1, to))
      ensures BundleGood(hash, FullExport(log, checkpoints, n, to, head)) <==> v.ok && v.head == head
    {
      FullExportAgrees(hash, log, checkpoints, n, to, head, v);
    }
  }

  lemma DisagreesWithRoots<P>(hash: P -> Digest, log: seq<AuditRow<P>>, checkpoints: Checkpoints, n: nat, to: nat, k: int)
    requires n > 0 && Linked(hash, log) && to <= |log|
    requires k in checkpoints && n <= k <= to && k % n == 0 && checkpoints[k].fromSeq < 1
    ensures !Agree(hash, log, WithRoots(checkpoints, RootsButOne(hash, log, n, k)), n, to)
  {
    var moved := WithRoots(checkpoints, RootsButOne(hash, log, n, k));
    var g, rows := RangeFrom(hash, 1, Zero32, n, moved), ListRange(log, 1, to);
    MovedCheckpointDiffers(hash, log, checkpoints, n, to, k);
    var v := SomeReport(g, rows);
    var bundle := Export(log, moved, n, 1, to);
    assert FullExport(log, moved, n, to, bundle.metadata.head) == bundle;
    if Agree(hash, log, moved, n, to) { AgreeAt(hash, log, moved, n, to, bundle.metadata.head, v); }
  }

  lemma AgreeAt<P>(hash: P -> Digest, log: seq<AuditRow<P>>, checkpoints: Checkpoints, n: nat, to: int,
    head: Option<HashText>, v: Verification)
    requires n > 0 && Agree(hash, log, checkpoints, n, to)
    requires Reports(v, RangeFrom(hash, 1, Zero32, n, checkpoints), ListRange(log, 1, to))
    ensures BundleGood(hash, FullExport(log, checkpoints, n, to, head)) <==> v.ok && v.head == head
  {
  }

  /** The range verifier always has something to report. */
  lemma SomeReport<P>(g: Range<P>, rows: seq<AuditRow<P>>) returns (v: Verification)
    ensures Reports(v, g, rows)
  {
    if Accepts(g, rows) {
      AcceptReport(g, rows);
      v := Verification(true, |rows|, Matching(g, |rows|), HeadOf(g.hash, g.start, rows), None);
    } else {
      var f := FirstBreak(g, rows, |rows|);
      BreakReport(g, rows, f, []);
      v := Verification(false, if RowOk(g.hash, rows, g.from, g.start, f) then f + 1 else f, [], None, Some(g.from + f));
    }
  }

  lemma {:induction false} FirstBreak<P>(g: Range<P>, rows: seq<AuditRow<P>>, count: nat) returns (f: nat)
    requires count <= |rows| && !GoodUpTo(g, rows, count)
    ensures BreaksAt(g, rows, f)
    decreases count
  {
    assert count > 0;
    if GoodUpTo(g, rows, count - 1) {
      f := count - 1;
    } else {
      f := FirstBreak(g, rows, count - 1);
    }
  }
}
