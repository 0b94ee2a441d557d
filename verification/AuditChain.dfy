/** The audit hash chain (src/actl/domain/audit/chain.py), and the range verifier
and the append service (src/actl/application/audit_service.py).
*/
module AuditChain {
  import opened Digests
  import opened CanonicalJson
  import opened Merkle

  /** A payload the printer accepts; the append service raises on any other. */
  type Payload = v: Json | Encodable(v) witness Null

  function PayloadHash(payload: Payload): Digest {
    Sha256([Utf8(Encode(payload))])
  }

  /** A row of `audit_log`.  `unhashed` stands for the columns outside the hash:
      trace, actor, action, subject, narration. */
  datatype AuditRow<P> = AuditRow(seqNo: int, payload: P, prevHash: HashText, entryHash: HashText, unhashed: string)

  datatype Checkpoint = Checkpoint(fromSeq: int, root: HashText)

  /** `audit_checkpoints`, by `to_seq`. */
  type Checkpoints = map<int, Checkpoint>

  /******* Queries; the log is listed in order of sequence number *******/

  function ListRange<P>(log: seq<AuditRow<P>>, from: int, to: int): seq<AuditRow<P>> {
    if log == [] then []
    else
      var last := log[|log| - 1];
      ListRange(log[..|log| - 1], from, to) + (if from <= last.seqNo <= to then [last] else [])
  }

  function GetBySeq<P>(log: seq<AuditRow<P>>, seqNo: int): Option<AuditRow<P>> {
    if log == [] then None
    else if log[|log| - 1].seqNo == seqNo then Some(log[|log| - 1])
    else GetBySeq(log[..|log| - 1], seqNo)
  }

  /******* What a correct stretch of the chain is *******/

  /** The hash after these rows, by their payloads alone: the hash before, then the
      payload's, in one preimage. */
  function ChainHash<P>(hash: P -> Digest, start: Digest, rows: seq<AuditRow<P>>): Digest {
    if rows == [] then start
    else
      Sha256([
        Bytes32(ChainHash(hash, start, rows[..|rows| - 1])),
        Bytes32(hash(rows[|rows| - 1].payload))])
  }

  /** Row i carries the next sequence number and both right hashes. */
  ghost predicate RowOk<P>(hash: P -> Digest, rows: seq<AuditRow<P>>, from: int, start: Digest, i: nat)
    requires i < |rows|
  {
    && rows[i].seqNo == from + i
    && rows[i].prevHash == Hex(ChainHash(hash, start, rows[..i]))
    && rows[i].entryHash == Hex(ChainHash(hash, start, rows[..i + 1]))
  }

  /** The hashes after each of the first `count` rows. */
  ghost function Running<P>(hash: P -> Digest, start: Digest, rows: seq<AuditRow<P>>, count: nat): (hashes: seq<Digest>)
    requires count <= |rows|
    ensures |hashes| == count
  {
    seq(count, j requires 0 <= j < count => ChainHash(hash, start, rows[..j + 1]))
  }

  /** The hashes of the n rows that end at row i. */
  ghost function Segment<P>(hash: P -> Digest, start: Digest, rows: seq<AuditRow<P>>, i: nat, n: nat): seq<Digest>
    requires i < |rows| && n <= i + 1
  {
    Running(hash, start, rows, i + 1)[i + 1 - n..]
  }

  /** What a verifier is given besides the rows: where the range starts, the hash
      before it, the segment size, when a checkpoint is due, the checkpoints. */
  datatype Range<!P> = Range(hash: P -> Digest, from: int, start: Digest, n: nat, due: int -> bool, checkpoints: Checkpoints)
  {
    /** A checkpoint is due only where its segment starts in the range. */
    ghost predicate Sound() {
      n > 0 && forall k :: due(k) ==> k - n + 1 >= from
    }
  }

  /** Multiples of n whose segment starts at `from` or later. */
  function Every(n: nat, from: int): int -> bool
    requires n > 0
  {
    k => k % n == 0 && k - n + 1 >= from
  }

  function RangeFrom<P>(hash: P -> Digest, from: int, start: Digest, n: nat, checkpoints: Checkpoints): (g: Range<P>)
    requires n > 0
    ensures g.Sound()
  {
    Range(hash, from, start, n, Every(n, from), checkpoints)
  }

  ghost predicate CheckpointOk<P>(g: Range<P>, rows: seq<AuditRow<P>>, i: nat)
    requires i < |rows|
  {
    var k := g.from + i;
    g.due(k) && k in g.checkpoints ==>
      0 < g.n <= i + 1 && g.checkpoints[k].root == Hex(TreeHash(Segment(g.hash, g.start, rows, i, g.n)))
  }

  ghost predicate GoodAt<P>(g: Range<P>, rows: seq<AuditRow<P>>, i: nat)
    requires i < |rows|
  {
    RowOk(g.hash, rows, g.from, g.start, i) && CheckpointOk(g, rows, i)
  }

  ghost predicate GoodUpTo<P>(g: Range<P>, rows: seq<AuditRow<P>>, count: nat)
    requires count <= |rows|
  {
    forall i :: 0 <= i < count ==> GoodAt(g, rows, i)
  }

  /** The rows and their checkpoints are exactly what a chain over this range holds. */
  ghost predicate Accepts<P>(g: Range<P>, rows: seq<AuditRow<P>>) {
    GoodUpTo(g, rows, |rows|)
  }

  /** Row f is the first that is not right. */
  ghost predicate BreaksAt<P>(g: Range<P>, rows: seq<AuditRow<P>>, f: nat) {
    f < |rows| && GoodUpTo(g, rows, f) && !GoodAt(g, rows, f)
  }

  /******* The range verifier *******/

  /** `compute_entry_hash` */
  function EntryHash(prev: Digest, payloadHash: Digest): Digest {
    Sha256([Bytes32(prev), Bytes32(payloadHash)])
  }

  datatype Verification = Verification(
    ok: bool, entriesVerified: nat, matched: seq<int>, head: Option<HashText>, breakSeq: Option<int>)

  /** The hash before the range, if it can be had. */
  function StartOf<P>(log: seq<AuditRow<P>>, from: int): Result<Option<Digest>> {
    if from == 1 then Ok(Some(Zero32))
    else
      var prior := GetBySeq(log, from - 1);
      if prior.None? then Ok(None)
      else
        var start := ParseHexPrefixed(prior.value.entryHash);
        if start.Ok? then Ok(Some(start.value)) else Err(start.error)
  }

  /** One step of either verifier's loop keeps the running hashes right. */
  lemma WalkStep<P>(hash: P -> Digest, rows: seq<AuditRow<P>>, start: Digest, i: nat)
    requires i < |rows|
    ensures ChainHash(hash, start, rows[..i + 1]) == EntryHash(ChainHash(hash, start, rows[..i]), hash(rows[i].payload))
  {
    assert rows[..i + 1][..i] == rows[..i];
  }

  /** Every checkpoint among the first `count` positions that is due and stored. */
  ghost function Matching<P>(g: Range<P>, count: nat): seq<int> {
    if count == 0 then []
    else
      var k := g.from + count - 1;
      if g.due(k) && k in g.checkpoints then Matching(g, count - 1) + [k] else Matching(g, count - 1)
  }

  lemma {:induction false} MatchingIsAscending<P>(g: Range<P>, count: nat)
    ensures forall k :: k in Matching(g, count) <==> g.from <= k < g.from + count && g.due(k) && k in g.checkpoints
    ensures forall i, j :: 0 <= i < j < |Matching(g, count)| ==> Matching(g, count)[i] < Matching(g, count)[j]
  {
    if count > 0 {
      MatchingIsAscending(g, count - 1);
      var before := Matching(g, count - 1);
      assert forall i :: 0 <= i < |before| ==> before[i] in before;
    }
  }

  /** What a report says about the rows it read. */
  ghost predicate Reports<P>(v: Verification, g: Range<P>, rows: seq<AuditRow<P>>) {
    && (v.ok <==> Accepts(g, rows))
    && (v.ok ==>
         && v.entriesVerified == |rows|
         && v.matched == Matching(g, |rows|)
         && v.head == if rows != [] then Some(Hex(ChainHash(g.hash, g.start, rows))) else None)
    && (!v.ok ==>
         && v.breakSeq.Some? && v.breakSeq.value >= g.from
         && var f := v.breakSeq.value - g.from;
            && BreaksAt(g, rows, f)
            && v.entriesVerified == if RowOk(g.hash, rows, g.from, g.start, f) then f + 1 else f)
  }

  lemma BreakReport<P>(g: Range<P>, rows: seq<AuditRow<P>>, i: nat, matched: seq<int>)
    requires BreaksAt(g, rows, i)
    ensures var verified := if RowOk(g.hash, rows, g.from, g.start, i) then i + 1 else i;
      Reports(Verification(false, verified, matched, None, Some(g.from + i)), g, rows)
  {
  }

  lemma AcceptReport<P>(g: Range<P>, rows: seq<AuditRow<P>>)
    requires Accepts(g, rows)
    ensures var head := if rows != [] then Some(Hex(ChainHash(g.hash, g.start, rows))) else None;
      Reports(Verification(true, |rows|, Matching(g, |rows|), head, None), g, rows)
  {
  }

  lemma RunningStep<P>(hash: P -> Digest, start: Digest, rows: seq<AuditRow<P>>, i: nat)
    requires i < |rows|
    ensures Running(hash, start, rows, i + 1) == Running(hash, start, rows, i) + [ChainHash(hash, start, rows[..i + 1])]
  {
  }

  lemma GoodStep<P>(g: Range<P>, rows: seq<AuditRow<P>>, i: nat)
    requires i < |rows| && GoodUpTo(g, rows, i)
    ensures RowOk(g.hash, rows, g.from, g.start, i) && CheckpointOk(g, rows, i) ==> GoodUpTo(g, rows, i + 1)
    ensures !(RowOk(g.hash, rows, g.from, g.start, i) && CheckpointOk(g, rows, i)) ==> BreaksAt(g, rows, i)
  {
  }

  /** The comparison with a stored checkpoint, which both verifiers make. */
  method MatchCheckpoint<P>(g: Range<P>, ghost rows: seq<AuditRow<P>>, ghost i: nat, seqNo: int, segmentHashes: seq<Digest>)
      returns (checked: bool, same: bool)
    requires g.Sound() && i < |rows| && seqNo == g.from + i && segmentHashes == Running(g.hash, g.start, rows, i + 1)
    ensures checked <==> g.due(seqNo) && seqNo in g.checkpoints
    ensures same <==> CheckpointOk(g, rows, i)
  {
    checked, same := g.due(seqNo) && seqNo in g.checkpoints, true;
    if checked {
      var root := MerkleRoot(segmentHashes[|segmentHashes| - g.n..]);
      same := Hex(root.value) == g.checkpoints[seqNo].root;
    }
  }

  /** The comparison of one row, which both verifiers make. */
  method CheckRow<P>(hash: P -> Digest, entry: AuditRow<P>, expectedSeq: int, prev: Digest,
    ghost g: Range<P>, ghost rows: seq<AuditRow<P>>, ghost i: nat)
      returns (ok: bool, recomputed: Digest)
    requires g.hash == hash && i < |rows| && rows[i] == entry && expectedSeq == g.from + i
    requires prev == ChainHash(g.hash, g.start, rows[..i])
    ensures ok <==> RowOk(g.hash, rows, g.from, g.start, i)
    ensures recomputed == ChainHash(g.hash, g.start, rows[..i + 1])
  {
    WalkStep(g.hash, rows, g.start, i);
    recomputed := EntryHash(prev, hash(entry.payload));
    ok := entry.seqNo == expectedSeq && entry.prevHash == Hex(prev) && entry.entryHash == Hex(recomputed);
  }

  /** All that both verifiers do with one row. */
  method ExamineRow<P>(g: Range<P>, rows: seq<AuditRow<P>>, i: nat, expectedSeq: int, prev: Digest, segmentHashes: seq<Digest>)
      returns (linked: bool, good: bool, matched: bool, recomputed: Digest)
    requires g.Sound() && i < |rows| && expectedSeq == g.from + i
    requires prev == ChainHash(g.hash, g.start, rows[..i]) && segmentHashes == Running(g.hash, g.start, rows, i)
    ensures linked <==> RowOk(g.hash, rows, g.from, g.start, i)
    ensures good <==> GoodAt(g, rows, i)
    ensures good ==> (matched <==> g.due(expectedSeq) && expectedSeq in g.checkpoints)
    ensures recomputed == ChainHash(g.hash, g.start, rows[..i + 1])
    ensures segmentHashes + [recomputed] == Running(g.hash, g.start, rows, i + 1)
  {
    matched := false;
    linked, recomputed := CheckRow(g.hash, rows[i], expectedSeq, prev, g, rows, i);
    RunningStep(g.hash, g.start, rows, i);
    good := linked;
    if linked {
      matched, good := MatchCheckpoint(g, rows, i, expectedSeq, segmentHashes + [recomputed]);
    }
  }

  /** The loop of `verify_chain`: how many rows are good, whether the next one is at
      least linked, the checkpoints matched on the way, and the last hash. */
  method WalkGood<P>(g: Range<P>, rows: seq<AuditRow<P>>)
      returns (count: nat, linked: bool, matched: seq<int>, prev: Digest)
    requires g.Sound()
    ensures count <= |rows| && GoodUpTo(g, rows, count)
    ensures count < |rows| ==> !GoodAt(g, rows, count) && (linked <==> RowOk(g.hash, rows, g.from, g.start, count))
    ensures matched == Matching(g, count) && prev == ChainHash(g.hash, g.start, rows[..count])
  {
    count, linked, matched, prev := 0, true, [], g.start;
    var segmentHashes := [];
    while count < |rows|
      invariant count <= |rows| && GoodUpTo(g, rows, count)
      invariant prev == ChainHash(g.hash, g.start, rows[..count])
      invariant segmentHashes == Running(g.hash, g.start, rows, count)
      invariant matched == Matching(g, count)
    {
      var expectedSeq := g.from + count;
      GoodStep(g, rows, count);
      var good, checked, recomputed;
      linked, good, checked, recomputed := ExamineRow(g, rows, count, expectedSeq, prev, segmentHashes);
      if !good { return; }
      segmentHashes := segmentHashes + [recomputed];
      prev := recomputed;
      if checked { matched := matched + [expectedSeq]; }
      count := count + 1;
    }
  }

  /** The report on what the loop found. */
  method WalkRows<P>(g: Range<P>, rows: seq<AuditRow<P>>) returns (v: Verification)
    requires g.Sound()
    ensures Reports(v, g, rows)
  {
    var count, linked, matched, prev := WalkGood(g, rows);
    if count < |rows| {
      BreakReport(g, rows, count, matched);
      return Verification(false, if linked then count + 1 else count, matched, None, Some(g.from + count));
    }
    AcceptReport(g, rows);
    assert rows[..|rows|] == rows;
    return Verification(true, count, matched, if rows != [] then Some(Hex(prev)) else None, None);
  }

  /** `verify_chain`: the error is a malformed hash in the row before the range. */
  method VerifyChain<P>(hash: P -> Digest, log: seq<AuditRow<P>>, checkpoints: Checkpoints, n: nat, from: int, to: int)
      returns (r: Result<Verification>)
    requires n > 0
    ensures r.Err? <==> StartOf(log, from).Err?
    ensures r.Ok? && StartOf(log, from).value.None? ==>
      r.value == Verification(false, 0, [], None, Some(from - 1))
    ensures r.Ok? && StartOf(log, from).value.Some? ==>
      Reports(r.value, RangeFrom(hash, from, StartOf(log, from).value.value, n, checkpoints), ListRange(log, from, to))
  {
    var rows := ListRange(log, from, to);
    var start := Zero32;
    if from != 1 {
      var prior := GetBySeq(log, from - 1);
      if prior.None? {
        return Ok(Verification(false, 0, [], None, Some(from - 1)));
      }
      var parsed := ParseHexPrefixed(prior.value.entryHash);
      if parsed.Err? { return Err(parsed.error); }
      start := parsed.value;
    }
    var v := WalkRows(RangeFrom(hash, from, start, n, checkpoints), rows);
    return Ok(v);
  }

  /******* The append service *******/

  ghost function HonestCheckpoint<P>(hash: P -> Digest, log: seq<AuditRow<P>>, n: nat, k: int): Checkpoint
    requires 0 < n <= k <= |log|
  {
    Checkpoint(k - n + 1, Hex(TreeHash(Segment(hash, Zero32, log, k - 1, n))))
  }

  ghost predicate Linked<P>(hash: P -> Digest, log: seq<AuditRow<P>>) {
    forall i :: 0 <= i < |log| ==> RowOk(hash, log, 1, Zero32, i)
  }

  ghost predicate CheckpointedBy<P>(hash: P -> Digest, due: int -> bool, log: seq<AuditRow<P>>, checkpoints: Checkpoints, n: nat)
    requires n > 0
  {
    && (forall k :: k in checkpoints <==> k <= |log| && due(k))
    && (forall k :: k in checkpoints ==> n <= k <= |log| && checkpoints[k] == HonestCheckpoint(hash, log, n, k))
  }

  /** A log as the append service leaves it: gapless from 1, hash-linked from the
      genesis value, with the right checkpoint at exactly the multiples of n. */
  ghost predicate Honest<P>(hash: P -> Digest, log: seq<AuditRow<P>>, checkpoints: Checkpoints, n: nat)
    requires n > 0
  {
    Linked(hash, log) && CheckpointedBy(hash, Every(n, 1), log, checkpoints, n)
  }

  /** Sequence number and hash of the last row. */
  function Tail<P>(log: seq<AuditRow<P>>): Option<(int, HashText)> {
    if log == [] then None else Some((log[|log| - 1].seqNo, log[|log| - 1].entryHash))
  }

  /** The row that an append builds from the tail it read. */
  function NextRow<P>(hash: P -> Digest, tail: Option<(int, HashText)>, payload: P, unhashed: string): Result<AuditRow<P>> {
    var prev := if tail.None? then Ok(Zero32) else ParseHexPrefixed(tail.value.1);
    if prev.Err? then Err(prev.error)
    else
      var seqNo := if tail.None? then 1 else tail.value.0 + 1;
      Ok(AuditRow(seqNo, payload, Hex(prev.value), Hex(EntryHash(prev.value, hash(payload))), unhashed))
  }

  ghost function Leaves<P>(rows: seq<AuditRow<P>>): (hashes: seq<Digest>)
    requires forall i :: 0 <= i < |rows| ==> !rows[i].entryHash.Garbled?
    ensures |hashes| == |rows|
  {
    seq(|rows|, i requires 0 <= i < |rows| => rows[i].entryHash.digest)
  }

  /** The checkpoint table after `_write_checkpoint`, unless it raises. */
  ghost function WithCheckpoint<P>(log: seq<AuditRow<P>>, checkpoints: Checkpoints, n: nat, toSeq: int): (r: Result<Checkpoints>)
    requires n > 0
    ensures r.Ok? ==> toSeq in r.value && r.value == checkpoints[toSeq := r.value[toSeq]]
  {
    if toSeq in checkpoints then Ok(checkpoints)
    else
      var segment := ListRange(log, toSeq - n + 1, toSeq);
      if |segment| != n then Err("RuntimeError")
      else if exists i :: 0 <= i < |segment| && segment[i].entryHash.Garbled? then Err("ValueError")
      else Ok(checkpoints[toSeq := Checkpoint(toSeq - n + 1, Hex(TreeHash(Leaves(segment))))])
  }

  function Then<T>(first: Result<()>, second: Result<T>): Result<T> {
    match first
    case Ok(_) => second
    case Err(error) => Err(error)
  }

  class AuditLog<P> {
    const hash: P -> Digest
    const checkpointEvery: nat
    var log: seq<AuditRow<P>>
    var checkpoints: Checkpoints

    ghost predicate Valid()
      reads this
    {
      checkpointEvery > 0 && Honest(hash, log, checkpoints, checkpointEvery)
    }

    constructor (hash: P -> Digest, checkpointEvery: nat)
      requires checkpointEvery > 0
      ensures Valid() && this.hash == hash && this.checkpointEvery == checkpointEvery && log == []
    {
      this.hash := hash;
      this.checkpointEvery, log, checkpoints := checkpointEvery, [], map[];
    }

    /** `append_entry`: on an honest log it never raises and leaves an honest log. */
    method AppendEntry(payload: P, unhashed: string) returns (r: Result<AuditRow<P>>)
      requires Valid()
      modifies this`log, this`checkpoints
      ensures Valid()
      ensures r.Ok? && log == old(log) + [r.value]
      ensures r.value.payload == payload && r.value.unhashed == unhashed
      ensures r.value.seqNo == |old(log)| + 1
      ensures old(log) != [] ==> old(log)[|old(log)| - 1].entryHash.Hex?
      ensures var last := if old(log) == [] then Zero32 else old(log)[|old(log)| - 1].entryHash.digest;
        && r.value.prevHash == Hex(last)
        && r.value.entryHash == Hex(Sha256([Bytes32(last), Bytes32(hash(payload))]))
    {
      HonestExtends(hash, log, checkpoints, checkpointEvery, payload, unhashed);
      assert log != [] ==> RowOk(hash, log, 1, Zero32, |log| - 1);
      r := NextRow(hash, Tail(log), payload, unhashed);
      if r.Err? { return; }
      log := log + [r.value];
      if r.value.seqNo % checkpointEvery == 0 {
        var written := WriteCheckpoint(r.value.seqNo);
        r := Then(written, r);
      }
    }

    method WriteCheckpoint(toSeq: int) returns (r: Result<()>)
      requires checkpointEvery > 0
      modifies this`checkpoints
      ensures var expected := WithCheckpoint(log, old(checkpoints), checkpointEvery, toSeq);
        && (r.Ok? <==> expected.Ok?)
        && (r.Err? ==> r.error == expected.error)
        && checkpoints == if r.Ok? then expected.value else old(checkpoints)
    {
      if toSeq in checkpoints { return Ok(()); }
      var fromSeq := toSeq - checkpointEvery + 1;
      var entries := ListRange(log, fromSeq, toSeq);
      if |entries| != checkpointEvery { return Err("RuntimeError"); }
      var leaves := [];
      for i := 0 to |entries|
        invariant |leaves| == i
        invariant forall j :: 0 <= j < i ==> !entries[j].entryHash.Garbled? && entries[j].entryHash.digest == leaves[j]
      {
        var parsed := ParseHexPrefixed(entries[i].entryHash);
        if parsed.Err? { return Err(parsed.error); }
        leaves := leaves + [parsed.value];
      }
      assert leaves == Leaves(entries);
      var root := MerkleRoot(leaves);
      checkpoints := checkpoints[toSeq := Checkpoint(fromSeq, Hex(root.value))];
      return Ok(());
    }
  }

  /******* Honest logs *******/

  /** In a gapless log a range query is a slice. */
  lemma {:induction false} ListRangeIsSlice<P>(log: seq<AuditRow<P>>, from: int, to: int, end: nat)
    requires forall i :: 0 <= i < |log| ==> log[i].seqNo == i + 1
    requires from >= 1 && (end == to < |log| || end == |log| <= to)
    ensures ListRange(log, from, to) == if from <= end then log[from - 1..end] else []
  {
    if log != [] {
      var front := log[..|log| - 1];
      if to < |log| {
        ListRangeIsSlice(front, from, to, end);
        if from <= end { SliceOfPrefix(log, |front|, from - 1, end); }
      } else {
        ListRangeIsSlice(front, from, to, |front|);
        if from <= end {
          SliceOfPrefix(log, |front|, from - 1, |front|);
          SliceEnd(log, from - 1, |front|);
        }
      }
    }
  }

  lemma {:induction false} GetBySeqIsIndex<P>(log: seq<AuditRow<P>>, k: int)
    requires forall i :: 0 <= i < |log| ==> log[i].seqNo == i + 1
    requires 1 <= k <= |log|
    ensures GetBySeq(log, k) == Some(log[k - 1])
  {
    if k < |log| { GetBySeqIsIndex(log[..|log| - 1], k); }
  }

  lemma PrefixKept<P>(log: seq<AuditRow<P>>, row: AuditRow<P>, k: nat)
    requires k <= |log|
    ensures (log + [row])[..k] == log[..k]
  {
  }

  lemma SegmentKept<P>(hash: P -> Digest, log: seq<AuditRow<P>>, row: AuditRow<P>, i: nat, n: nat)
    requires i < |log| && n <= i + 1
    ensures Segment(hash, Zero32, log + [row], i, n) == Segment(hash, Zero32, log, i, n)
  {
    var before, after := Running(hash, Zero32, log, i + 1), Running(hash, Zero32, log + [row], i + 1);
    forall j | 0 <= j < i + 1 ensures after[j] == before[j] { PrefixKept(log, row, j + 1); }
  }

  lemma LinkedExtends<P>(hash: P -> Digest, log: seq<AuditRow<P>>, payload: P, unhashed: string)
    requires Linked(hash, log)
    ensures NextRow(hash, Tail(log), payload, unhashed).Ok?
    ensures Linked(hash, log + [NextRow(hash, Tail(log), payload, unhashed).value])
  {
    if log != [] {
      assert RowOk(hash, log, 1, Zero32, |log| - 1);
      assert log[..|log| - 1 + 1] == log;
    }
    var row := NextRow(hash, Tail(log), payload, unhashed).value;
    var log' := log + [row];
    forall i | 0 <= i < |log'| ensures RowOk(hash, log', 1, Zero32, i) {
      PrefixKept(log, row, if i < |log| then i + 1 else |log|);
      if i < |log| {
        assert RowOk(hash, log, 1, Zero32, i);
        PrefixKept(log, row, i);
      } else {
        assert log[..|log|] == log;
        WalkStep(hash, log', Zero32, i);
      }
    }
  }

  /** The rows of a segment hold exactly its leaves. */
  lemma SegmentLeaves<P>(hash: P -> Digest, log: seq<AuditRow<P>>, from: nat, n: nat)
    requires Linked(hash, log) && 0 < n && from + n <= |log|
    ensures var segment := log[from..from + n];
      && (forall i :: 0 <= i < |segment| ==> segment[i].entryHash.Hex?)
      && Leaves(segment) == Segment(hash, Zero32, log, from + n - 1, n)
  {
    var segment := log[from..from + n];
    var hashes := Segment(hash, Zero32, log, from + n - 1, n);
    forall i | 0 <= i < |segment| ensures segment[i].entryHash == Hex(hashes[i]) {
      assert RowOk(hash, log, 1, Zero32, from + i);
    }
  }

  /** The last segment of a linked log can always be checkpointed. */
  lemma SegmentReady<P>(hash: P -> Digest, log: seq<AuditRow<P>>, checkpoints: Checkpoints, n: nat)
    requires Linked(hash, log) && 0 < n <= |log| && |log| !in checkpoints
    ensures WithCheckpoint(log, checkpoints, n, |log|) == Ok(checkpoints[|log| := HonestCheckpoint(hash, log, n, |log|)])
  {
    LastRange(hash, log, n);
    SegmentLeaves(hash, log, |log| - n, n);
  }

  lemma LastRange<P>(hash: P -> Digest, log: seq<AuditRow<P>>, n: nat)
    requires Linked(hash, log) && 0 < n <= |log|
    ensures ListRange(log, |log| - n + 1, |log|) == log[|log| - n..|log| - n + n]
  {
    forall i | 0 <= i < |log| ensures log[i].seqNo == i + 1 { assert RowOk(hash, log, 1, Zero32, i); }
    ListRangeIsSlice(log, |log| - n + 1, |log|, |log|);
  }

  /** The checkpoints of a log that has just got its last row. */
  ghost function Checkpointed<P>(
    hash: P -> Digest, due: int -> bool, log: seq<AuditRow<P>>, checkpoints: Checkpoints, n: nat): Checkpoints
    requires n > 0
  {
    if due(|log|) && n <= |log| then checkpoints[|log| := HonestCheckpoint(hash, log, n, |log|)] else checkpoints
  }

  lemma CheckpointsExtend<P>(
    hash: P -> Digest, due: int -> bool, log: seq<AuditRow<P>>, checkpoints: Checkpoints, n: nat, row: AuditRow<P>)
    requires n > 0 && CheckpointedBy(hash, due, log, checkpoints, n) && (due(|log| + 1) ==> n <= |log| + 1)
    ensures CheckpointedBy(hash, due, log + [row], Checkpointed(hash, due, log + [row], checkpoints, n), n)
  {
    forall k | k in checkpoints ensures HonestCheckpoint(hash, log + [row], n, k) == checkpoints[k] {
      SegmentKept(hash, log, row, k - 1, n);
    }
  }

  lemma HonestExtends<P>(hash: P -> Digest, log: seq<AuditRow<P>>, checkpoints: Checkpoints, n: nat, payload: P, unhashed: string)
    requires n > 0 && Honest(hash, log, checkpoints, n)
    ensures NextRow(hash, Tail(log), payload, unhashed).Ok?
    ensures NextRow(hash, Tail(log), payload, unhashed).value.seqNo == |log| + 1
    ensures var log' := log + [NextRow(hash, Tail(log), payload, unhashed).value];
      && Honest(hash, log', Checkpointed(hash, Every(n, 1), log', checkpoints, n), n)
      && WrittenAt(hash, log', checkpoints, n)
  {
    LinkedExtends(hash, log, payload, unhashed);
    var row := NextRow(hash, Tail(log), payload, unhashed).value;
    var log' := log + [row];
    assert RowOk(hash, log', 1, Zero32, |log|);
    CheckpointsExtend(hash, Every(n, 1), log, checkpoints, n, row);
    MultipleAtLeast(|log'|, n);
    assert |log'| !in checkpoints;
    if n <= |log'| { SegmentReady(hash, log', checkpoints, n); }
  }

  /** What the append service writes for the last row is what is due there. */
  ghost predicate WrittenAt<P>(hash: P -> Digest, log: seq<AuditRow<P>>, checkpoints: Checkpoints, n: nat)
    requires n > 0
  {
    var written := Checkpointed(hash, Every(n, 1), log, checkpoints, n);
    if |log| % n == 0 then WithCheckpoint(log, checkpoints, n, |log|) == Ok(written) else written == checkpoints
  }

  lemma MultipleAtLeast(k: nat, n: nat)
    requires n > 0 && k > 0
    ensures k % n == 0 ==> n <= k
  {
  }
}
