/** Honest audit logs over whole runs (src/actl/application/audit_service.py).

Appending transactions interleave freely.  Each append takes the advisory lock,
reads the tail, inserts its row and, on a boundary, writes the checkpoint; the
lock is held until the transaction commits or rolls back.  A run is any sequence
of steps; a step that is not enabled does nothing.
*/
module AuditHistory {
  import opened Digests
  import opened Merkle
  import opened AuditChain

  type TxId = nat

  datatype Pc<P> =
    | Ready
    | Wanting(payload: P, unhashed: string)
    | Locked(payload: P, unhashed: string)
    | SawTail(payload: P, unhashed: string, tail: Option<(int, HashText)>)
    | Inserted(seqNo: int)
    | Raised

  /** A transaction: its uncommitted rows and checkpoints, and where it is. */
  datatype Tx<P> = Tx(rows: seq<AuditRow<P>>, checkpoints: Checkpoints, pc: Pc<P>)

  datatype System<!P> = System(
    hash: P -> Digest,
    n: nat,
    log: seq<AuditRow<P>>,
    checkpoints: Checkpoints,
    lock: Option<TxId>,
    txs: map<TxId, Tx<P>>)

  datatype Step<P> =
    | Call(t: TxId, payload: P, unhashed: string)
    | Lock(t: TxId)
    | ReadTail(t: TxId)
    | Insert(t: TxId)
    | WriteCheckpoint(t: TxId)
    | Commit(t: TxId)
    | Rollback(t: TxId)

  ghost function TxOf<P>(s: System<P>, t: TxId): Tx<P> {
    if t in s.txs then s.txs[t] else Tx([], map[], Ready)
  }

  ghost function View<P>(s: System<P>, t: TxId): seq<AuditRow<P>> {
    s.log + TxOf(s, t).rows
  }

  ghost function ViewCheckpoints<P>(s: System<P>, t: TxId): Checkpoints {
    s.checkpoints + TxOf(s, t).checkpoints
  }

  ghost function WithTx<P>(s: System<P>, t: TxId, tx: Tx<P>): System<P> {
    s.(txs := s.txs[t := tx])
  }

  ghost function WithPc<P>(s: System<P>, t: TxId, pc: Pc<P>): System<P> {
    WithTx(s, t, TxOf(s, t).(pc := pc))
  }

  ghost function Release<P>(s: System<P>, t: TxId): System<P> {
    WithTx(s, t, Tx([], map[], Ready)).(lock := if s.lock == Some(t) then None else s.lock)
  }

  ghost function Apply<P>(s: System<P>, step: Step<P>): System<P>
    requires s.n > 0
  {
    var tx := TxOf(s, step.t);
    match step
    case Call(t, payload, unhashed) =>
      if tx.pc.Ready? then WithPc(s, t, Wanting(payload, unhashed)) else s
    case Lock(t) =>
      if tx.pc.Wanting? && (s.lock.None? || s.lock == Some(t))
      then WithPc(s, t, Locked(tx.pc.payload, tx.pc.unhashed)).(lock := Some(t)) else s
    case ReadTail(t) =>
      if tx.pc.Locked?
      then WithPc(s, t, SawTail(tx.pc.payload, tx.pc.unhashed, Tail(View(s, t)))) else s
    case Insert(t) =>
      if !tx.pc.SawTail? then s
      else
        var row := NextRow(s.hash, tx.pc.tail, tx.pc.payload, tx.pc.unhashed);
        if row.Err? || GetBySeq(View(s, t), row.value.seqNo).Some? then WithPc(s, t, Raised)
        else
          var boundary := row.value.seqNo % s.n == 0;
          WithTx(s, t, tx.(rows := tx.rows + [row.value], pc := if boundary then Inserted(row.value.seqNo) else Ready))
    case WriteCheckpoint(t) =>
      if !tx.pc.Inserted? then s
      else
        var written := WithCheckpoint(View(s, t), ViewCheckpoints(s, t), s.n, tx.pc.seqNo);
        if written.Err? then WithPc(s, t, Raised)
        else WithTx(s, t, tx.(checkpoints := tx.checkpoints[tx.pc.seqNo := written.value[tx.pc.seqNo]], pc := Ready))
    case Commit(t) =>
      if tx.pc.Ready?
      then Release(s, t).(log := View(s, t), checkpoints := ViewCheckpoints(s, t)) else s
    case Rollback(t) => Release(s, t)
  }

  ghost function Run<P>(s: System<P>, steps: seq<Step<P>>): (s': System<P>)
    requires s.n > 0
    ensures s'.n == s.n && s'.hash == s.hash
  {
    if steps == [] then s else Apply(Run(s, steps[..|steps| - 1]), steps[|steps| - 1])
  }

  ghost predicate Initial<P>(s: System<P>) {
    s.n > 0 && s.log == [] && s.checkpoints == map[] && s.lock.None? && s.txs == map[]
  }

  /******* The invariant *******/

  /** What holds of a transaction's own view of the log. */
  ghost predicate TxOk<P>(s: System<P>, t: TxId)
    requires s.n > 0
  {
    var tx := TxOf(s, t);
    if s.lock != Some(t) then tx.rows == [] && tx.checkpoints == map[] && (tx.pc.Ready? || tx.pc.Wanting?)
    else if tx.pc.Inserted? then HalfHonest(s.hash, View(s, t), ViewCheckpoints(s, t), s.n, tx.pc.seqNo)
    else
      && Honest(s.hash, View(s, t), ViewCheckpoints(s, t), s.n)
      && !tx.pc.Raised?
      && (tx.pc.SawTail? ==> tx.pc.tail == Tail(View(s, t)))
  }

  /** All is right but for the checkpoint due at the last row. */
  ghost predicate HalfHonest<P>(hash: P -> Digest, log: seq<AuditRow<P>>, checkpoints: Checkpoints, n: nat, seqNo: int)
    requires n > 0
  {
    && seqNo == |log|
    && WithCheckpoint(log, checkpoints, n, |log|).Ok?
    && Honest(hash, log, WithCheckpoint(log, checkpoints, n, |log|).value, n)
  }

  ghost predicate Inv<P>(s: System<P>) {
    s.n > 0 && Honest(s.hash, s.log, s.checkpoints, s.n) && forall t :: TxOk(s, t)
  }

  /******* Steps keep it *******/

  lemma Unchanged<P>(s: System<P>, s': System<P>, t: TxId)
    requires s.n > 0 && s'.n == s.n && s'.hash == s.hash && TxOk(s, t) && TxOf(s', t) == TxOf(s, t)
    requires s'.lock == Some(t) <==> s.lock == Some(t)
    requires s.lock == Some(t) ==> s'.log == s.log && s'.checkpoints == s.checkpoints
    ensures TxOk(s', t)
  {
  }

  /** A transaction without the lock sees the committed log. */
  lemma PlainView<P>(s: System<P>, t: TxId)
    requires TxOf(s, t).rows == [] && TxOf(s, t).checkpoints == map[]
    ensures View(s, t) == s.log && ViewCheckpoints(s, t) == s.checkpoints
  {
  }

  lemma NoRowYet<P>(hash: P -> Digest, log: seq<AuditRow<P>>, seqNo: int)
    requires Linked(hash, log) && seqNo == |log| + 1
    ensures GetBySeq(log, seqNo).None?
  {
    forall i | 0 <= i < |log| ensures log[i].seqNo == i + 1 { assert RowOk(hash, log, 1, Zero32, i); }
    GetBySeqBeyond(log, seqNo);
  }

  lemma {:induction false} GetBySeqBeyond<P>(log: seq<AuditRow<P>>, seqNo: int)
    requires forall i :: 0 <= i < |log| ==> log[i].seqNo < seqNo
    ensures GetBySeq(log, seqNo).None?
  {
    if log != [] { GetBySeqBeyond(log[..|log| - 1], seqNo); }
  }

  /** The insert never raises, and adds the row built from the tail. */
  lemma Inserts<P>(s: System<P>, t: TxId) returns (row: AuditRow<P>)
    requires Inv(s) && TxOf(s, t).pc.SawTail?
    ensures NextRow(s.hash, Tail(View(s, t)), TxOf(s, t).pc.payload, TxOf(s, t).pc.unhashed) == Ok(row)
    ensures row.seqNo == |View(s, t)| + 1
    ensures var s' := Apply(s, Insert(t));
      && s'.lock == s.lock == Some(t) && s'.log == s.log
      && TxOf(s', t).rows == TxOf(s, t).rows + [row]
      && TxOf(s', t).pc == (if row.seqNo % s.n == 0 then Inserted(row.seqNo) else Ready)
      && View(s', t) == View(s, t) + [row] && ViewCheckpoints(s', t) == ViewCheckpoints(s, t)
  {
    assert TxOk(s, t);
    var tx, log := TxOf(s, t), View(s, t);
    HonestExtends(s.hash, log, ViewCheckpoints(s, t), s.n, tx.pc.payload, tx.pc.unhashed);
    row := NextRow(s.hash, tx.pc.tail, tx.pc.payload, tx.pc.unhashed).value;
    NoRowYet(s.hash, log, row.seqNo);
    Assoc(s.log, tx.rows, [row]);
  }

  lemma InsertKeeps<P>(s: System<P>, t: TxId)
    requires Inv(s) && TxOf(s, t).pc.SawTail?
    ensures TxOk(Apply(s, Insert(t)), t) && Apply(s, Insert(t)).lock == Some(t)
  {
    assert TxOk(s, t);
    var row := Inserts(s, t);
    var s' := Apply(s, Insert(t));
    NowHonest(s.hash, View(s, t), ViewCheckpoints(s, t), s.n, row);
  }

  /** The next row leaves a log that is honest, or will be with its checkpoint. */
  lemma NowHonest<P>(hash: P -> Digest, log: seq<AuditRow<P>>, checkpoints: Checkpoints, n: nat, row: AuditRow<P>)
    requires n > 0 && Honest(hash, log, checkpoints, n) && row.seqNo == |log| + 1
    requires NextRow(hash, Tail(log), row.payload, row.unhashed) == Ok(row)
    ensures row.seqNo % n == 0 ==> HalfHonest(hash, log + [row], checkpoints, n, row.seqNo)
    ensures row.seqNo % n != 0 ==> Honest(hash, log + [row], checkpoints, n)
  {
    HonestExtends(hash, log, checkpoints, n, row.payload, row.unhashed);
  }

  lemma MergeUpdate<K, V>(a: map<K, V>, b: map<K, V>, k: K, v: V)
    ensures a + b[k := v] == (a + b)[k := v]
  {
  }

  lemma WriteCheckpointKeeps<P>(s: System<P>, t: TxId)
    requires Inv(s) && TxOf(s, t).pc.Inserted?
    ensures TxOk(Apply(s, WriteCheckpoint(t)), t) && Apply(s, WriteCheckpoint(t)).lock == Some(t)
  {
    assert TxOk(s, t);
    var s' := Apply(s, WriteCheckpoint(t));
    var written := WithCheckpoint(View(s, t), ViewCheckpoints(s, t), s.n, TxOf(s, t).pc.seqNo).value;
    var k := TxOf(s, t).pc.seqNo;
    MergeUpdate(s.checkpoints, TxOf(s, t).checkpoints, k, written[k]);
  }

  lemma ActorKeeps<P>(s: System<P>, step: Step<P>)
    requires Inv(s)
    ensures TxOk(Apply(s, step), step.t)
  {
    var t := step.t;
    assert TxOk(s, t);
    if s.lock != Some(t) { PlainView(s, t); }
    if step.Insert? && TxOf(s, t).pc.SawTail? { InsertKeeps(s, t); }
    else if step.WriteCheckpoint? && TxOf(s, t).pc.Inserted? { WriteCheckpointKeeps(s, t); }
    else if step.Commit? || step.Rollback? { PlainView(Release(s, t), t); }
    else {
      var s' := Apply(s, step);
      assert View(s', t) == View(s, t) && ViewCheckpoints(s', t) == ViewCheckpoints(s, t);
    }
  }

  lemma ApplyKeeps<P>(s: System<P>, step: Step<P>)
    requires Inv(s)
    ensures Inv(Apply(s, step))
  {
    var s' := Apply(s, step);
    assert TxOk(s, step.t);
    ActorKeeps(s, step);
    if step.Commit? && s.lock != Some(step.t) { PlainView(s, step.t); }
    forall t ensures TxOk(s', t) {
      assert TxOk(s, t);
      if t != step.t { Unchanged(s, s', t); }
    }
  }

  lemma {:induction false} RunKeeps<P>(s: System<P>, steps: seq<Step<P>>)
    requires Initial(s)
    ensures Inv(Run(s, steps))
    decreases |steps|
  {
    if steps == [] {
      forall t ensures TxOk(s, t) {}
    } else {
      RunKeeps(s, steps[..|steps| - 1]);
      ApplyKeeps(Run(s, steps[..|steps| - 1]), steps[|steps| - 1]);
    }
  }

  /** Every committed log is honest, and no append ever raises. */
  lemma AlwaysHonest<P>(s: System<P>, steps: seq<Step<P>>, t: TxId)
    requires Initial(s)
    ensures var s' := Run(s, steps);
      && Honest(s.hash, s'.log, s'.checkpoints, s.n)
      && !TxOf(s', t).pc.Raised?
  {
    RunKeeps(s, steps);
    assert TxOk(Run(s, steps), t);
  }

  /** Only a commit adds to the log, and then what its transaction inserted; a rollback
      leaves nothing of its transaction. */
  lemma StepCommits<P>(s: System<P>, step: Step<P>)
    requires s.n > 0
    ensures Apply(s, step).log == if step.Commit? && TxOf(s, step.t).pc.Ready? then View(s, step.t) else s.log
    ensures step.Rollback? ==>
      && TxOf(Apply(s, step), step.t) == Tx([], map[], Ready) && Apply(s, step).lock != Some(step.t)
      && Apply(s, step).checkpoints == s.checkpoints
  {
  }

  /** Committed rows stay where they are. */
  lemma {:induction false} CommittedStays<P>(s: System<P>, steps: seq<Step<P>>)
    requires s.n > 0
    ensures s.log <= Run(s, steps).log
    decreases |steps|
  {
    if steps != [] {
      CommittedStays(s, steps[..|steps| - 1]);
      StepCommits(Run(s, steps[..|steps| - 1]), steps[|steps| - 1]);
    }
  }

  lemma RunSnoc<P>(s: System<P>, steps: seq<Step<P>>, step: Step<P>) returns (s': System<P>)
    requires s.n > 0
    ensures s' == Run(s, steps + [step]) == Apply(Run(s, steps), step)
  {
    assert (steps + [step])[..|steps|] == steps;
    s' := Run(s, steps + [step]);
  }

  ghost function Reading<P>(t: TxId, payload: P, unhashed: string): seq<Step<P>> {
    [Call(t, payload, unhashed)] + [Lock(t)] + [ReadTail(t)]
  }

  /** A transaction that finds the lock free gets to read the tail. */
  lemma AloneReads<P>(s: System<P>, t: TxId, payload: P, unhashed: string) returns (s': System<P>)
    requires Inv(s) && s.lock.None? && TxOf(s, t).pc.Ready?
    ensures s' == Run(s, Reading(t, payload, unhashed)) && Inv(s')
    ensures s'.log == s.log && s'.lock == Some(t) && TxOf(s', t) == Tx([], map[], SawTail(payload, unhashed, Tail(s.log)))
  {
    assert TxOk(s, t);
    assert [] + [Call(t, payload, unhashed)] == [Call(t, payload, unhashed)];
    var called := RunSnoc(s, [], Call(t, payload, unhashed));
    var locked := RunSnoc(s, [Call(t, payload, unhashed)], Lock(t));
    s' := RunSnoc(s, [Call(t, payload, unhashed)] + [Lock(t)], ReadTail(t));
    ApplyKeeps(s, Call(t, payload, unhashed));
    ApplyKeeps(called, Lock(t));
    ApplyKeeps(locked, ReadTail(t));
    PlainView(locked, t);
  }

  /** The row it then inserts, on top of the committed log. */
  lemma AloneInserts<P>(s: System<P>, t: TxId, payload: P, unhashed: string)
    requires Inv(s) && s.lock == Some(t) && TxOf(s, t) == Tx([], map[], SawTail(payload, unhashed, Tail(s.log)))
    ensures var s' := Apply(s, Insert(t));
      && Inv(s') && s'.log == s.log && s'.lock == Some(t)
      && |TxOf(s', t).rows| == 1 && (TxOf(s', t).pc.Ready? || TxOf(s', t).pc.Inserted?)
      && TxOf(s', t).rows[0].payload == payload && TxOf(s', t).rows[0].unhashed == unhashed
  {
    ApplyKeeps(s, Insert(t));
    var _ := Inserts(s, t);
  }

  /** Whatever checkpoint is due does not stop it from committing. */
  lemma AloneCommits<P>(s: System<P>, t: TxId)
    requires Inv(s) && (TxOf(s, t).pc.Ready? || TxOf(s, t).pc.Inserted?)
    ensures Apply(Apply(s, WriteCheckpoint(t)), Commit(t)).log == s.log + TxOf(s, t).rows
    ensures Apply(Apply(s, WriteCheckpoint(t)), Commit(t)).lock == if s.lock == Some(t) then None else s.lock
  {
    assert TxOk(s, t);
  }

  lemma OneMore<P>(log: seq<AuditRow<P>>, rows: seq<AuditRow<P>>)
    requires |rows| == 1
    ensures |log + rows| == |log| + 1 && (log + rows)[..|log|] == log && (log + rows)[|log|] == rows[0]
  {
  }

  lemma LastSteps<P>(s: System<P>, steps: seq<Step<P>>, t: TxId, inserted: System<P>) returns (s': System<P>)
    requires s.n > 0 && inserted == Run(s, steps)
    requires Inv(inserted) && inserted.lock == Some(t) && (TxOf(inserted, t).pc.Ready? || TxOf(inserted, t).pc.Inserted?)
    ensures s' == Run(s, steps + [WriteCheckpoint(t)] + [Commit(t)])
    ensures s'.log == inserted.log + TxOf(inserted, t).rows && s'.lock.None?
  {
    var written := RunSnoc(s, steps, WriteCheckpoint(t));
    s' := RunSnoc(s, steps + [WriteCheckpoint(t)], Commit(t));
    AloneCommits(inserted, t);
  }

  /** An append that finds the lock free ends with its payload in the last committed
      row, after all the rows there were. */
  lemma AloneAppends<P>(s: System<P>, t: TxId, payload: P, unhashed: string)
    requires Inv(s) && s.lock.None? && TxOf(s, t).pc.Ready?
    ensures var s' := Run(s, Reading(t, payload, unhashed) + [Insert(t)] + [WriteCheckpoint(t)] + [Commit(t)]);
      && |s'.log| == |s.log| + 1 && s'.log[..|s.log|] == s.log && s'.lock.None?
      && s'.log[|s.log|].payload == payload && s'.log[|s.log|].unhashed == unhashed
  {
    var seen := AloneReads(s, t, payload, unhashed);
    AloneInserts(seen, t, payload, unhashed);
    var inserted := RunSnoc(s, Reading(t, payload, unhashed), Insert(t));
    var s' := LastSteps(s, Reading(t, payload, unhashed) + [Insert(t)], t, inserted);
    OneMore(s.log, TxOf(inserted, t).rows);
  }

  /******* The range verifier accepts every range of an honest log *******/

  lemma {:induction false} ChainHashSplit<P>(hash: P -> Digest, start: Digest, log: seq<AuditRow<P>>, a: nat, b: nat)
    requires a <= b <= |log|
    ensures ChainHash(hash, ChainHash(hash, start, log[..a]), log[a..b]) == ChainHash(hash, start, log[..b])
    decreases b
  {
    if a < b {
      ChainHashSplit(hash, start, log, a, b - 1);
      SliceEnd(log, a, b - 1);
      WalkStep(hash, log, start, b - 1);
      assert log[a..b][..b - 1 - a] == log[a..b - 1];
    } else {
      assert log[a..b] == [];
    }
  }

  /** Hashes recomputed from the middle are those recomputed from genesis. */
  lemma MiddleHash<P>(hash: P -> Digest, log: seq<AuditRow<P>>, a: nat, b: nat, j: nat)
    requires a + j <= b <= |log|
    ensures ChainHash(hash, ChainHash(hash, Zero32, log[..a]), log[a..b][..j]) == ChainHash(hash, Zero32, log[..a + j])
  {
    assert log[a..b][..j] == log[a..a + j];
    ChainHashSplit(hash, Zero32, log, a, a + j);
  }

  lemma MiddleSegment<P>(hash: P -> Digest, log: seq<AuditRow<P>>, a: nat, b: nat, i: nat, n: nat)
    requires a + i < b <= |log| && n <= i + 1
    ensures Segment(hash, ChainHash(hash, Zero32, log[..a]), log[a..b], i, n) == Segment(hash, Zero32, log, a + i, n)
  {
    var middle := Running(hash, ChainHash(hash, Zero32, log[..a]), log[a..b], i + 1);
    var whole := Running(hash, Zero32, log, a + i + 1);
    forall j | 0 <= j < i + 1 ensures middle[j] == whole[a + j] { MiddleHash(hash, log, a, b, j + 1); }
  }

  lemma MiddleRow<P>(hash: P -> Digest, log: seq<AuditRow<P>>, a: nat, b: nat, i: nat)
    requires Linked(hash, log) && a + i < b <= |log|
    ensures RowOk(hash, log[a..b], a + 1, ChainHash(hash, Zero32, log[..a]), i)
  {
    assert RowOk(hash, log, 1, Zero32, a + i);
    MiddleHash(hash, log, a, b, i);
    MiddleHash(hash, log, a, b, i + 1);
  }

  /** The root that belongs at k. */
  ghost function HonestRoot<P>(hash: P -> Digest, log: seq<AuditRow<P>>, n: nat, k: int): HashText
    requires 0 < n <= k <= |log|
  {
    Hex(TreeHash(Segment(hash, Zero32, log, k - 1, n)))
  }

  /** Equal segments have equal roots. */
  lemma SameRoot(a: seq<Digest>, b: seq<Digest>, root: HashText)
    requires a == b && a != [] && root == Hex(TreeHash(a))
    ensures root == Hex(TreeHash(b))
  {
  }

  lemma MiddleRoot<P>(g: Range<P>, log: seq<AuditRow<P>>, a: nat, b: nat, i: nat, root: HashText)
    requires a + i < b <= |log| && g.start == ChainHash(g.hash, Zero32, log[..a])
    requires 0 < g.n <= i + 1 && root == HonestRoot(g.hash, log, g.n, a + 1 + i)
    ensures root == Hex(TreeHash(Segment(g.hash, g.start, log[a..b], i, g.n)))
  {
    MiddleSegment(g.hash, log, a, b, i, g.n);
    SameRoot(Segment(g.hash, Zero32, log, a + i, g.n), Segment(g.hash, g.start, log[a..b], i, g.n), root);
  }

  lemma RootGivesCheckpoint<P>(g: Range<P>, rows: seq<AuditRow<P>>, i: nat)
    requires i < |rows| && 0 < g.n <= i + 1 && g.from + i in g.checkpoints
    requires g.checkpoints[g.from + i].root == Hex(TreeHash(Segment(g.hash, g.start, rows, i, g.n)))
    ensures CheckpointOk(g, rows, i)
  {
  }

  lemma MiddleCheckpoint<P>(g: Range<P>, log: seq<AuditRow<P>>, a: nat, b: nat, i: nat)
    requires g.Sound() && a + i < b <= |log| && g.from == a + 1 && g.start == ChainHash(g.hash, Zero32, log[..a])
    requires var k := a + 1 + i;
      g.due(k) && k in g.checkpoints ==> g.checkpoints[k].root == HonestRoot(g.hash, log, g.n, k)
    ensures CheckpointOk(g, log[a..b], i)
  {
    var k, rows := g.from + i, log[a..b];
    if g.due(k) && k in g.checkpoints {
      MiddleRoot(g, log, a, b, i, g.checkpoints[k].root);
      RootGivesCheckpoint(g, rows, i);
    }
  }

  lemma MiddleGood<P>(g: Range<P>, log: seq<AuditRow<P>>, genesisDue: int -> bool, a: nat, b: nat, i: nat)
    requires g.Sound() && a + i < b <= |log| && g.from == a + 1 && g.start == ChainHash(g.hash, Zero32, log[..a])
    requires Linked(g.hash, log) && CheckpointedBy(g.hash, genesisDue, log, g.checkpoints, g.n)
    ensures GoodAt(g, log[a..b], i)
  {
    MiddleRow(g.hash, log, a, b, i);
    MiddleCheckpoint(g, log, a, b, i);
  }

  lemma MiddleAccepted<P>(g: Range<P>, log: seq<AuditRow<P>>, genesisDue: int -> bool, a: nat, b: nat)
    requires g.Sound() && a <= b <= |log| && g.from == a + 1 && g.start == ChainHash(g.hash, Zero32, log[..a])
    requires Linked(g.hash, log) && CheckpointedBy(g.hash, genesisDue, log, g.checkpoints, g.n)
    ensures Accepts(g, log[a..b])
  {
    forall i | 0 <= i < b - a ensures GoodAt(g, log[a..b], i) { MiddleGood(g, log, genesisDue, a, b, i); }
  }

  lemma Gapless<P>(hash: P -> Digest, log: seq<AuditRow<P>>)
    requires Linked(hash, log)
    ensures forall i :: 0 <= i < |log| ==> log[i].seqNo == i + 1
  {
    forall i | 0 <= i < |log| ensures log[i].seqNo == i + 1 { assert RowOk(hash, log, 1, Zero32, i); }
  }

  lemma HonestStart<P>(hash: P -> Digest, log: seq<AuditRow<P>>, from: int)
    requires Linked(hash, log) && 1 <= from <= |log| + 1
    ensures StartOf(log, from) == Ok(Some(ChainHash(hash, Zero32, log[..from - 1])))
  {
    Gapless(hash, log);
    if from > 1 {
      GetBySeqIsIndex(log, from - 1);
      assert RowOk(hash, log, 1, Zero32, from - 2);
    }
  }

  /** The multiples of n whose segment of n rows lies between from and to. */
  ghost predicate AllBoundaries(matched: seq<int>, n: nat, from: int, to: int)
    requires n > 0
  {
    forall k :: k in matched <==> k % n == 0 && from + n - 1 <= k <= to
  }

  /** In an honest log a checkpoint is stored at exactly the multiples of n. */
  lemma StoredAt<P>(hash: P -> Digest, log: seq<AuditRow<P>>, checkpoints: Checkpoints, n: nat, k: int)
    requires n > 0 && CheckpointedBy(hash, Every(n, 1), log, checkpoints, n)
    ensures k in checkpoints <==> k <= |log| && k % n == 0 && k >= n
  {
    assert Every(n, 1)(k) <==> k % n == 0 && k >= n;
  }

  lemma HonestMatches<P>(hash: P -> Digest, log: seq<AuditRow<P>>, g: Range<P>, to: int)
    requires g.Sound() && CheckpointedBy(hash, Every(g.n, 1), log, g.checkpoints, g.n)
    requires 1 <= g.from <= to <= |log| && g.due == Every(g.n, g.from)
    ensures AllBoundaries(Matching(g, to - g.from + 1), g.n, g.from, to)
  {
    MatchingIsAscending(g, to - g.from + 1);
    var matched := Matching(g, to - g.from + 1);
    forall k ensures k in matched <==> k % g.n == 0 && g.from + g.n - 1 <= k <= to {
      StoredAt(hash, log, g.checkpoints, g.n, k);
    }
  }

  lemma HonestHead<P>(hash: P -> Digest, log: seq<AuditRow<P>>, from: int, to: int)
    requires Linked(hash, log) && 1 <= from <= to <= |log|
    ensures ListRange(log, from, to) == log[from - 1..to]
    ensures Hex(ChainHash(hash, ChainHash(hash, Zero32, log[..from - 1]), log[from - 1..to])) == log[to - 1].entryHash
  {
    Gapless(hash, log);
    ListRangeIsSlice(log, from, to, to);
    ChainHashSplit(hash, Zero32, log, from - 1, to);
    assert RowOk(hash, log, 1, Zero32, to - 1);
  }

  lemma HonestRange<P>(hash: P -> Digest, log: seq<AuditRow<P>>, checkpoints: Checkpoints, n: nat, from: int, to: int)
    requires n > 0 && Honest(hash, log, checkpoints, n) && 1 <= from <= to <= |log|
    ensures var g := RangeFrom(hash, from, ChainHash(hash, Zero32, log[..from - 1]), n, checkpoints);
      Accepts(g, log[from - 1..to])
  {
    var g := RangeFrom(hash, from, ChainHash(hash, Zero32, log[..from - 1]), n, checkpoints);
    MiddleAccepted(g, log, Every(n, 1), from - 1, to);
  }

  /** `verify_chain` accepts every range of an honest log, whole, and matches
      exactly the multiples of n whose segment lies inside the range. */
  lemma HonestAccepts<P>(hash: P -> Digest, log: seq<AuditRow<P>>, checkpoints: Checkpoints, n: nat,
    from: int, to: int, v: Verification)
    requires n > 0 && Honest(hash, log, checkpoints, n) && 1 <= from <= to <= |log|
    requires StartOf(log, from).Ok? && StartOf(log, from).value.Some? ==>
      Reports(v, RangeFrom(hash, from, StartOf(log, from).value.value, n, checkpoints), ListRange(log, from, to))
    ensures StartOf(log, from).Ok? && StartOf(log, from).value.Some?
    ensures v.ok && v.entriesVerified == to - from + 1 && v.head == Some(log[to - 1].entryHash)
    ensures AllBoundaries(v.matched, n, from, to)
  {
    HonestStart(hash, log, from);
    HonestHead(hash, log, from, to);
    HonestRange(hash, log, checkpoints, n, from, to);
    var g := RangeFrom(hash, from, ChainHash(hash, Zero32, log[..from - 1]), n, checkpoints);
    HonestMatches(hash, log, g, to);
    assert |log[from - 1..to]| == to - from + 1;
  }
}
