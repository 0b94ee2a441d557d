/** The ledger under concurrency (src/actl/application/ledger_service.py).

Any number of transactions run at once.  Each operation is broken into the
steps the database sees: take the mandate row lock, read the rows of the key,
read the balances, insert; a transaction may run several operations and then
commits or rolls back.  Reads see the committed rows and the transaction's own.
A run is any sequence of steps; a step that is not enabled does nothing.
*/
module LedgerInterleaving {
  import opened Digests
  import opened Ledger

  type TxId = nat

  /** Where a transaction is inside its current operation, with what it has read. */
  datatype Pc =
    | Idle
    | Wanting(op: Operation)
    | Locked(op: Operation)
    | SawRows(op: Operation, seen: set<RefType>)
    | SawTotal(op: Operation, seen: set<RefType>, committed: int)

  datatype Tx = Tx(pending: seq<Row>, pc: Pc)

  datatype System = System(
    caps: map<string, int>,
    committed: seq<Row>,
    locks: map<string, TxId>,
    txs: map<TxId, Tx>)

  datatype Step =
    | Call(t: TxId, op: Operation)
    | Scan(t: TxId, refId: Ref)
    | Lock(t: TxId)
    | ReadRows(t: TxId)
    | ReadTotal(t: TxId)
    | Insert(t: TxId)
    | Commit(t: TxId)
    | Rollback(t: TxId)

  function TxOf(s: System, t: TxId): Tx {
    if t in s.txs then s.txs[t] else Tx([], Idle)
  }

  /** What a transaction reads. */
  function View(s: System, t: TxId): seq<Row> {
    s.committed + TxOf(s, t).pending
  }

  function WithPc(s: System, t: TxId, pc: Pc): System {
    s.(txs := s.txs[t := TxOf(s, t).(pc := pc)])
  }

  function Unlocked(locks: map<string, TxId>, t: TxId): map<string, TxId> {
    map m | m in locks && locks[m] != t :: locks[m]
  }

  /** A request the callers make: the key agrees with its mandate and amount,
      and a reserve is checked against the mandate's own cap. */
  predicate Proper(caps: map<string, int>, op: Operation) {
    && op.refId.mandateId == op.mandateId
    && op.refId.intent.totalMinor == op.amountMinor
    && op.amountMinor > 0
    && (op.mandateId in caps ==> op.maxTotalMinor == caps[op.mandateId] || op.kind != ReservationRow)
  }

  function Apply(s: System, step: Step): System {
    var tx := TxOf(s, step.t);
    match step
    case Call(t, op) =>
      if tx.pc.Idle? && op.kind != ExpireRow && Proper(s.caps, op) then WithPc(s, t, Wanting(op)) else s
    case Scan(t, refId) =>
      var rows := RowsOf(View(s, t), refId);
      var debit := ReservationDebit(rows);
      if tx.pc.Idle? && StateOf(RefTypes(rows)) == Some(HELD) && debit.Some?
      then WithPc(s, t, Wanting(ExpireOperation(debit.value))) else s
    case Lock(t) =>
      if !tx.pc.Wanting? then s
      else
        var m := tx.pc.op.mandateId;
        if m !in s.caps then WithPc(s, t, Idle)
        else if m in s.locks && s.locks[m] != t then s
        else WithPc(s, t, Locked(tx.pc.op)).(locks := s.locks[m := t])
    case ReadRows(t) =>
      if tx.pc.Locked?
      then WithPc(s, t, SawRows(tx.pc.op, RefTypes(RowsOf(View(s, t), tx.pc.op.refId)))) else s
    case ReadTotal(t) =>
      if tx.pc.SawRows?
      then WithPc(s, t, SawTotal(tx.pc.op, tx.pc.seen, Committed(View(s, t), tx.pc.op.mandateId))) else s
    case Insert(t) =>
      if !tx.pc.SawTotal? then s
      else
        var rows := if Decide(tx.pc.op, tx.pc.seen, tx.pc.committed) == Post then PostedRows(tx.pc.op) else [];
        s.(txs := s.txs[t := Tx(tx.pending + rows, Idle)])
    case Commit(t) =>
      if tx.pc.Idle?
      then s.(committed := View(s, t), txs := s.txs[t := Tx([], Idle)], locks := Unlocked(s.locks, t)) else s
    case Rollback(t) =>
      s.(txs := s.txs[t := Tx([], Idle)], locks := Unlocked(s.locks, t))
  }

  function Run(s: System, steps: seq<Step>): System {
    if steps == [] then s else Apply(Run(s, steps[..|steps| - 1]), steps[|steps| - 1])
  }

  predicate Initial(s: System) {
    s.committed == [] && s.locks == map[] && s.txs == map[] && forall m :: m in s.caps ==> s.caps[m] >= 0
  }

  /******* The invariant *******/

  ghost predicate Legal(r: Ref, rows: seq<Row>) {
    rows == [] || (r.intent.totalMinor > 0 && exists phase :: rows == History(r, phase))
  }

  /** No row of these touches mandate m. */
  ghost predicate Foreign(rows: seq<Row>, m: string) {
    forall row :: row in rows ==> row.refId.mandateId != m && row.movement.account.mandateId != m
  }

  ghost predicate Owns(s: System, t: TxId, m: string) {
    m in s.locks && s.locks[m] == t
  }

  ghost function ViewRows(s: System, t: TxId, r: Ref): seq<Row> {
    RowsOf(s.committed, r) + RowsOf(TxOf(s, t).pending, r)
  }

  ghost function ViewTotal(s: System, t: TxId, m: string): int {
    Committed(s.committed, m) + Committed(TxOf(s, t).pending, m)
  }

  ghost predicate TableOk(s: System) {
    && (forall m :: m in s.caps ==> Committed(s.committed, m) <= s.caps[m])
    && (forall m :: m !in s.caps ==> Foreign(s.committed, m))
    && (forall r :: Legal(r, RowsOf(s.committed, r)))
  }

  /** A locked mandate, as the owner of the lock would leave it. */
  ghost predicate LockedOk(s: System, t: TxId, m: string) {
    && m in s.caps
    && ViewTotal(s, t, m) <= s.caps[m]
    && (forall r: Ref :: r.mandateId == m ==> Legal(r, ViewRows(s, t, r)))
  }

  ghost predicate PcOk(s: System, t: TxId) {
    var pc := TxOf(s, t).pc;
    && (!pc.Idle? ==> Proper(s.caps, pc.op))
    && (pc.Locked? || pc.SawRows? || pc.SawTotal? ==> Owns(s, t, pc.op.mandateId))
    && (pc.SawRows? || pc.SawTotal? ==> pc.seen == RefTypes(ViewRows(s, t, pc.op.refId)))
    && (pc.SawTotal? ==> pc.committed == ViewTotal(s, t, pc.op.mandateId))
  }

  ghost predicate TxOk(s: System, t: TxId) {
    && (forall m :: !Owns(s, t, m) ==> Foreign(TxOf(s, t).pending, m))
    && (forall m :: Owns(s, t, m) ==> LockedOk(s, t, m))
    && PcOk(s, t)
  }

  ghost predicate Inv(s: System) {
    TableOk(s) && forall t :: TxOk(s, t)
  }

  /******* Lemmas *******/

  lemma {:induction false} ForeignQueries(rows: seq<Row>, m: string)
    requires Foreign(rows, m)
    ensures Committed(rows, m) == 0
    ensures forall r: Ref :: r.mandateId == m ==> RowsOf(rows, r) == []
  {
    if rows != [] {
      ForeignQueries(rows[..|rows| - 1], m);
      assert rows[|rows| - 1] in rows;
    }
  }

  lemma ViewQueries(s: System, t: TxId, r: Ref, m: string)
    ensures RowsOf(View(s, t), r) == ViewRows(s, t, r)
    ensures Committed(View(s, t), m) == ViewTotal(s, t, m)
  {
    RowsOfAppend(s.committed, TxOf(s, t).pending, r);
    BalanceAppend(s.committed, TxOf(s, t).pending, Account(m, Reserved));
    BalanceAppend(s.committed, TxOf(s, t).pending, Account(m, Settled));
  }

  lemma PostExtends(op: Operation, phase: Phase, committed: int)
    requires Agrees(op) && Decide(op, RefTypes(History(op.refId, phase)), committed) == Post
    ensures History(op.refId, phase) + PostedRows(op) == History(op.refId, PhaseAfter(op.kind))
  {
    HistoryKinds(op.refId, phase);
    assert ReservationRow in RefTypes(History(op.refId, phase));
  }

  /** Inserting what an operation decided keeps the history of its key legal. */
  lemma PostLegal(op: Operation, rows: seq<Row>, committed: int)
    requires Legal(op.refId, rows) && Agrees(op)
    requires Decide(op, RefTypes(rows), committed) == Post
    ensures Legal(op.refId, rows + PostedRows(op))
  {
    var r := op.refId;
    if rows == [] {
      assert RefTypes(rows) == {};
      assert rows + PostedRows(op) == History(r, Held);
    } else {
      var phase :| rows == History(r, phase);
      PostExtends(op, phase, committed);
    }
  }

  lemma PostTotal(op: Operation)
    requires Agrees(op)
    ensures Committed(PostedRows(op), op.mandateId) ==
      match op.kind
      case ReservationRow => op.amountMinor
      case CaptureRow => 0
      case _ => -op.amountMinor
    ensures forall m :: m != op.mandateId ==> Foreign(PostedRows(op), m)
    ensures forall r :: RowsOf(PostedRows(op), r) == if r == op.refId then PostedRows(op) else []
  {
    forall r, bucket {
      PairQueries(op.kind, op.mandateId, op.amountMinor, op.refId, r, Account(op.mandateId, bucket));
    }
    assert RowsOf(PostedRows(op), op.refId) == PostedRows(op);
  }

  /** A transaction that does not act keeps its invariant as long as the committed
      rows of the mandates it locked, and its own locks, stay as they are. */
  lemma Bystander(s: System, s': System, t: TxId)
    requires TxOk(s, t) && s'.caps == s.caps && TxOf(s', t) == TxOf(s, t)
    requires forall m :: Owns(s', t, m) <==> Owns(s, t, m)
    requires forall m :: Owns(s, t, m) ==> Committed(s'.committed, m) == Committed(s.committed, m)
    requires forall r: Ref :: Owns(s, t, r.mandateId) ==> RowsOf(s'.committed, r) == RowsOf(s.committed, r)
    ensures TxOk(s', t)
  {
    forall m | Owns(s', t, m) ensures LockedOk(s', t, m) {
      assert LockedOk(s, t, m);
      forall r: Ref | r.mandateId == m ensures Legal(r, ViewRows(s', t, r)) {
        assert ViewRows(s', t, r) == ViewRows(s, t, r);
      }
    }
    assert PcOk(s, t);
  }

  lemma CallKeeps(s: System, step: Step)
    requires Inv(s) && step.Call?
    ensures Inv(Apply(s, step))
  {
    var s' := Apply(s, step);
    forall t ensures TxOk(s', t) {
      assert TxOk(s, t);
      if t != step.t { Bystander(s, s', t); } else { SameLocked(s, s', t); }
    }
  }

  /** The actor's locked mandates are untouched by a step that only moves its pc. */
  lemma SameLocked(s: System, s': System, t: TxId)
    requires TxOk(s, t) && s'.caps == s.caps && s'.committed == s.committed
    requires TxOf(s', t).pending == TxOf(s, t).pending
    requires forall m :: Owns(s', t, m) <==> Owns(s, t, m)
    ensures forall m :: !Owns(s', t, m) ==> Foreign(TxOf(s', t).pending, m)
    ensures forall m :: Owns(s', t, m) ==> LockedOk(s', t, m)
  {
    forall m | Owns(s', t, m) ensures LockedOk(s', t, m) {
      assert LockedOk(s, t, m);
      forall r: Ref | r.mandateId == m ensures Legal(r, ViewRows(s', t, r)) {
        assert ViewRows(s', t, r) == ViewRows(s, t, r);
      }
    }
  }

  lemma ReadKeeps(s: System, step: Step)
    requires Inv(s) && (step.ReadRows? || step.ReadTotal?)
    ensures Inv(Apply(s, step))
  {
    var s' := Apply(s, step);
    forall t ensures TxOk(s', t) {
      assert TxOk(s, t);
      if t != step.t {
        Bystander(s, s', t);
      } else {
        SameLocked(s, s', t);
        assert PcOk(s, t);
        var pc := TxOf(s, t).pc;
        if !pc.Idle? { ViewQueries(s, t, pc.op.refId, pc.op.mandateId); }
      }
    }
  }

  /** A first look that finds a held reservation reads its own mandate and amount. */
  lemma ScanKeeps(s: System, step: Step)
    requires Inv(s) && step.Scan?
    ensures Inv(Apply(s, step))
  {
    var s' := Apply(s, step);
    var r := step.refId;
    forall t ensures TxOk(s', t) {
      assert TxOk(s, t);
      if t != step.t {
        Bystander(s, s', t);
      } else {
        SameLocked(s, s', t);
        ViewQueries(s, t, r, r.mandateId);
        var rows := ViewRows(s, t, r);
        assert Legal(r, rows) by {
          if Owns(s, t, r.mandateId) {
            assert LockedOk(s, t, r.mandateId);
          } else {
            ForeignQueries(TxOf(s, t).pending, r.mandateId);
            assert rows == RowsOf(s.committed, r);
          }
        }
        LegalScan(r, rows);
      }
    }
  }

  lemma LegalScan(r: Ref, rows: seq<Row>)
    requires Legal(r, rows)
    ensures StateOf(RefTypes(rows)) == Some(HELD) && ReservationDebit(rows).Some? ==>
      Agrees(ExpireOperation(ReservationDebit(rows).value))
  {
    if rows != [] {
      var phase :| rows == History(r, phase);
      HistoryKinds(r, phase);
      var pair := PairFor(ReservationRow, r);
      if phase == Held {
        assert rows == pair;
        assert ReservationDebit(pair[1..]) == Some(pair[1]);
      }
    }
  }

  lemma LockKeeps(s: System, step: Step)
    requires Inv(s) && step.Lock?
    ensures Inv(Apply(s, step))
  {
    var s', actor := Apply(s, step), step.t;
    forall t ensures TxOk(s', t) {
      assert TxOk(s, t) && TxOk(s, actor);
      if t != actor {
        Bystander(s, s', t);
      } else if s'.locks == s.locks {
        SameLocked(s, s', t);
        assert PcOk(s, t);
      } else {
        var m := TxOf(s, t).pc.op.mandateId;
        assert PcOk(s, t);
        forall m' | Owns(s', t, m') ensures LockedOk(s', t, m') {
          if Owns(s, t, m') {
            assert LockedOk(s, t, m');
          } else {
            assert m' == m;
            ForeignQueries(TxOf(s, t).pending, m);
          }
          forall r: Ref | r.mandateId == m' ensures Legal(r, ViewRows(s', t, r)) {
            assert ViewRows(s', t, r) == ViewRows(s, t, r);
            if !Owns(s, t, m') {
              assert ViewRows(s, t, r) == RowsOf(s.committed, r);
            }
          }
        }
      }
    }
  }

  lemma InsertKeeps(s: System, step: Step)
    requires Inv(s) && step.Insert?
    ensures Inv(Apply(s, step))
  {
    var s', actor := Apply(s, step), step.t;
    forall t ensures TxOk(s', t) {
      assert TxOk(s, t);
      if t != actor {
        Bystander(s, s', t);
      } else {
        assert PcOk(s, t);
        if s' != s {
          InsertKeepsActor(s, t);
        }
      }
    }
  }

  ghost predicate AboutToPost(s: System, t: TxId) {
    var pc := TxOf(s, t).pc;
    PcOk(s, t) && pc.SawTotal? && Decide(pc.op, pc.seen, pc.committed) == Post
  }

  lemma InsertKeepsActor(s: System, t: TxId)
    requires TxOk(s, t) && TxOf(s, t).pc.SawTotal?
    ensures TxOk(Apply(s, Insert(t)), t)
  {
    if AboutToPost(s, t) { PostKeepsActor(s, t); } else { ReplyKeepsActor(s, t); }
  }

  /** An operation that only replies leaves the transaction's rows alone. */
  lemma ReplyKeepsActor(s: System, t: TxId)
    requires TxOk(s, t) && TxOf(s, t).pc.SawTotal? && !AboutToPost(s, t)
    ensures TxOk(Apply(s, Insert(t)), t)
  {
    assert TxOf(s, t).pending + [] == TxOf(s, t).pending;
    SameLocked(s, Apply(s, Insert(t)), t);
  }

  lemma PostKeepsActor(s: System, t: TxId)
    requires TxOk(s, t) && AboutToPost(s, t)
    ensures TxOk(Apply(s, Insert(t)), t)
  {
    var s' := Apply(s, Insert(t));
    forall m | !Owns(s', t, m) ensures Foreign(TxOf(s', t).pending, m) { PostIsForeign(s, t, m); }
    forall m | Owns(s', t, m) ensures LockedOk(s', t, m) { InsertLocked(s, t, m); }
  }

  lemma PostIsForeign(s: System, t: TxId, m: string)
    requires AboutToPost(s, t) && !Owns(s, t, m) && Foreign(TxOf(s, t).pending, m)
    ensures Foreign(TxOf(Apply(s, Insert(t)), t).pending, m)
  {
  }

  lemma InsertLocked(s: System, t: TxId, m: string)
    requires AboutToPost(s, t) && LockedOk(s, t, m)
    ensures LockedOk(Apply(s, Insert(t)), t, m)
  {
    InsertTotal(s, t, m);
    forall r: Ref | r.mandateId == m ensures Legal(r, ViewRows(Apply(s, Insert(t)), t, r)) { InsertRows(s, t, r); }
  }

  lemma InsertTotal(s: System, t: TxId, m: string)
    requires AboutToPost(s, t) && LockedOk(s, t, m)
    ensures ViewTotal(Apply(s, Insert(t)), t, m) <= s.caps[m]
  {
    var tx := TxOf(s, t);
    var rows := PostedRows(tx.pc.op);
    BalanceAppend(tx.pending, rows, Account(m, Reserved));
    BalanceAppend(tx.pending, rows, Account(m, Settled));
    PostTotal(tx.pc.op);
    if m != tx.pc.op.mandateId { ForeignQueries(rows, m); }
  }

  lemma InsertedView(s: System, t: TxId, r: Ref)
    requires AboutToPost(s, t)
    ensures ViewRows(Apply(s, Insert(t)), t, r) ==
      ViewRows(s, t, r) + if r == TxOf(s, t).pc.op.refId then PostedRows(TxOf(s, t).pc.op) else []
  {
    var tx := TxOf(s, t);
    var op := tx.pc.op;
    RowsOfAppend(tx.pending, PostedRows(op), r);
    PairQueries(op.kind, op.mandateId, op.amountMinor, op.refId, r, Account("", Reserved));
    Assoc(RowsOf(s.committed, r), RowsOf(tx.pending, r), RowsOf(PostedRows(op), r));
  }

  lemma InsertRows(s: System, t: TxId, r: Ref)
    requires AboutToPost(s, t) && Legal(r, ViewRows(s, t, r))
    ensures Legal(r, ViewRows(Apply(s, Insert(t)), t, r))
  {
    var pc := TxOf(s, t).pc;
    InsertedView(s, t, r);
    if r == pc.op.refId {
      PostLegal(pc.op, ViewRows(s, t, r), pc.committed);
    } else {
      assert ViewRows(s, t, r) + [] == ViewRows(s, t, r);
    }
  }

  /** Committing moves the totals of the mandates that the transaction locked, and of
      no others, to what it saw. */
  lemma CommitTotals(s: System, t: TxId, m: string)
    requires TxOk(s, t)
    ensures Owns(s, t, m) ==> m in s.caps && Committed(View(s, t), m) <= s.caps[m]
    ensures !Owns(s, t, m) ==> Committed(View(s, t), m) == Committed(s.committed, m) && Foreign(TxOf(s, t).pending, m)
  {
    ViewQueries(s, t, Ref(m, Intent(0, Terms("", "", "", 0, 0, 0, false, 0, 0, "")), 0), m);
    if Owns(s, t, m) { assert LockedOk(s, t, m); } else { ForeignQueries(TxOf(s, t).pending, m); }
  }

  lemma CommitRows(s: System, t: TxId, r: Ref)
    requires TxOk(s, t) && TableOk(s)
    ensures Legal(r, RowsOf(View(s, t), r))
    ensures !Owns(s, t, r.mandateId) ==> RowsOf(View(s, t), r) == RowsOf(s.committed, r)
  {
    ViewQueries(s, t, r, r.mandateId);
    if Owns(s, t, r.mandateId) {
      assert LockedOk(s, t, r.mandateId);
    } else {
      ForeignQueries(TxOf(s, t).pending, r.mandateId);
      assert ViewRows(s, t, r) == RowsOf(s.committed, r);
    }
  }

  lemma CommitTable(s: System, t: TxId)
    requires TxOk(s, t) && TableOk(s)
    ensures forall m :: m in s.caps ==> Committed(View(s, t), m) <= s.caps[m]
    ensures forall m :: m !in s.caps ==> Foreign(View(s, t), m)
    ensures forall r :: Legal(r, RowsOf(View(s, t), r))
  {
    forall m | m in s.caps ensures Committed(View(s, t), m) <= s.caps[m] { CommitTotals(s, t, m); }
    forall m | m !in s.caps ensures Foreign(View(s, t), m) {
      CommitTotals(s, t, m);
      assert Foreign(s.committed, m);
    }
    forall r ensures Legal(r, RowsOf(View(s, t), r)) { CommitRows(s, t, r); }
  }

  lemma CommitKeeps(s: System, step: Step)
    requires Inv(s) && step.Commit?
    ensures Inv(Apply(s, step))
  {
    var s', actor := Apply(s, step), step.t;
    assert TxOk(s, actor);
    if s' == s { return; }
    CommitTable(s, actor);
    forall m ensures !Owns(s, actor, m) ==> Committed(s'.committed, m) == Committed(s.committed, m) {
      CommitTotals(s, actor, m);
    }
    forall r: Ref ensures !Owns(s, actor, r.mandateId) ==> RowsOf(s'.committed, r) == RowsOf(s.committed, r) {
      CommitRows(s, actor, r);
    }
    forall t ensures TxOk(s', t) {
      assert TxOk(s, t);
      if t != actor { Bystander(s, s', t); }
    }
  }

  lemma RollbackKeeps(s: System, step: Step)
    requires Inv(s) && step.Rollback?
    ensures Inv(Apply(s, step))
  {
    var s' := Apply(s, step);
    forall t ensures TxOk(s', t) {
      assert TxOk(s, t);
      if t != step.t { Bystander(s, s', t); }
    }
  }

  lemma ApplyKeeps(s: System, step: Step)
    requires Inv(s)
    ensures Inv(Apply(s, step))
  {
    match step
    case Call(_, _) => CallKeeps(s, step);
    case Scan(_, _) => ScanKeeps(s, step);
    case Lock(_) => LockKeeps(s, step);
    case ReadRows(_) => ReadKeeps(s, step);
    case ReadTotal(_) => ReadKeeps(s, step);
    case Insert(_) => InsertKeeps(s, step);
    case Commit(_) => CommitKeeps(s, step);
    case Rollback(_) => RollbackKeeps(s, step);
  }

  lemma {:induction false} RunKeeps(s: System, steps: seq<Step>)
    requires Initial(s)
    ensures Inv(Run(s, steps)) && Run(s, steps).caps == s.caps
    decreases |steps|
  {
    if steps == [] {
      forall t ensures TxOk(s, t) {}
      forall r ensures Legal(r, RowsOf(s.committed, r)) {}
    } else {
      RunKeeps(s, steps[..|steps| - 1]);
      ApplyKeeps(Run(s, steps[..|steps| - 1]), steps[|steps| - 1]);
    }
  }

  /******* Main results *******/

  /** The book that a table of legal histories stands for. */
  ghost function BookOf(entries: seq<Row>): Book {
    map r | r in (set row | row in entries :: row.refId) :: PhaseOf(RefTypes(RowsOf(entries, r)))
  }

  ghost function PhaseOf(kinds: set<RefType>): Phase {
    if ReverseRow in kinds then Reversed
    else if ExpireRow in kinds then Expired
    else if ReleaseRow in kinds then Released
    else if CaptureRow in kinds then Captured
    else Held
  }

  lemma {:induction false} RowsOfIsFilter(entries: seq<Row>, r: Ref)
    ensures RowsOf(entries, r) == [] <==> r !in (set row | row in entries :: row.refId)
  {
    if entries != [] {
      var front, last := entries[..|entries| - 1], entries[|entries| - 1];
      RowsOfIsFilter(front, r);
      assert entries == front + [last];
    }
  }

  lemma LegalPhase(r: Ref, rows: seq<Row>)
    requires Legal(r, rows) && rows != []
    ensures rows == History(r, PhaseOf(RefTypes(rows)))
  {
    var phase :| rows == History(r, phase);
    HistoryKinds(r, phase);
  }

  lemma LegalRefines(entries: seq<Row>)
    requires forall r :: Legal(r, RowsOf(entries, r))
    ensures Refines(entries, BookOf(entries))
  {
    forall r ensures RowsOf(entries, r) == ExpectedRows(BookOf(entries), r) {
      RowsOfIsFilter(entries, r);
      if RowsOf(entries, r) != [] { LegalPhase(r, RowsOf(entries, r)); }
    }
  }

  /** No interleaving ever commits more than the cap of a mandate. */
  lemma NeverOverspent(s: System, steps: seq<Step>, m: string)
    requires Initial(s) && m in s.caps
    ensures var entries := Run(s, steps).committed;
      Balance(entries, Account(m, Reserved)) + Balance(entries, Account(m, Settled)) <= s.caps[m]
  {
    RunKeeps(s, steps);
  }

  /** Every committed table refines a book, with balances that are never negative
      in the reserved and settled buckets and that net to zero over the three. */
  lemma AlwaysABook(s: System, steps: seq<Step>)
    requires Initial(s)
    ensures var entries := Run(s, steps).committed;
      && Refines(entries, BookOf(entries))
      && WellFormed(BookOf(entries), s.caps.Keys)
      && forall m ::
        && Balance(entries, Account(m, Reserved)) == Total(BookOf(entries), Account(m, Reserved)) >= 0
        && Balance(entries, Account(m, Settled)) == Total(BookOf(entries), Account(m, Settled)) >= 0
        && Balance(entries, Account(m, Available)) + Committed(entries, m) == 0
  {
    RunKeeps(s, steps);
    var s' := Run(s, steps);
    var entries := s'.committed;
    var book := BookOf(entries);
    LegalRefines(entries);
    forall r | r in book ensures r.intent.totalMinor > 0 && r.mandateId in s.caps.Keys {
      RowsOfIsFilter(entries, r);
      assert Legal(r, RowsOf(entries, r));
      var row :| row in entries && row.refId == r;
      assert r.mandateId !in s'.caps ==> Foreign(entries, r.mandateId);
    }
    forall m
      ensures Balance(entries, Account(m, Reserved)) == Total(book, Account(m, Reserved)) >= 0
      ensures Balance(entries, Account(m, Settled)) == Total(book, Account(m, Settled)) >= 0
      ensures Balance(entries, Account(m, Available)) + Committed(entries, m) == 0
    {
      BalanceIsTotal(entries, book, Account(m, Reserved));
      BalanceIsTotal(entries, book, Account(m, Settled));
      BalanceIsTotal(entries, book, Account(m, Available));
      BucketsNetToZero(book, m);
      TotalNonNegative(book, Account(m, Reserved));
      TotalNonNegative(book, Account(m, Settled));
    }
  }

  lemma {:induction false} TotalNonNegative(book: Book, account: Account)
    requires forall r :: r in book ==> r.intent.totalMinor > 0
    requires account.bucket != Available
    ensures Total(book, account) >= 0
    decreases |book|
  {
    if book != map[] {
      var r :| r in book;
      TotalPick(book, r, account);
      TotalNonNegative(book - {r}, account);
    }
  }

  /******* Nothing is lost *******/

  lemma RunSnoc(s: System, steps: seq<Step>, step: Step)
    ensures Run(s, steps + [step]) == Apply(Run(s, steps), step)
  {
    assert (steps + [step])[..|steps|] == steps;
  }

  /** Only a commit changes the table, and it appends what its transaction inserted. */
  lemma StepCommits(s: System, step: Step)
    ensures Apply(s, step).committed ==
      if step.Commit? && TxOf(s, step.t).pc.Idle? then s.committed + TxOf(s, step.t).pending else s.committed
  {
  }

  /** A rollback leaves nothing of its transaction. */
  lemma RollbackDiscards(s: System, t: TxId)
    ensures var s' := Apply(s, Rollback(t));
      && s'.committed == s.committed && TxOf(s', t) == Tx([], Idle)
      && forall m :: m in s'.locks ==> m in s.locks && s'.locks[m] != t
  {
  }

  /** What a transaction has inserted stays its own until it commits or rolls back. */
  lemma PendingStays(s: System, step: Step, t: TxId)
    requires !(step.t == t && (step.Commit? || step.Rollback?))
    ensures TxOf(s, t).pending <= TxOf(Apply(s, step), t).pending
  {
  }

  /** Committed rows are never lost, changed or reordered. */
  lemma {:induction false} CommittedStays(s: System, before: seq<Step>, after: seq<Step>)
    ensures Run(s, before).committed <= Run(s, before + after).committed
    decreases |after|
  {
    if after == [] {
      assert before + after == before;
    } else {
      var front, last := after[..|after| - 1], after[|after| - 1];
      CommittedStays(s, before, front);
      assert before + after == (before + front) + [last];
      RunSnoc(s, before + front, last);
      StepCommits(Run(s, before + front), last);
    }
  }

  /** Right after a commit the table holds all that the transaction had inserted. */
  lemma CommitIsDurable(s: System, steps: seq<Step>, t: TxId)
    requires TxOf(Run(s, steps), t).pc.Idle?
    ensures Run(s, steps + [Commit(t)]).committed == Run(s, steps).committed + TxOf(Run(s, steps), t).pending
    ensures TxOf(Run(s, steps + [Commit(t)]), t).pending == []
  {
    RunSnoc(s, steps, Commit(t));
  }

  /** The steps of one operation in a transaction of its own. */
  function Alone(t: TxId, begin: Step): seq<Step> {
    [begin] + [Lock(t)] + [ReadRows(t)] + [ReadTotal(t)] + [Insert(t)] + [Commit(t)]
  }

  lemma RunAlone(s: System, t: TxId, begin: Step)
    ensures Run(s, Alone(t, begin)) ==
      Apply(Apply(Apply(Apply(Apply(Apply(s, begin), Lock(t)), ReadRows(t)), ReadTotal(t)), Insert(t)), Commit(t))
  {
    var one := [begin];
    RunSnoc(s, [], begin);
    assert [] + one == one;
    RunSnoc(s, one, Lock(t));
    RunSnoc(s, one + [Lock(t)], ReadRows(t));
    RunSnoc(s, one + [Lock(t)] + [ReadRows(t)], ReadTotal(t));
    RunSnoc(s, one + [Lock(t)] + [ReadRows(t)] + [ReadTotal(t)], Insert(t));
    RunSnoc(s, one + [Lock(t)] + [ReadRows(t)] + [ReadTotal(t)] + [Insert(t)], Commit(t));
  }

  /** Nothing but the operation is on the transaction's mind, and nobody else holds its
      mandate. */
  ghost predicate Wants(s: System, t: TxId, op: Operation) {
    && TxOf(s, t) == Tx([], Wanting(op))
    && op.mandateId !in s.locks && forall m :: m in s.locks ==> s.locks[m] != t
  }

  lemma FromWanting(s: System, t: TxId, op: Operation)
    requires Wants(s, t, op)
    ensures var s' := Apply(Apply(Apply(Apply(Apply(s, Lock(t)), ReadRows(t)), ReadTotal(t)), Insert(t)), Commit(t));
      && s'.committed == Execute(s.caps.Keys, s.committed, op).entries
      && TxOf(s', t) == Tx([], Idle) && s'.locks == s.locks && s'.caps == s.caps
  {
    assert s.committed + [] == s.committed;
    if op.mandateId in s.caps {
      var kinds, total := RefTypes(RowsOf(s.committed, op.refId)), Committed(s.committed, op.mandateId);
      ExecutePlan(s.caps.Keys, s.committed, op, kinds, total);
      var rows := if Decide(op, kinds, total) == Post then PostedRows(op) else [];
      assert [] + rows == rows;
      assert Unlocked(s.locks[op.mandateId := t], t) == s.locks;
    } else {
      assert Unlocked(s.locks, t) == s.locks;
    }
  }

  /** A transaction alone on its mandate that runs one operation to its commit leaves
      the table that the operation leaves, and no lock. */
  lemma AloneExecutes(s: System, t: TxId, op: Operation)
    requires TxOf(s, t) == Tx([], Idle) && op.kind != ExpireRow && Proper(s.caps, op)
    requires op.mandateId !in s.locks && forall m :: m in s.locks ==> s.locks[m] != t
    ensures var s' := Run(s, Alone(t, Call(t, op)));
      && s'.committed == Execute(s.caps.Keys, s.committed, op).entries
      && TxOf(s', t) == Tx([], Idle) && s'.locks == s.locks
  {
    RunAlone(s, t, Call(t, op));
    FromWanting(Apply(s, Call(t, op)), t, op);
  }

  /** The same for the sweep of one key that is held. */
  lemma AloneSweeps(s: System, t: TxId, refId: Ref)
    requires TxOf(s, t) == Tx([], Idle) && StateOf(RefTypes(RowsOf(s.committed, refId))) == Some(HELD)
    requires ReservationDebit(RowsOf(s.committed, refId)).Some?
    requires var op := ExpireOperation(ReservationDebit(RowsOf(s.committed, refId)).value);
      op.mandateId !in s.locks && forall m :: m in s.locks ==> s.locks[m] != t
    ensures var op := ExpireOperation(ReservationDebit(RowsOf(s.committed, refId)).value);
      var s' := Run(s, Alone(t, Scan(t, refId)));
      && s'.committed == Execute(s.caps.Keys, s.committed, op).entries
      && TxOf(s', t) == Tx([], Idle) && s'.locks == s.locks
  {
    var op := ExpireOperation(ReservationDebit(RowsOf(s.committed, refId)).value);
    assert s.committed + [] == s.committed;
    RunAlone(s, t, Scan(t, refId));
    FromWanting(Apply(s, Scan(t, refId)), t, op);
  }
}
