/** The append-only budget ledger (src/actl/domain/ledger/model.py and
src/actl/application/ledger_service.py).

Nothing but debit and credit rows is stored.  Balances are netted from the rows,
and the state of a reservation is read off the kinds of row its key has.  The
rows are shown to refine a plain map from reservation to phase.
*/
module Ledger {
  import opened Digests

  /******* Rows *******/

  /** What an intent hash covers besides the total. */
  datatype Terms = Terms(
    currency: string, category: string, merchant: string, unitPriceMinor: int, nights: int, rooms: int,
    refundable: bool, currentTotalMinor: int, catalogVersion: int, mandateSpecHash: string)

  /** The purchase intent behind an intent hash. */
  datatype Intent = Intent(totalMinor: int, terms: Terms)

  /** An idempotency key, `ref_id` in the ledger.  It is a hash of these parts,
      so the mandate and the amount are functions of it. */
  datatype Ref = Ref(mandateId: string, intent: Intent, attemptNo: int)

  datatype Bucket = Available | Reserved | Settled

  datatype Account = Account(mandateId: string, bucket: Bucket)

  datatype Direction = Debit | Credit

  datatype Movement = Movement(account: Account, direction: Direction, amountMinor: int)

  datatype RefType = ReservationRow | CaptureRow | ReleaseRow | ExpireRow | ReverseRow

  datatype Row = Row(movement: Movement, refType: RefType, refId: Ref)

  datatype ReservationState = HELD | CAPTURED | RELEASED | EXPIRED

  function ReserveMovements(mandateId: string, amountMinor: int): seq<Movement> {
    [Movement(Account(mandateId, Available), Credit, amountMinor),
     Movement(Account(mandateId, Reserved), Debit, amountMinor)]
  }

  function CaptureMovements(mandateId: string, amountMinor: int): seq<Movement> {
    [Movement(Account(mandateId, Reserved), Credit, amountMinor),
     Movement(Account(mandateId, Settled), Debit, amountMinor)]
  }

  function ReleaseMovements(mandateId: string, amountMinor: int): seq<Movement> {
    [Movement(Account(mandateId, Reserved), Credit, amountMinor),
     Movement(Account(mandateId, Available), Debit, amountMinor)]
  }

  function ReverseMovements(mandateId: string, amountMinor: int): seq<Movement> {
    [Movement(Account(mandateId, Settled), Credit, amountMinor),
     Movement(Account(mandateId, Available), Debit, amountMinor)]
  }

  function MovementsOf(refType: RefType, mandateId: string, amountMinor: int): (ms: seq<Movement>)
    ensures |ms| == 2
  {
    match refType
    case ReservationRow => ReserveMovements(mandateId, amountMinor)
    case CaptureRow => CaptureMovements(mandateId, amountMinor)
    case ReleaseRow => ReleaseMovements(mandateId, amountMinor)
    case ExpireRow => ReleaseMovements(mandateId, amountMinor)
    case ReverseRow => ReverseMovements(mandateId, amountMinor)
  }

  /** The two rows that `_add_movements` inserts. */
  function RowPair(refType: RefType, mandateId: string, amountMinor: int, refId: Ref): (rows: seq<Row>)
    ensures |rows| == 2
  {
    var ms := MovementsOf(refType, mandateId, amountMinor);
    [Row(ms[0], refType, refId), Row(ms[1], refType, refId)]
  }

  /******* Queries *******/

  function Signed(m: Movement): int {
    if m.direction == Debit then m.amountMinor else -m.amountMinor
  }

  /** Net balance of one account: debits less credits. */
  function Balance(entries: seq<Row>, account: Account): int {
    if entries == [] then 0
    else Balance(entries[..|entries| - 1], account) + Contribution(entries[|entries| - 1].movement, account)
  }

  function Contribution(m: Movement, account: Account): int {
    if m.account == account then Signed(m) else 0
  }

  /** `list_for_account` */
  function ListForAccount(entries: seq<Row>, account: Account): seq<Movement> {
    if entries == [] then []
    else
      var last := entries[|entries| - 1].movement;
      ListForAccount(entries[..|entries| - 1], account) + (if last.account == account then [last] else [])
  }

  /** `list_for_ref_id` */
  function RowsOf(entries: seq<Row>, refId: Ref): seq<Row> {
    if entries == [] then []
    else
      var last := entries[|entries| - 1];
      RowsOf(entries[..|entries| - 1], refId) + (if last.refId == refId then [last] else [])
  }

  function RefTypes(rows: seq<Row>): set<RefType> {
    set row | row in rows :: row.refType
  }

  /** `_state_of` */
  function StateOf(refTypes: set<RefType>): Option<ReservationState> {
    if ExpireRow in refTypes then Some(EXPIRED)
    else if ReleaseRow in refTypes then Some(RELEASED)
    else if CaptureRow in refTypes then Some(CAPTURED)
    else if ReservationRow in refTypes then Some(HELD)
    else None
  }

  /** held + spent of a mandate */
  function Committed(entries: seq<Row>, mandateId: string): int {
    Balance(entries, Account(mandateId, Reserved)) + Balance(entries, Account(mandateId, Settled))
  }

  /******* Operations *******/

  /** One call; `maxTotalMinor` matters only for a reserve. */
  datatype Operation = Operation(kind: RefType, mandateId: string, amountMinor: int, refId: Ref, maxTotalMinor: int)

  datatype Plan = Reply(ok: bool) | Post

  /** What an operation does once it has read the kinds of row of its key and
      the committed total of its mandate. */
  function Decide(op: Operation, seen: set<RefType>, committed: int): Plan {
    match op.kind
    case ReservationRow =>
      if seen != {} then Reply(true)
      else if committed + op.amountMinor > op.maxTotalMinor then Reply(false)
      else Post
    case CaptureRow =>
      if StateOf(seen) == Some(CAPTURED) then Reply(true)
      else if StateOf(seen) != Some(HELD) then Reply(false)
      else Post
    case ReleaseRow =>
      if StateOf(seen) == Some(RELEASED) then Reply(true)
      else if StateOf(seen) != Some(HELD) then Reply(false)
      else Post
    case ReverseRow =>
      if ReverseRow in seen then Reply(true)
      else if CaptureRow !in seen then Reply(false)
      else Post
    case ExpireRow =>
      if StateOf(seen) != Some(HELD) then Reply(false)
      else Post
  }

  function PostedRows(op: Operation): seq<Row> {
    RowPair(op.kind, op.mandateId, op.amountMinor, op.refId)
  }

  datatype Outcome = Outcome(entries: seq<Row>, ok: bool)

  /** An operation run alone, as its transaction sees it. */
  function Execute(mandates: set<string>, entries: seq<Row>, op: Operation): Outcome {
    if op.mandateId !in mandates then Outcome(entries, false)
    else
      match Decide(op, RefTypes(RowsOf(entries, op.refId)), Committed(entries, op.mandateId))
      case Reply(ok) => Outcome(entries, ok)
      case Post => Outcome(entries + PostedRows(op), true)
  }

  /** The debit row of a reservation, from which a sweep reads mandate and amount. */
  function ReservationDebit(rows: seq<Row>): Option<Row> {
    if rows == [] then None
    else if rows[0].refType == ReservationRow && rows[0].movement.direction == Debit then Some(rows[0])
    else ReservationDebit(rows[1..])
  }

  function ExpireOperation(row: Row): Operation {
    Operation(ExpireRow, row.movement.account.mandateId, row.movement.amountMinor, row.refId, 0)
  }

  class LedgerService {
    var mandates: set<string>
    var entries: seq<Row>
    var halted: bool
    /** The keys of the `reservation.expired` audit entries, in order. */
    var expiredEntries: seq<Ref>

    constructor (mandates: set<string>)
      ensures this.mandates == mandates && entries == [] && !halted && expiredEntries == []
    {
      this.mandates, entries, halted, expiredEntries := mandates, [], false, [];
    }

    static method NetBalance(movements: seq<Movement>) returns (total: int)
      ensures forall entries, account :: movements == ListForAccount(entries, account) ==> total == Balance(entries, account)
    {
      total := 0;
      for i := 0 to |movements|
        invariant total == SumSigned(movements[..i])
      {
        var m := movements[i];
        total := total + (if m.direction == Debit then m.amountMinor else -m.amountMinor);
        assert movements[..i + 1] == movements[..i] + [m];
      }
      assert movements[..|movements|] == movements;
      forall entries, account | movements == ListForAccount(entries, account)
        ensures total == Balance(entries, account)
      {
        ListForAccountNets(entries, account);
      }
    }

    /** `_add_movements` */
    method AddMovements(movements: seq<Movement>, refType: RefType, refId: Ref)
      requires |movements| == 2
      modifies this`entries
      ensures entries == old(entries) + [Row(movements[0], refType, refId), Row(movements[1], refType, refId)]
    {
      for i := 0 to 2
        invariant entries == old(entries) + [Row(movements[0], refType, refId), Row(movements[1], refType, refId)][..i]
      {
        entries := entries + [Row(movements[i], refType, refId)];
      }
    }

    method CommittedTotal(mandateId: string) returns (total: int)
      ensures total == Committed(entries, mandateId)
    {
      var held := NetBalance(ListForAccount(entries, Account(mandateId, Reserved)));
      var spent := NetBalance(ListForAccount(entries, Account(mandateId, Settled)));
      return held + spent;
    }

    method Reserve(mandateId: string, amountMinor: int, maxTotalMinor: int, refId: Ref) returns (ok: bool)
      modifies this`entries
      ensures Outcome(entries, ok)
           == Execute(mandates, old(entries), Operation(ReservationRow, mandateId, amountMinor, refId, maxTotalMinor))
      ensures var held := Balance(old(entries), Account(mandateId, Reserved));
        var spent := Balance(old(entries), Account(mandateId, Settled));
        ok <==> mandateId in mandates && (RowsOf(old(entries), refId) != [] || held + spent + amountMinor <= maxTotalMinor)
      ensures entries == old(entries) + if !ok || RowsOf(old(entries), refId) != [] then [] else [
        Row(Movement(Account(mandateId, Available), Credit, amountMinor), ReservationRow, refId),
        Row(Movement(Account(mandateId, Reserved), Debit, amountMinor), ReservationRow, refId)]
    {
      if mandateId !in mandates { return false; }
      var existing := RowsOf(entries, refId);
      if existing != [] {
        assert existing[0].refType in RefTypes(existing);
        return true;
      }
      var committed := CommittedTotal(mandateId);
      if committed + amountMinor > maxTotalMinor { return false; }
      AddMovements(ReserveMovements(mandateId, amountMinor), ReservationRow, refId);
      return true;
    }

    method Capture(mandateId: string, amountMinor: int, refId: Ref) returns (ok: bool)
      modifies this`entries
      ensures Outcome(entries, ok)
           == Execute(mandates, old(entries), Operation(CaptureRow, mandateId, amountMinor, refId, 0))
      ensures var kinds := RefTypes(RowsOf(old(entries), refId));
        ok <==>
          && mandateId in mandates && ExpireRow !in kinds && ReleaseRow !in kinds
          && (CaptureRow in kinds || ReservationRow in kinds)
      ensures var kinds := RefTypes(RowsOf(old(entries), refId));
        entries == old(entries) + if !ok || CaptureRow in kinds then [] else [
        Row(Movement(Account(mandateId, Reserved), Credit, amountMinor), CaptureRow, refId),
        Row(Movement(Account(mandateId, Settled), Debit, amountMinor), CaptureRow, refId)]
    {
      if mandateId !in mandates { return false; }
      var state := StateOf(RefTypes(RowsOf(entries, refId)));
      if state == Some(CAPTURED) { return true; }
      if state != Some(HELD) { return false; }
      AddMovements(CaptureMovements(mandateId, amountMinor), CaptureRow, refId);
      return true;
    }

    method ReverseSettlement(mandateId: string, amountMinor: int, refId: Ref) returns (ok: bool)
      modifies this`entries
      ensures Outcome(entries, ok)
           == Execute(mandates, old(entries), Operation(ReverseRow, mandateId, amountMinor, refId, 0))
      ensures var kinds := RefTypes(RowsOf(old(entries), refId));
        ok <==> mandateId in mandates && (ReverseRow in kinds || CaptureRow in kinds)
      ensures var kinds := RefTypes(RowsOf(old(entries), refId));
        entries == old(entries) + if !ok || ReverseRow in kinds then [] else [
        Row(Movement(Account(mandateId, Settled), Credit, amountMinor), ReverseRow, refId),
        Row(Movement(Account(mandateId, Available), Debit, amountMinor), ReverseRow, refId)]
    {
      if mandateId !in mandates { return false; }
      var refTypes := RefTypes(RowsOf(entries, refId));
      if ReverseRow in refTypes { return true; }
      if CaptureRow !in refTypes { return false; }
      AddMovements(ReverseMovements(mandateId, amountMinor), ReverseRow, refId);
      return true;
    }

    method Release(mandateId: string, amountMinor: int, refId: Ref) returns (ok: bool)
      modifies this`entries
      ensures Outcome(entries, ok)
           == Execute(mandates, old(entries), Operation(ReleaseRow, mandateId, amountMinor, refId, 0))
      ensures var kinds := RefTypes(RowsOf(old(entries), refId));
        ok <==>
          && mandateId in mandates && ExpireRow !in kinds
          && (ReleaseRow in kinds || (CaptureRow !in kinds && ReservationRow in kinds))
      ensures var kinds := RefTypes(RowsOf(old(entries), refId));
        entries == old(entries) + if !ok || ReleaseRow in kinds then [] else [
        Row(Movement(Account(mandateId, Reserved), Credit, amountMinor), ReleaseRow, refId),
        Row(Movement(Account(mandateId, Available), Debit, amountMinor), ReleaseRow, refId)]
    {
      if mandateId !in mandates { return false; }
      var state := StateOf(RefTypes(RowsOf(entries, refId)));
      if state == Some(RELEASED) { return true; }
      if state != Some(HELD) { return false; }
      AddMovements(ReleaseMovements(mandateId, amountMinor), ReleaseRow, refId);
      return true;
    }

    /** One turn of the sweep loop. */
    method SweepRef(refId: Ref, ghost book: Book) returns (expired: bool)
      requires Refines(entries, book) && WellFormed(book, mandates)
      modifies this`entries, this`expiredEntries
      ensures Refines(entries, ExpireOne(book, refId))
      ensures expired <==> refId in book && book[refId] == Held
      ensures expiredEntries == if expired then old(expiredEntries) + [refId] else old(expiredEntries)
    {
      HeldState(entries, book, refId);
      var rows := RowsOf(entries, refId);
      if StateOf(RefTypes(rows)) != Some(HELD) { return false; }
      HeldDebit(entries, book, refId);
      ExpireRefines(entries, book, refId);
      var debit := ReservationDebit(rows).value.movement;
      var mandateId, amountMinor := debit.account.mandateId, debit.amountMinor;
      if mandateId !in mandates { return false; }
      if StateOf(RefTypes(RowsOf(entries, refId))) != Some(HELD) { return false; }
      assert mandateId == refId.mandateId && amountMinor == refId.intent.totalMinor;
      AddMovements(ReleaseMovements(mandateId, amountMinor), ExpireRow, refId);
      assert entries == old(entries) + PairFor(ExpireRow, refId);
      expiredEntries := expiredEntries + [refId];
      return true;
    }

    /** `sweep` over whatever list of keys the scan for old reservations gave:
        exactly the held ones are expired, each once and each with an audit entry, and no
        other key moves. */
    method Sweep(candidates: seq<Ref>, ghost book: Book) returns (swept: Result<seq<Ref>>)
      requires Refines(entries, book) && WellFormed(book, mandates)
      modifies this`entries, this`expiredEntries
      ensures halted ==> swept.Err? && entries == old(entries) && expiredEntries == old(expiredEntries)
      ensures !halted ==> swept.Ok? && Refines(entries, ExpireAll(book, candidates))
      ensures swept.Ok? ==>
        && expiredEntries == old(expiredEntries) + swept.value
        && (forall r :: r in swept.value <==> r in candidates && r in book && book[r] == Held)
        && (forall i, j :: 0 <= i < j < |swept.value| ==> swept.value[i] != swept.value[j])
    {
      if halted { return Err("IntegrityHalted"); }
      var done := SweepAll(candidates, book);
      SweptExactly(book, candidates);
      return Ok(done);
    }

    /** The loop of `sweep`. */
    method SweepAll(candidates: seq<Ref>, ghost book: Book) returns (done: seq<Ref>)
      requires Refines(entries, book) && WellFormed(book, mandates)
      modifies this`entries, this`expiredEntries
      ensures Refines(entries, ExpireAll(book, candidates))
      ensures done == Swept(book, candidates) && expiredEntries == old(expiredEntries) + done
    {
      done := [];
      ghost var now := book;
      assert now == ExpireAll(book, candidates[..0]);
      for i := 0 to |candidates|
        invariant now == ExpireAll(book, candidates[..i]) && Refines(entries, now) && WellFormed(now, mandates)
        invariant done == Swept(book, candidates[..i]) && expiredEntries == old(expiredEntries) + done
      {
        SweptStep(book, candidates, i);
        Assoc(old(expiredEntries), done, [candidates[i]]);
        var expired := SweepRef(candidates[i], now);
        now := ExpireOne(now, candidates[i]);
        if expired { done := done + [candidates[i]]; }
      }
      assert candidates[..|candidates|] == candidates;
    }
  }

  /******* The abstract book *******/

  datatype Phase = Held | Captured | Released | Expired | Reversed

  /** Reservation key to phase; a key that was never reserved is absent. */
  type Book = map<Ref, Phase>

  ghost predicate WellFormed(book: Book, mandates: set<string>) {
    forall r :: r in book ==> r.intent.totalMinor > 0 && r.mandateId in mandates
  }

  ghost function PairFor(refType: RefType, r: Ref): seq<Row> {
    RowPair(refType, r.mandateId, r.intent.totalMinor, r)
  }

  /** All the rows a key may have: the five possible histories. */
  ghost function History(r: Ref, phase: Phase): seq<Row> {
    match phase
    case Held => PairFor(ReservationRow, r)
    case Captured => PairFor(ReservationRow, r) + PairFor(CaptureRow, r)
    case Released => PairFor(ReservationRow, r) + PairFor(ReleaseRow, r)
    case Expired => PairFor(ReservationRow, r) + PairFor(ExpireRow, r)
    case Reversed => PairFor(ReservationRow, r) + PairFor(CaptureRow, r) + PairFor(ReverseRow, r)
  }

  ghost predicate Refines(entries: seq<Row>, book: Book) {
    forall r :: RowsOf(entries, r) == ExpectedRows(book, r)
  }

  ghost function ExpectedRows(book: Book, r: Ref): seq<Row> {
    if r in book then History(r, book[r]) else []
  }

  /** What a phase contributes to an account. */
  ghost function Weight(r: Ref, phase: Phase, account: Account): int {
    if r.mandateId != account.mandateId then 0
    else match account.bucket
      case Reserved => if phase == Held then r.intent.totalMinor else 0
      case Settled => if phase == Captured then r.intent.totalMinor else 0
      case Available => if phase == Held || phase == Captured then -r.intent.totalMinor else 0
  }

  ghost function Total(book: Book, account: Account): int {
    if book == map[] then 0
    else
      var r :| r in book;
      Weight(r, book[r], account) + Total(book - {r}, account)
  }

  ghost function CommittedIn(book: Book, mandateId: string): int {
    Total(book, Account(mandateId, Reserved)) + Total(book, Account(mandateId, Settled))
  }

  /** The operations on the book. */
  ghost function StepBook(book: Book, op: Operation): (Book, bool) {
    var r := op.refId;
    match op.kind
    case ReservationRow =>
      if r in book then (book, true)
      else if CommittedIn(book, op.mandateId) + op.amountMinor > op.maxTotalMinor then (book, false)
      else (book[r := Held], true)
    case CaptureRow =>
      if r in book && book[r] == Held then (book[r := Captured], true)
      else (book, r in book && (book[r] == Captured || book[r] == Reversed))
    case ReleaseRow =>
      if r in book && book[r] == Held then (book[r := Released], true)
      else (book, r in book && book[r] == Released)
    case ReverseRow =>
      if r in book && book[r] == Captured then (book[r := Reversed], true)
      else (book, r in book && book[r] == Reversed)
    case ExpireRow =>
      if r in book && book[r] == Held then (book[r := Expired], true)
      else (book, false)
  }

  ghost function ExpireOne(book: Book, r: Ref): Book {
    if r in book && book[r] == Held then book[r := Expired] else book
  }

  ghost function ExpireAll(book: Book, candidates: seq<Ref>): Book {
    map r | r in book :: if r in candidates && book[r] == Held then Expired else book[r]
  }

  /** The candidates that are held, each at its first place. */
  ghost function Swept(book: Book, candidates: seq<Ref>): seq<Ref> {
    if candidates == [] then []
    else
      var front, r := candidates[..|candidates| - 1], candidates[|candidates| - 1];
      if r in book && book[r] == Held && r !in front then Swept(book, front) + [r] else Swept(book, front)
  }

  lemma {:induction false} SweptExactly(book: Book, candidates: seq<Ref>)
    ensures forall r :: r in Swept(book, candidates) <==> r in candidates && r in book && book[r] == Held
    ensures forall i, j :: 0 <= i < j < |Swept(book, candidates)| ==> Swept(book, candidates)[i] != Swept(book, candidates)[j]
  {
    if candidates != [] {
      var front, last := candidates[..|candidates| - 1], candidates[|candidates| - 1];
      SweptExactly(book, front);
      assert candidates == front + [last];
      assert forall i :: 0 <= i < |Swept(book, front)| ==> Swept(book, front)[i] in front;
    }
  }

  lemma SweptStep(book: Book, candidates: seq<Ref>, i: nat)
    requires i < |candidates|
    ensures var now, r := ExpireAll(book, candidates[..i]), candidates[i];
      && ExpireOne(now, r) == ExpireAll(book, candidates[..i + 1])
      && Swept(book, candidates[..i + 1]) ==
           (if r in now && now[r] == Held then Swept(book, candidates[..i]) + [r] else Swept(book, candidates[..i]))
  {
    assert candidates[..i + 1] == candidates[..i] + [candidates[i]];
    assert candidates[..i + 1][..i] == candidates[..i];
  }

  /** The mandate and the amount passed with a key are the ones the key was made from. */
  ghost predicate Agrees(op: Operation) {
    op.refId.mandateId == op.mandateId && op.refId.intent.totalMinor == op.amountMinor && op.amountMinor > 0
  }

  /******* Lemmas about the queries *******/

  function SumSigned(ms: seq<Movement>): int {
    if ms == [] then 0 else SumSigned(ms[..|ms| - 1]) + Signed(ms[|ms| - 1])
  }

  lemma {:induction false} ListForAccountNets(entries: seq<Row>, account: Account)
    ensures SumSigned(ListForAccount(entries, account)) == Balance(entries, account)
  {
    if entries != [] {
      var front, last := entries[..|entries| - 1], entries[|entries| - 1].movement;
      ListForAccountNets(front, account);
      var listed := ListForAccount(front, account);
      assert (listed + [last])[..|listed|] == listed;
      assert listed + [] == listed;
    }
  }

  lemma {:induction false} RowsOfAppend(a: seq<Row>, b: seq<Row>, r: Ref)
    ensures RowsOf(a + b, r) == RowsOf(a, r) + RowsOf(b, r)
    decreases |b|
  {
    if b == [] {
      assert a + b == a;
    } else {
      RowsOfAppend(a, b[..|b| - 1], r);
      assert (a + b)[..|a + b| - 1] == a + b[..|b| - 1];
    }
  }

  lemma {:induction false} BalanceAppend(a: seq<Row>, b: seq<Row>, account: Account)
    ensures Balance(a + b, account) == Balance(a, account) + Balance(b, account)
    decreases |b|
  {
    if b == [] {
      assert a + b == a;
    } else {
      BalanceAppend(a, b[..|b| - 1], account);
      assert (a + b)[..|a + b| - 1] == a + b[..|b| - 1];
    }
  }

  lemma PairQueries(refType: RefType, mandateId: string, amountMinor: int, refId: Ref, r: Ref, account: Account)
    ensures var rows := RowPair(refType, mandateId, amountMinor, refId);
      && RowsOf(rows, r) == (if r == refId then rows else [])
      && Balance(rows, account) == Contribution(rows[0].movement, account) + Contribution(rows[1].movement, account)
  {
    var rows := RowPair(refType, mandateId, amountMinor, refId);
    var first := rows[..1];
    assert first[..0] == [];
    assert RowsOf(first, r) == if r == refId then [rows[0]] else [];
    assert Balance(first[..0], account) == 0;
    assert Balance(first, account) == Contribution(rows[0].movement, account);
  }

  /******* Refinement *******/

  lemma HistoryKinds(r: Ref, phase: Phase)
    ensures RefTypes(History(r, phase)) ==
      match phase {
        case Held => {ReservationRow}
        case Captured => {ReservationRow, CaptureRow}
        case Released => {ReservationRow, ReleaseRow}
        case Expired => {ReservationRow, ExpireRow}
        case Reversed => {ReservationRow, CaptureRow, ReverseRow}
      }
  {
    var rows := History(r, phase);
    assert rows[0].refType == ReservationRow;
    match phase {
      case Held =>
      case Reversed =>
        assert rows[2] in rows && rows[2].refType == CaptureRow;
        assert rows[4] in rows && rows[4].refType == ReverseRow;
      case _ =>
        assert rows[2] in rows;
    }
  }

  lemma HistoryBalance(r: Ref, phase: Phase, account: Account)
    ensures Balance(History(r, phase), account) == Weight(r, phase, account)
  {
    forall refType { PairQueries(refType, r.mandateId, r.intent.totalMinor, r, r, account); }
    var held := PairFor(ReservationRow, r);
    BalanceAppend(held, PairFor(CaptureRow, r), account);
    BalanceAppend(held, PairFor(ReleaseRow, r), account);
    BalanceAppend(held, PairFor(ExpireRow, r), account);
    BalanceAppend(held + PairFor(CaptureRow, r), PairFor(ReverseRow, r), account);
  }

  ghost function Without(entries: seq<Row>, r: Ref): seq<Row> {
    if entries == [] then []
    else
      var last := entries[|entries| - 1];
      Without(entries[..|entries| - 1], r) + (if last.refId == r then [] else [last])
  }

  lemma BalanceSnoc(front: seq<Row>, row: Row, account: Account)
    ensures Balance(front + [row], account) == Balance(front, account) + Contribution(row.movement, account)
  {
    assert (front + [row])[..|front|] == front;
  }

  lemma {:induction false} WithoutBalance(entries: seq<Row>, r: Ref, account: Account)
    ensures Balance(entries, account) == Balance(RowsOf(entries, r), account) + Balance(Without(entries, r), account)
  {
    if entries != [] {
      var front, last := entries[..|entries| - 1], entries[|entries| - 1];
      WithoutBalance(front, r, account);
      if last.refId == r {
        assert Without(entries, r) == Without(front, r);
        BalanceSnoc(RowsOf(front, r), last, account);
      } else {
        assert RowsOf(entries, r) == RowsOf(front, r);
        BalanceSnoc(Without(front, r), last, account);
      }
    }
  }

  lemma {:induction false} WithoutRows(entries: seq<Row>, r: Ref, q: Ref)
    ensures RowsOf(Without(entries, r), q) == if q == r then [] else RowsOf(entries, q)
  {
    if entries != [] {
      var front, last := entries[..|entries| - 1], entries[|entries| - 1];
      WithoutRows(front, r, q);
      if last.refId == r {
        assert Without(entries, r) == Without(front, r);
      } else {
        assert (Without(front, r) + [last])[..|Without(front, r)|] == Without(front, r);
      }
    }
  }

  lemma {:induction false} TotalPick(book: Book, r: Ref, account: Account)
    requires r in book
    ensures Total(book, account) == Weight(r, book[r], account) + Total(book - {r}, account)
    decreases |book|
  {
    var q :| q in book && Total(book, account) == Weight(q, book[q], account) + Total(book - {q}, account);
    if q != r {
      TotalPick(book - {q}, r, account);
      TotalPick(book - {r}, q, account);
      assert book - {q} - {r} == book - {r} - {q};
    }
  }

  lemma LastRowIsListed(entries: seq<Row>)
    ensures entries != [] ==> RowsOf(entries, entries[|entries| - 1].refId) != []
  {
  }

  /** Every balance is the sum over the book of what each key contributes. */
  lemma {:induction false} BalanceIsTotal(entries: seq<Row>, book: Book, account: Account)
    requires Refines(entries, book)
    ensures Balance(entries, account) == Total(book, account)
    decreases |book|
  {
    if book == map[] {
      LastRowIsListed(entries);
    } else {
      var r :| r in book;
      WithoutBalance(entries, r, account);
      assert Refines(Without(entries, r), book - {r}) by {
        forall q ensures RowsOf(Without(entries, r), q) == ExpectedRows(book - {r}, q) {
          WithoutRows(entries, r, q);
        }
      }
      assert RowsOf(entries, r) == History(r, book[r]);
      HistoryBalance(r, book[r], account);
      BalanceIsTotal(Without(entries, r), book - {r}, account);
      TotalPick(book, r, account);
    }
  }

  lemma WeightsCancel(r: Ref, phase: Phase, m: string)
    ensures Weight(r, phase, Account(m, Available)) + Weight(r, phase, Account(m, Reserved))
          + Weight(r, phase, Account(m, Settled)) == 0
  {
  }

  /** The three buckets of a mandate net to zero. */
  lemma {:induction false} BucketsNetToZero(book: Book, mandateId: string)
    ensures Total(book, Account(mandateId, Available)) + CommittedIn(book, mandateId) == 0
    decreases |book|
  {
    if book != map[] {
      var r :| r in book;
      TotalPick(book, r, Account(mandateId, Available));
      TotalPick(book, r, Account(mandateId, Reserved));
      TotalPick(book, r, Account(mandateId, Settled));
      WeightsCancel(r, book[r], mandateId);
      BucketsNetToZero(book - {r}, mandateId);
    }
  }

  /** Adding a pair of rows to a key moves that key along, and no other. */
  lemma PostRefines(entries: seq<Row>, book: Book, op: Operation, phase: Phase)
    requires Refines(entries, book) && Agrees(op)
    requires History(op.refId, phase) == RowsOf(entries, op.refId) + PostedRows(op)
    ensures Refines(entries + PostedRows(op), book[op.refId := phase])
  {
    var after := entries + PostedRows(op);
    forall r
      ensures RowsOf(after, r) == ExpectedRows(book[op.refId := phase], r)
    {
      RowsOfAppend(entries, PostedRows(op), r);
      PairQueries(op.kind, op.mandateId, op.amountMinor, op.refId, r, Account(op.mandateId, Reserved));
    }
  }

  ghost function PhaseAfter(kind: RefType): Phase {
    match kind
    case ReservationRow => Held
    case CaptureRow => Captured
    case ReleaseRow => Released
    case ReverseRow => Reversed
    case ExpireRow => Expired
  }

  /** The kinds of row a key must have for the book to hold it in its phase. */
  ghost function KindsIn(book: Book, r: Ref): set<RefType> {
    if r !in book then {}
    else match book[r]
      case Held => {ReservationRow}
      case Captured => {ReservationRow, CaptureRow}
      case Released => {ReservationRow, ReleaseRow}
      case Expired => {ReservationRow, ExpireRow}
      case Reversed => {ReservationRow, CaptureRow, ReverseRow}
  }

  lemma RefinesKinds(entries: seq<Row>, book: Book, r: Ref)
    requires Refines(entries, book)
    ensures RefTypes(RowsOf(entries, r)) == KindsIn(book, r)
  {
    var rows := RowsOf(entries, r);
    assert rows == ExpectedRows(book, r);
    if r in book {
      HistoryKinds(r, book[r]);
    }
  }

  lemma DecideAgrees(book: Book, op: Operation)
    ensures Decide(op, KindsIn(book, op.refId), CommittedIn(book, op.mandateId)) ==
      var (book', ok) := StepBook(book, op);
      if book' == book then Reply(ok) else Post
    ensures var (book', ok) := StepBook(book, op);
      book' != book ==> ok && book' == book[op.refId := PhaseAfter(op.kind)]
  {
    var r := op.refId;
    if r !in book {
      assert r in book[r := Held];
    } else {
      assert ReservationRow in KindsIn(book, r);
      assert book[r := PhaseAfter(op.kind)][r] == PhaseAfter(op.kind);
    }
  }

  lemma StepHistory(book: Book, op: Operation)
    requires StepBook(book, op).0 != book
    ensures History(op.refId, PhaseAfter(op.kind)) == ExpectedRows(book, op.refId) + PairFor(op.kind, op.refId)
  {
    if op.refId !in book {
      assert [] + PairFor(op.kind, op.refId) == PairFor(op.kind, op.refId);
    }
  }

  lemma ExecutePlan(mandates: set<string>, entries: seq<Row>, op: Operation, kinds: set<RefType>, committed: int)
    requires op.mandateId in mandates
    requires kinds == RefTypes(RowsOf(entries, op.refId)) && committed == Committed(entries, op.mandateId)
    ensures Execute(mandates, entries, op) ==
      if Decide(op, kinds, committed) == Post then Outcome(entries + PostedRows(op), true)
      else Outcome(entries, Decide(op, kinds, committed).ok)
  {
  }

  /** The ledger refines the book: same answer, and the rows stay related. */
  lemma ExecuteRefines(mandates: set<string>, entries: seq<Row>, book: Book, op: Operation)
    requires Refines(entries, book) && WellFormed(book, mandates) && Agrees(op) && op.mandateId in mandates
    ensures var out, (book', ok) := Execute(mandates, entries, op), StepBook(book, op);
      Refines(out.entries, book') && WellFormed(book', mandates) && out.ok == ok
  {
    BalanceIsTotal(entries, book, Account(op.mandateId, Reserved));
    BalanceIsTotal(entries, book, Account(op.mandateId, Settled));
    RefinesKinds(entries, book, op.refId);
    ExecutePlan(mandates, entries, op, KindsIn(book, op.refId), CommittedIn(book, op.mandateId));
    DecideAgrees(book, op);
    if StepBook(book, op).0 != book {
      StepHistory(book, op);
      assert RowsOf(entries, op.refId) == ExpectedRows(book, op.refId);
      PostRefines(entries, book, op, PhaseAfter(op.kind));
    }
  }

  lemma HeldDebit(entries: seq<Row>, book: Book, r: Ref)
    requires Refines(entries, book) && r in book && book[r] == Held
    ensures ReservationDebit(RowsOf(entries, r)) == Some(PairFor(ReservationRow, r)[1])
  {
    var pair := PairFor(ReservationRow, r);
    assert RowsOf(entries, r) == ExpectedRows(book, r);
    assert pair[1..][0] == pair[1];
  }

  lemma HeldState(entries: seq<Row>, book: Book, r: Ref)
    requires Refines(entries, book)
    ensures StateOf(RefTypes(RowsOf(entries, r))) == Some(HELD) <==> r in book && book[r] == Held
  {
    RefinesKinds(entries, book, r);
  }

  lemma ExpireRefines(entries: seq<Row>, book: Book, r: Ref)
    requires Refines(entries, book) && r in book && book[r] == Held && r.intent.totalMinor > 0
    ensures Refines(entries + PairFor(ExpireRow, r), book[r := Expired])
  {
    var op := Operation(ExpireRow, r.mandateId, r.intent.totalMinor, r, 0);
    assert RowsOf(entries, r) == ExpectedRows(book, r);
    PostRefines(entries, book, op, Expired);
  }
}
