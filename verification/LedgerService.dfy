/** The ledger service: idempotent posting of entries, and the worker that replays them into balances. */
module LedgerService {
  import opened Common
  import opened EventLog

  /** The `ledger.entry_posted.v1` event, which is also the whole state of a one-event entry. */
  datatype EntryPosted = EntryPosted(entryId: string, accountId: string, entryType: EntryType, amountKobo: int64,
                                     currency: string, narration: string, occurredAt: int)

  type LedgerRow = Row<EntryPosted>

  /** The outbox message of one posting, keyed by account. */
  datatype Message = Message(id: string, key: string, entryId: string, deltaKobo: int64, occurredAt: int)

  /** A row of `ledger_account_balances` is identified by account and projection version. */
  datatype BalanceKey = BalanceKey(accountId: string, projectionVersion: int)

  datatype Db = Db(
    rows: seq<LedgerRow>,
    balances: map<BalanceKey, int64>,
    keys: map<string, string>,
    outbox: seq<Message>)

  const EMPTY_DB := Db([], map[], map[], [])

  const LEDGER_ENTRY := "ledger_entry"

  /** The projection version that `PostEntry` updates and every balance query reads. */
  const SERVED: int := 1

  // The database calls of a posting, as `FailCall` numbers them.
  const GET_KEY: nat := 0
  const GET_BALANCE: nat := 1
  const APPEND: nat := 2
  const APPLY_DELTA: nat := 3
  const SAVE_KEY: nat := 4
  const ENQUEUE: nat := 5
  const COMMIT: nat := 6

  datatype PostEntry = PostEntry(key: string, accountId: string, entryType: EntryType, amount: Money,
                                 narration: string, occurredAt: Option<int>)

  /** Identifiers that one transaction draws, and the sequence numbers lost before it. */
  datatype Ids = Ids(entryId: string, eventId: string, messageId: string, gap: nat)

  // ----- Balance rows -----

  function Balance(db: Db, a: string, projectionVersion: int): int64 {
    var k := BalanceKey(a, projectionVersion);
    if k in db.balances then db.balances[k] else 0
  }

  /** `ApplyDelta`: add to the row, creating it at zero; the column refuses values outside 64 bits. */
  function ApplyDelta(balances: map<BalanceKey, int64>, k: BalanceKey, delta: int64): Option<map<BalanceKey, int64>> {
    var sum := (if k in balances then balances[k] else 0) + delta;
    if IsInt64(sum) then Some(balances[k := sum]) else None
  }

  /** The signed amount, negated in Go's wrapping arithmetic for a withdrawal. */
  function Delta(e: EntryPosted): int64 {
    var amount: int := e.amountKobo;
    if e.entryType == Withdrawal then Wrap64(-amount) else amount
  }

  // ----- Posting -----

  function Validate(cmd: PostEntry): Option<Error> {
    if cmd.key == "" then Some(IdempotencyKeyRequired)
    else if cmd.accountId == "" then Some(AccountIdRequired)
    else ValidateNgnPositive(cmd.amount)
  }

  function EntryOf(cmd: PostEntry, entryId: string, now: int): EntryPosted {
    EntryPosted(entryId, cmd.accountId, cmd.entryType, cmd.amount.amountKobo, cmd.amount.currency, cmd.narration,
                if cmd.occurredAt.Some? then cmd.occurredAt.value else now)
  }

  /** The balance guard, in Go's wrapping arithmetic. */
  predicate Overdraws(db: Db, cmd: PostEntry)
    requires Validate(cmd).None?
  {
    cmd.entryType == Withdrawal && Wrap64(Balance(db, cmd.accountId, SERVED) - cmd.amount.amountKobo) < 0
  }

  predicate MessageIdTaken(db: Db, id: string) {
    exists i :: 0 <= i < |db.outbox| && db.outbox[i].id == id
  }

  /** The effect of a committed posting under a new key. */
  function Posted(db: Db, cmd: PostEntry, ids: Ids, now: int): Option<Db>
    requires Validate(cmd).None?
  {
    var e := EntryOf(cmd, ids.entryId, now);
    match Inserted(db.rows, LEDGER_ENTRY, NewEvent(ids.eventId, e.entryId, 1, e, ids.gap))
    case None => None
    case Some(rows) =>
      match ApplyDelta(db.balances, BalanceKey(cmd.accountId, SERVED), Delta(e))
      case None => None
      case Some(balances) =>
        if cmd.key in db.keys || MessageIdTaken(db, ids.messageId) then None
        else Some(Db(rows, balances, db.keys[cmd.key := e.entryId],
                     db.outbox + [Message(ids.messageId, cmd.accountId, e.entryId, Delta(e), e.occurredAt)]))
  }

  /** `PostEntryHandler.Handle`: one transaction, whole or not at all. */
  function Post(db: Db, cmd: PostEntry, ids: Ids, now: int, fault: Fault): (Db, Result<string>) {
    if Validate(cmd).Some? then (db, Err(Validate(cmd).value))
    else if fault == FailCall(GET_KEY) then (db, Err(Database))
    else if cmd.key in db.keys then
      (db, if fault == FailCall(COMMIT) || fault == LostCommit then Err(Database) else Ok(db.keys[cmd.key]))
    else if fault == FailCall(GET_BALANCE) then (db, Err(Database))
    else if Overdraws(db, cmd) then (db, Err(InsufficientFunds))
    else if fault.FailCall? && APPEND <= fault.call <= COMMIT then (db, Err(Database))
    else
      match Posted(db, cmd, ids, now)
      case None => (db, Err(Database))
      case Some(after) => (after, if fault.LostCommit? then Err(Database) else Ok(ids.entryId))
  }

  // ----- The projection worker -----

  datatype WorkerResult = WorkerResult(balances: map<BalanceKey, int64>, applied: nat, failed: bool)

  /** Applying a batch row by row; each addition commits on its own, so a failure keeps what came before. */
  function ApplyBatch(balances: map<BalanceKey, int64>, batch: seq<LedgerRow>, projectionVersion: int,
                      failAt: nat): (r: WorkerResult)
    ensures r.applied <= |batch| && (r.failed || r.applied == |batch|)
    decreases |batch|
  {
    if batch == [] then WorkerResult(balances, 0, false)
    else if failAt == 0 then WorkerResult(balances, 0, true)
    else
      match ApplyDelta(balances, BalanceKey(batch[0].data.accountId, projectionVersion), Delta(batch[0].data))
      case None => WorkerResult(balances, 0, true)
      case Some(sums) =>
        var rest := ApplyBatch(sums, batch[1..], projectionVersion, failAt - 1);
        rest.(applied := rest.applied + 1)
  }

  function Batch(db: Db, cursor: nat, limit: int): seq<LedgerRow> {
    BatchOf(db.rows, cursor, limit)
  }

  /** The database and cursor after one `processNextBatch`. */
  function WorkerTick(db: Db, cursor: nat, limit: int, projectionVersion: int, failAt: nat): (Db, nat) {
    var batch := Batch(db, cursor, limit);
    var r := ApplyBatch(db.balances, batch, projectionVersion, failAt);
    (db.(balances := r.balances), if r.failed || batch == [] then cursor else LastSequence(batch))
  }

  // ----- The service as it updates its tables -----

  /** `NewEntry` and `PullChanges`: a valid entry raises exactly one event. */
  method NewEntry(cmd: PostEntry, entryId: string, now: int) returns (r: Result<seq<EntryPosted>>)
    ensures cmd.accountId == "" ==> r == Err(AccountIdRequired)
    ensures cmd.accountId != "" && ValidateNgnPositive(cmd.amount).Some? ==>
              r == Err(ValidateNgnPositive(cmd.amount).value)
    ensures cmd.accountId != "" && ValidateNgnPositive(cmd.amount).None? ==> r == Ok([EntryOf(cmd, entryId, now)])
  {
    if cmd.accountId == "" { return Err(AccountIdRequired); }
    if cmd.amount.currency != NGN { return Err(CurrencyNotNGN); }
    if cmd.amount.amountKobo <= 0 { return Err(InvalidAmount); }
    var at := now;
    if cmd.occurredAt.Some? { at := cmd.occurredAt.value; }
    var raised := EntryPosted(entryId, cmd.accountId, cmd.entryType, cmd.amount.amountKobo,
                              cmd.amount.currency, cmd.narration, at);
    return Ok([raised]);
  }

  class Database {
    var rows: seq<LedgerRow>
    var balances: map<BalanceKey, int64>
    var keys: map<string, string>
    var outbox: seq<Message>

    function View(): Db
      reads this
    {
      Db(rows, balances, keys, outbox)
    }

    constructor ()
      ensures View() == EMPTY_DB
    {
      rows, balances, keys, outbox := [], map[], map[], [];
    }

    method Rollback(before: Db)
      modifies this
      ensures View() == before
    {
      rows, balances, keys, outbox := before.rows, before.balances, before.keys, before.outbox;
    }

    /** `PostEntryHandler.Handle`, call by call. */
    method Handle(cmd: PostEntry, ids: Ids, now: int, fault: Fault) returns (r: Result<string>)
      modifies this
      ensures (View(), r) == Post(old(View()), cmd, ids, now, fault)
    {
      if cmd.key == "" { return Err(IdempotencyKeyRequired); }
      if cmd.accountId == "" { return Err(AccountIdRequired); }
      var invalid := ValidateNgnPositive(cmd.amount);
      if invalid.Some? { return Err(invalid.value); }

      if fault == FailCall(GET_KEY) { return Err(Database); }
      if cmd.key in keys {
        if fault == FailCall(COMMIT) || fault == LostCommit { return Err(Database); }
        return Ok(keys[cmd.key]);
      }
      if fault == FailCall(GET_BALANCE) { return Err(Database); }
      var current: int := Balance(View(), cmd.accountId, SERVED);
      var delta: int := cmd.amount.amountKobo;
      if cmd.entryType == Withdrawal {
        delta := -delta;
        if Wrap64(current + delta) < 0 { return Err(InsufficientFunds); }
      }
      var raised := NewEntry(cmd, ids.entryId, now);
      r := Write(cmd.key, raised.value, delta, ids, fault);
    }

    /** The writes of a posting: log, balance row, key and message. */
    method Write(key: string, events: seq<EntryPosted>, delta: int64, ids: Ids, fault: Fault)
      returns (r: Result<string>)
      requires |events| == 1 && events[0].entryId == ids.entryId && key !in keys
      requires delta == Delta(events[0])
      modifies this
      ensures var table := Inserted(old(rows), LEDGER_ENTRY, NewEvent(ids.eventId, ids.entryId, 1, events[0], ids.gap));
              var sums := ApplyDelta(old(balances), BalanceKey(events[0].accountId, SERVED), delta);
              if table.None? || sums.None? || MessageIdTaken(old(View()), ids.messageId)
                 || (fault.FailCall? && APPEND <= fault.call <= COMMIT)
              then View() == old(View()) && r == Err(Database)
              else && View() == Db(table.value, sums.value, old(keys)[key := ids.entryId], old(outbox) +
                                   [Message(ids.messageId, events[0].accountId, ids.entryId, delta,
                                            events[0].occurredAt)])
                   && r == if fault.LostCommit? then Err(Database) else Ok(ids.entryId)
    {
      var before := View();
      var toAppend: seq<NewEvent<EntryPosted>> := [];
      for i := 0 to |events|
        invariant |toAppend| == i && View() == before
        invariant forall k :: 0 <= k < i ==>
                    toAppend[k] == NewEvent(ids.eventId, ids.entryId, k + 1, events[k], ids.gap)
      {
        toAppend := toAppend + [NewEvent(ids.eventId, ids.entryId, i + 1, events[i], ids.gap)];
      }
      if fault == FailCall(APPEND) || fault == FailCall(APPLY_DELTA) { return Err(Database); }
      var table := Append(rows, LEDGER_ENTRY, toAppend);
      if table.None? { return Err(Database); }
      rows := table.value;
      var sums := ApplyDelta(balances, BalanceKey(events[0].accountId, SERVED), delta);
      if sums.None? {
        Rollback(before);
        return Err(Database);
      }
      balances := sums.value;
      keys := keys[key := ids.entryId];
      if fault == FailCall(SAVE_KEY) || fault == FailCall(ENQUEUE) || MessageIdTaken(View(), ids.messageId) {
        Rollback(before);
        return Err(Database);
      }
      outbox := outbox + [Message(ids.messageId, events[0].accountId, ids.entryId, delta, events[0].occurredAt)];
      if fault == FailCall(COMMIT) {
        Rollback(before);
        return Err(Database);
      }
      return if fault.LostCommit? then Err(Database) else Ok(ids.entryId);
    }

    /** The loop of `LedgerProjectionWorker.processNextBatch`; every row of this table is a posted entry. */
    method ApplyAll(batch: seq<LedgerRow>, projectionVersion: int, failAt: nat) returns (failed: bool)
      modifies this`balances
      ensures balances == ApplyBatch(old(balances), batch, projectionVersion, failAt).balances
      ensures failed == ApplyBatch(old(balances), batch, projectionVersion, failAt).failed
    {
      var i := 0;
      ghost var want := ApplyBatch(balances, batch, projectionVersion, failAt);
      while i < |batch|
        invariant 0 <= i <= |batch| && i <= failAt
        invariant want.balances == ApplyBatch(balances, batch[i..], projectionVersion, failAt - i).balances
        invariant want.failed == ApplyBatch(balances, batch[i..], projectionVersion, failAt - i).failed
      {
        assert batch[i..][1..] == batch[i + 1..];
        if i == failAt { return true; }
        var sums := ApplyDelta(balances, BalanceKey(batch[i].data.accountId, projectionVersion), Delta(batch[i].data));
        if sums.None? { return true; }
        balances := sums.value;
        i := i + 1;
      }
      return false;
    }

    /** `LedgerProjectionWorker.processNextBatch`: on failure the cursor stays where it was. */
    method ProcessNextBatch(lastSeq: nat, limit: int, projectionVersion: int, failAt: nat) returns (nextSeq: nat)
      requires Ascending(rows)
      modifies this`balances
      ensures View() == WorkerTick(old(View()), lastSeq, limit, projectionVersion, failAt).0
      ensures nextSeq == WorkerTick(old(View()), lastSeq, limit, projectionVersion, failAt).1
    {
      var batch, last := ReadAll(rows, lastSeq, limit);
      var failed := ApplyAll(batch, projectionVersion, failAt);
      nextSeq := if failed then lastSeq else last;
    }
  }
}
