/** The account service: its database, its transactions and what every run of them keeps. */
module AccountService {
  import opened Common
  import opened EventLog
  import opened AccountDomain

  type AccountRow = Row<Stored>

  datatype SnapshotRow = SnapshotRow(aggregateId: string, version: int, state: AccountState)

  datatype ProjectionRow = ProjectionRow(accountId: string, customerId: string, status: Status, version: int)

  /** An outbox message: the envelope around one stored event, keyed by its aggregate. */
  datatype Message = Message(id: string, key: string, version: int, event: Stored)

  datatype Db = Db(
    rows: seq<AccountRow>,
    snapshots: seq<SnapshotRow>,
    projection: map<string, ProjectionRow>,
    outbox: seq<Message>)

  const EMPTY_DB := Db([], [], map[], [])

  const ACCOUNT := "account"
  const READ_LIMIT := 10000

  predicate SnapshotDue(version: int) {
    version % 50 == 0
  }

  // The database calls of a transaction, as `FailCall` numbers them.
  const LOAD_SNAPSHOT: nat := 0
  const READ_EVENTS: nat := 1
  const APPEND: nat := 2
  const SAVE_SNAPSHOT: nat := 3
  const UPSERT: nat := 4
  const ENQUEUE: nat := 5
  const COMMIT: nat := 6

  /** Identifiers that one transaction draws, and the sequence numbers lost before it. */
  datatype Ids = Ids(eventId: string, messageId: string, gap: nat)

  // ----- Queries -----

  function LatestSnapshot(snapshots: seq<SnapshotRow>, a: string): Option<SnapshotRow> {
    if snapshots == [] then None
    else
      var best := LatestSnapshot(snapshots[..|snapshots| - 1], a);
      var last := snapshots[|snapshots| - 1];
      if last.aggregateId == a && (best.None? || best.value.version < last.version) then Some(last) else best
  }

  lemma {:induction false} LatestSnapshotIsLatest(snapshots: seq<SnapshotRow>, a: string)
    ensures match LatestSnapshot(snapshots, a)
            case None => forall s :: s in snapshots ==> s.aggregateId != a
            case Some(r) => r in snapshots && r.aggregateId == a
                            && forall s :: s in snapshots && s.aggregateId == a ==> s.version <= r.version
  {
    if snapshots != [] {
      LatestSnapshotIsLatest(snapshots[..|snapshots| - 1], a);
      assert snapshots == snapshots[..|snapshots| - 1] + [snapshots[|snapshots| - 1]];
    }
  }

  function DataOf(rows: seq<AccountRow>): (d: seq<Stored>)
    ensures |d| == |rows| && forall i :: 0 <= i < |rows| ==> d[i] == rows[i].data
  {
    seq(|rows|, i requires 0 <= i < |rows| => rows[i].data)
  }

  function ReplayData(start: AccountState, data: seq<Stored>): Result<AccountState> {
    match UnmarshalAll(data)
    case Err(e) => Err(e)
    case Ok(events) => Ok(Replay(start, events))
  }

  function ReplayRows(start: AccountState, rows: seq<AccountRow>): Result<AccountState> {
    ReplayData(start, DataOf(rows))
  }

  /** `Rehydrate` of a whole stream. */
  function Rehydrate(stream: seq<AccountRow>): Result<AccountState> {
    ReplayRows(BLANK, stream)
  }

  /** `LoadAccount`: the latest snapshot and at most `READ_LIMIT` events after it. */
  function LoadAccount(db: Db, a: string): Result<AccountState> {
    match LatestSnapshot(db.snapshots, a)
    case None => ReplayRows(BLANK, ReadFrom(db.rows, a, 0, READ_LIMIT))
    case Some(s) => ReplayRows(s.state, ReadFrom(db.rows, a, s.version, READ_LIMIT))
  }

  // ----- Transactions -----

  function MoneyEvent(kind: EntryType, a: string, amount: Money, entryId: string, now: int): Event {
    match kind
    case Deposit => MoneyDeposited(a, amount, entryId, now)
    case Withdrawal => MoneyWithdrawn(a, amount, entryId, now)
  }

  predicate MessageIdTaken(db: Db, id: string) {
    exists i :: 0 <= i < |db.outbox| && db.outbox[i].id == id
  }

  predicate SnapshotTaken(db: Db, a: string, version: int) {
    exists i :: 0 <= i < |db.snapshots| && db.snapshots[i].aggregateId == a && db.snapshots[i].version == version
  }

  /** The effect of the committed transaction that records a money event for the active account `ag`. */
  function Recorded(db: Db, ag: AccountState, a: string, e: Event, ids: Ids): Option<Db> {
    var ver := ag.version + 1;
    var snapshot := SnapshotDue(ver);
    match Inserted(db.rows, ACCOUNT, NewEvent(ids.eventId, a, ver, Marshal(e), ids.gap))
    case None => None
    case Some(rows) =>
      if (snapshot && SnapshotTaken(db, a, ver)) || MessageIdTaken(db, ids.messageId) then None
      else Some(Db(
                  rows,
                  db.snapshots + if snapshot then [SnapshotRow(a, ver, ag.(version := ver))] else [],
                  db.projection[a := ProjectionRow(a, ag.customerId, ag.status, ver)],
                  db.outbox + [Message(ids.messageId, a, ver, Marshal(e))]))
  }

  /** Whether the fault hits a call that the transaction makes once the account is known to be active. */
  predicate Hits(fault: Fault, ver: int) {
    fault.FailCall? && (fault.call in {APPEND, UPSERT, ENQUEUE, COMMIT}
                        || (fault.call == SAVE_SNAPSHOT && SnapshotDue(ver)))
  }

  /** The account half of `DepositMoney` and `WithdrawMoney`: one transaction, whole or not at all. */
  function RecordMoney(db: Db, kind: EntryType, a: string, amount: Money, entryId: string,
                       ids: Ids, now: int, fault: Fault): (Db, Result<string>) {
    if fault in {FailCall(LOAD_SNAPSHOT), FailCall(READ_EVENTS)} then (db, Err(Database))
    else
      match LoadAccount(db, a)
      case Err(e) => (db, Err(e))
      case Ok(ag) =>
        if ag.status != Active then (db, Err(AccountNotActive))
        else if Hits(fault, ag.version + 1) then (db, Err(Database))
        else
          match Recorded(db, ag, a, MoneyEvent(kind, a, amount, entryId, now), ids)
          case None => (db, Err(Database))
          case Some(after) => (after, if fault.LostCommit? then Err(Database) else Ok(entryId))
  }

  /** `OpenAccount`: one event, one message and one projection row, in one transaction. */
  function OpenAccount(db: Db, customerId: string, key: string, newId: string,
                       ids: Ids, now: int, fault: Fault): (Db, Result<string>) {
    if customerId == "" then (db, Err(CustomerIdRequired))
    else if key == "" then (db, Err(IdempotencyKeyRequired))
    else
      var data := Marshal(AccountOpened(newId, customerId, now));
      match Inserted(db.rows, ACCOUNT, NewEvent(ids.eventId, newId, 1, data, ids.gap))
      case None => (db, Err(Database))
      case Some(rows) =>
        if MessageIdTaken(db, ids.messageId) || (fault.FailCall? && fault.call in {APPEND, UPSERT, ENQUEUE, COMMIT})
        then (db, Err(Database))
        else
          var after := Db(rows, db.snapshots,
                          db.projection[newId := ProjectionRow(newId, customerId, Active, 1)],
                          db.outbox + [Message(ids.messageId, newId, 1, data)]);
          (after, if fault.LostCommit? then Err(Database) else Ok(newId))
  }

  // ----- The service as it updates its tables -----

  /** The decoding loop of `LoadAccount`. */
  method Decode(rows: seq<AccountRow>) returns (r: Result<seq<Event>>)
    ensures r == UnmarshalAll(DataOf(rows))
  {
    var decoded: seq<Event> := [];
    for i := 0 to |rows|
      invariant UnmarshalAll(DataOf(rows)[..i]) == Ok(decoded)
    {
      assert DataOf(rows)[..i + 1][..i] == DataOf(rows)[..i];
      var e := Unmarshal(rows[i].data);
      if e.Err? {
        UnmarshalStops(DataOf(rows), i);
        return Err(e.error);
      }
      decoded := decoded + [e.value];
    }
    assert DataOf(rows)[..|rows|] == DataOf(rows);
    return Ok(decoded);
  }

  class Database {
    var rows: seq<AccountRow>
    var snapshots: seq<SnapshotRow>
    var projection: map<string, ProjectionRow>
    var outbox: seq<Message>

    function View(): Db
      reads this
    {
      Db(rows, snapshots, projection, outbox)
    }

    constructor ()
      ensures View() == EMPTY_DB
    {
      rows, snapshots, projection, outbox := [], [], map[], [];
    }

    /** What `defer tx.Rollback` leaves behind when the transaction did not commit. */
    method Rollback(before: Db)
      modifies this
      ensures View() == before
    {
      rows, snapshots, projection, outbox := before.rows, before.snapshots, before.projection, before.outbox;
    }

    method Load(a: string) returns (r: Result<Account>)
      ensures LoadAccount(View(), a).Err? ==> r == Err(LoadAccount(View(), a).error)
      ensures LoadAccount(View(), a).Ok? ==>
                r.Ok? && fresh(r.value) && Ok(r.value.State()) == LoadAccount(View(), a)
    {
      var snap := LatestSnapshot(snapshots, a);
      var start, fromVersion := BLANK, 0;
      if snap.Some? {
        start, fromVersion := snap.value.state, snap.value.version;
      }
      var events := Read(rows, a, fromVersion, READ_LIMIT);
      var decoded := Decode(events);
      if decoded.Err? { return Err(decoded.error); }
      var ag := RehydrateFromSnapshot(start, decoded.value);
      return Ok(ag);
    }

    /** `saveSnapshot`: the aggregate as it was loaded, stamped with the version just appended. */
    method SaveSnapshot(ag: Account, a: string, version: int) returns (ok: bool)
      modifies this`snapshots
      ensures ok == !old(SnapshotTaken(View(), a, version))
      ensures snapshots == old(snapshots)
                            + if ok then [SnapshotRow(a, version, ag.State().(version := version))] else []
    {
      if SnapshotTaken(View(), a, version) { return false; }
      var s := ag.State();
      snapshots := snapshots + [SnapshotRow(a, version, AccountState(s.id, s.customerId, s.status, version))];
      return true;
    }

    /** The account transaction of both money handlers, call by call. */
    method Record(kind: EntryType, a: string, amount: Money, entryId: string, ids: Ids, now: int, fault: Fault)
      returns (r: Result<string>)
      modifies this
      ensures (View(), r) == RecordMoney(old(View()), kind, a, amount, entryId, ids, now, fault)
    {
      if fault == FailCall(LOAD_SNAPSHOT) || fault == FailCall(READ_EVENTS) { return Err(Database); }
      var loaded := Load(a);
      if loaded.Err? { return Err(loaded.error); }
      var ag := loaded.value;
      if ag.status != Active { return Err(AccountNotActive); }

      r := Write(ag, a, MoneyEvent(kind, a, amount, entryId, now), entryId, ids, fault);
    }

    /** Log and snapshot of the account transaction. */
    method WriteLog(ag: Account, a: string, ver: int, e: Event, ids: Ids, fault: Fault) returns (ok: bool)
      modifies this`rows, this`snapshots
      ensures var table := Inserted(old(rows), ACCOUNT, NewEvent(ids.eventId, a, ver, Marshal(e), ids.gap));
              && (ok <==> && table.Some? && fault != FailCall(APPEND)
                          && !(&& SnapshotDue(ver)
                               && (old(SnapshotTaken(View(), a, ver)) || fault == FailCall(SAVE_SNAPSHOT))))
              && (ok ==> rows == table.value)
      ensures ok ==> snapshots == old(snapshots)
                                + if SnapshotDue(ver) then [SnapshotRow(a, ver, ag.State().(version := ver))] else []
    {
      if fault == FailCall(APPEND) { return false; }
      var table := Append(rows, ACCOUNT, [NewEvent(ids.eventId, a, ver, Marshal(e), ids.gap)]);
      if table.None? { return false; }
      rows := table.value;
      if SnapshotDue(ver) {
        var saved := SaveSnapshot(ag, a, ver);
        return saved && fault != FailCall(SAVE_SNAPSHOT);
      }
      return true;
    }

    /** Projection row and message of the account transaction, and its commit. */
    method WriteReadSide(row: ProjectionRow, e: Event, ids: Ids, fault: Fault) returns (ok: bool)
      modifies this`projection, this`outbox
      ensures ok <==> && !old(MessageIdTaken(View(), ids.messageId))
                      && !(fault.FailCall? && fault.call in {UPSERT, ENQUEUE, COMMIT})
      ensures ok ==> projection == old(projection)[row.accountId := row]
      ensures ok ==> outbox == old(outbox) + [Message(ids.messageId, row.accountId, row.version, Marshal(e))]
    {
      if fault == FailCall(UPSERT) { return false; }
      projection := projection[row.accountId := row];
      if fault == FailCall(ENQUEUE) || MessageIdTaken(View(), ids.messageId) { return false; }
      outbox := outbox + [Message(ids.messageId, row.accountId, row.version, Marshal(e))];
      return fault != FailCall(COMMIT);
    }

    /** The writes of the account transaction, made once the account is known to be active. */
    method Write(ag: Account, a: string, e: Event, entryId: string, ids: Ids, fault: Fault) returns (r: Result<string>)
      modifies this
      ensures var after := Recorded(old(View()), ag.State(), a, e, ids);
              if Hits(fault, ag.version + 1) || after.None? then View() == old(View()) && r == Err(Database)
              else View() == after.value && r == if fault.LostCommit? then Err(Database) else Ok(entryId)
    {
      var before := View();
      var ver := ag.version + 1;
      var ok := WriteLog(ag, a, ver, e, ids, fault);
      if ok {
        ok := WriteReadSide(ProjectionRow(a, ag.customerId, ag.status, ver), e, ids, fault);
      }
      if !ok {
        Rollback(before);
        return Err(Database);
      }
      return if fault.LostCommit? then Err(Database) else Ok(entryId);
    }

    /** `OpenAccountHandler.Handle`, call by call. */
    method Open(customerId: string, key: string, newId: string, ids: Ids, now: int, fault: Fault)
      returns (r: Result<string>)
      modifies this
      ensures (View(), r) == OpenAccount(old(View()), customerId, key, newId, ids, now, fault)
    {
      if customerId == "" { return Err(CustomerIdRequired); }
      if key == "" { return Err(IdempotencyKeyRequired); }
      var before := View();
      var created := NewAccount(customerId, newId, now);
      var ag := created.value;
      var events := ag.PullChanges();
      var toAppend: seq<NewEvent<Stored>> := [];
      for i := 0 to |events|
        invariant ag.State() == AccountState(newId, customerId, Active, 1)
        invariant |toAppend| == i
        invariant forall k :: 0 <= k < i ==>
                    toAppend[k] == NewEvent(ids.eventId, ag.id, k + 1, Marshal(events[k]), ids.gap)
        invariant i > 0 ==> fault != FailCall(ENQUEUE) && !MessageIdTaken(before, ids.messageId)
        invariant rows == before.rows && snapshots == before.snapshots && projection == before.projection
        invariant outbox == before.outbox
                            + if i == 0 then [] else [Message(ids.messageId, ag.id, 1, Marshal(events[0]))]
      {
        toAppend := toAppend + [NewEvent(ids.eventId, ag.id, i + 1, Marshal(events[i]), ids.gap)];
        if fault == FailCall(ENQUEUE) || MessageIdTaken(View(), ids.messageId) {
          Rollback(before);
          return Err(Database);
        }
        outbox := outbox + [Message(ids.messageId, ag.id, i + 1, Marshal(events[i]))];
      }
      assert toAppend == [NewEvent(ids.eventId, newId, 1, Marshal(events[0]), ids.gap)];
      var table := Append(rows, ACCOUNT, toAppend);
      if table.None? || fault == FailCall(APPEND) || fault == FailCall(UPSERT) || fault == FailCall(COMMIT) {
        Rollback(before);
        return Err(Database);
      }
      rows := table.value;
      projection := projection[ag.id := ProjectionRow(ag.id, ag.customerId, ag.status, ag.version)];
      return if fault.LostCommit? then Err(Database) else Ok(newId);
    }
  }

  lemma {:induction false} UnmarshalStops(stored: seq<Stored>, i: nat)
    requires i < |stored|
    requires UnmarshalAll(stored[..i]).Ok? && Unmarshal(stored[i]).Err?
    ensures UnmarshalAll(stored) == Err(Unmarshal(stored[i]).error)
    decreases |stored|
  {
    var front := stored[..|stored| - 1];
    if i < |front| {
      assert front[..i] == stored[..i];
      UnmarshalStops(front, i);
    }
  }
}
