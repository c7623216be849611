/** What every run of open, deposit and withdraw transactions keeps in the account database. */
module AccountRuns {
  import opened Common
  import opened EventLog
  import opened AccountDomain
  import opened AccountService

  datatype Step =
    | OpenTx(customerId: string, key: string, newId: string, ids: Ids, now: int, fault: Fault)
    | MoneyTx(kind: EntryType, accountId: string, amount: Money, entryId: string, ids: Ids, now: int, fault: Fault)

  function Next(db: Db, s: Step): Db {
    match s
    case OpenTx(customer, key, newId, ids, now, fault) => OpenAccount(db, customer, key, newId, ids, now, fault).0
    case MoneyTx(kind, a, amount, entry, ids, now, fault) => RecordMoney(db, kind, a, amount, entry, ids, now, fault).0
  }

  function Run(steps: seq<Step>): Db {
    if steps == [] then EMPTY_DB else Next(Run(steps[..|steps| - 1]), steps[|steps| - 1])
  }

  // ----- The invariant -----

  /** A stream is `AccountOpened` followed by money events, with versions 1, 2, ..., n. */
  ghost predicate StreamShape(s: seq<AccountRow>, a: string) {
    && Numbered(s)
    && (forall i :: 0 <= i < |s| ==> s[i].data.json.Json? && s[i].aggregateType == ACCOUNT)
    && (s != [] ==> s[0].data.typ == TypeOpened && s[0].data.json.accountId == a && s[0].data.json.customerId != "")
    && (forall i :: 1 <= i < |s| ==> s[i].data.typ == TypeDeposited || s[i].data.typ == TypeWithdrawn)
  }

  /** What replaying the first `k` events of such a stream gives. */
  ghost function StateAt(s: seq<AccountRow>, a: string, k: nat): AccountState
    requires StreamShape(s, a)
  {
    if k == 0 || s == [] then BLANK else AccountState(a, s[0].data.json.customerId, Active, k)
  }

  /** The version of the latest snapshot of a stream of `n` events. */
  ghost function LastSnapshotVersion(n: nat): (k: nat)
    ensures k <= n < k + 50 && (k == 0 <==> n < 50)
    ensures SnapshotDue(n) <==> k == n
  {
    n - n % 50
  }

  ghost function SnapshotOf(s: seq<AccountRow>, a: string): Option<SnapshotRow>
    requires StreamShape(s, a)
  {
    var k := LastSnapshotVersion(|s|);
    if k == 0 then None else Some(SnapshotRow(a, k, StateAt(s, a, k)))
  }

  function Lookup(projection: map<string, ProjectionRow>, a: string): Option<ProjectionRow> {
    if a in projection then Some(projection[a]) else None
  }

  /** What a stream determines about its latest snapshot. */
  ghost predicate Consistent(s: seq<AccountRow>, snapshot: Option<SnapshotRow>, a: string) {
    StreamShape(s, a) && snapshot == SnapshotOf(s, a)
  }

  ghost predicate GoodAccount(db: Db, a: string) {
    Consistent(Stream(db.rows, a), LatestSnapshot(db.snapshots, a), a)
  }

  function RowOf(st: AccountState): ProjectionRow {
    ProjectionRow(st.id, st.customerId, st.status, st.version)
  }

  /** The projection row that the whole stream of `a` determines. */
  ghost function CurrentRow(rows: seq<AccountRow>, a: string): Option<ProjectionRow>
    requires StreamShape(Stream(rows, a), a)
  {
    var s := Stream(rows, a);
    if s == [] then None else Some(RowOf(StateAt(s, a, |s|)))
  }

  /** The outbox holds exactly the committed events, in commit order. */
  ghost predicate OutboxMirrorsLog(db: Db) {
    && |db.outbox| == |db.rows|
    && forall i :: 0 <= i < |db.rows| ==> Mirrors(db.outbox[i], db.rows[i])
  }

  predicate Mirrors(m: Message, r: AccountRow) {
    m.key == r.aggregateId && m.version == r.version && m.event == r.data
  }

  ghost predicate Good(db: Db) {
    && Ascending(db.rows)
    && OutboxMirrorsLog(db)
    && forall a: string :: GoodAccount(db, a)
  }

  // ----- Replay of a stream of that shape -----

  lemma {:induction false} UnmarshalSnoc(stored: seq<Stored>, x: Stored, events: seq<Event>, e: Event)
    requires UnmarshalAll(stored) == Ok(events) && Unmarshal(x) == Ok(e)
    ensures UnmarshalAll(stored + [x]) == Ok(events + [e])
  {
    assert (stored + [x])[..|stored|] == stored;
  }

  lemma {:induction false} DataSnoc(rows: seq<AccountRow>, row: AccountRow)
    ensures DataOf(rows + [row]) == DataOf(rows) + [row.data]
  {
    assert forall i :: 0 <= i < |rows| ==> DataOf(rows + [row])[i] == DataOf(rows)[i];
  }

  lemma {:induction false} EventsSnoc(start: AccountState, events: seq<Event>, e: Event)
    ensures var st := Replay(start, events); Replay(start, events + [e]) == Applied(st, e).(version := st.version + 1)
  {
    assert (events + [e])[..|events|] == events;
  }

  lemma {:induction false} ReplayDataSnoc(start: AccountState, data: seq<Stored>, x: Stored, st: AccountState, e: Event)
    requires ReplayData(start, data) == Ok(st) && Unmarshal(x) == Ok(e)
    ensures ReplayData(start, data + [x]) == Ok(Applied(st, e).(version := st.version + 1))
  {
    var events := UnmarshalAll(data).value;
    UnmarshalSnoc(data, x, events, e);
    ReplayGrown(start, data + [x], events, e);
  }

  lemma {:induction false} ReplayGrown(start: AccountState, more: seq<Stored>, events: seq<Event>, e: Event)
    requires UnmarshalAll(more) == Ok(events + [e])
    ensures var st := Replay(start, events); ReplayData(start, more) == Ok(Applied(st, e).(version := st.version + 1))
  {
    EventsSnoc(start, events, e);
  }

  /** Replaying one more row. */
  lemma {:induction false} ReplaySnoc(start: AccountState, rows: seq<AccountRow>, row: AccountRow, st: AccountState,
                                      e: Event)
    requires ReplayRows(start, rows) == Ok(st) && Unmarshal(row.data) == Ok(e)
    ensures ReplayRows(start, rows + [row]) == Ok(Applied(st, e).(version := st.version + 1))
  {
    DataSnoc(rows, row);
    ReplayDataSnoc(start, DataOf(rows), row.data, st, e);
  }

  lemma {:induction false} MoneyKeepsState(start: AccountState, rows: seq<AccountRow>)
    requires forall i :: 0 <= i < |rows| ==>
               rows[i].data.json.Json? && (rows[i].data.typ == TypeDeposited || rows[i].data.typ == TypeWithdrawn)
    ensures ReplayRows(start, rows) == Ok(start.(version := start.version + |rows|))
  {
    if rows != [] {
      var n := |rows| - 1;
      MoneyKeepsState(start, rows[..n]);
      assert rows == rows[..n] + [rows[n]];
      ReplaySnoc(start, rows[..n], rows[n], start.(version := start.version + n), Unmarshal(rows[n].data).value);
    }
  }

  lemma {:induction false} StateStep(s: seq<AccountRow>, a: string, k: nat) returns (e: Event)
    requires StreamShape(s, a) && k < |s|
    ensures Unmarshal(s[k].data) == Ok(e)
    ensures var st := StateAt(s, a, k); Applied(st, e).(version := st.version + 1) == StateAt(s, a, k + 1)
  {
    e := Unmarshal(s[k].data).value;
  }

  lemma {:induction false} ShapeReplays(s: seq<AccountRow>, a: string, k: nat)
    requires StreamShape(s, a) && k <= |s|
    ensures Rehydrate(s[..k]) == Ok(StateAt(s, a, k))
    decreases k
  {
    if k > 0 {
      ShapeReplays(s, a, k - 1);
      var e := StateStep(s, a, k - 1);
      ReplaySnoc(BLANK, s[..k - 1], s[k - 1], StateAt(s, a, k - 1), e);
      TakeSnoc(s, k);
    }
  }

  lemma {:induction false} TakeSnoc(s: seq<AccountRow>, k: nat)
    requires 0 < k <= |s|
    ensures s[..k] == s[..k - 1] + [s[k - 1]]
  {
  }

  /** What `LoadAccount` reads after the latest snapshot is the rest of the stream. */
  lemma {:induction false} TailIsWhole(db: Db, a: string)
    requires GoodAccount(db, a)
    ensures var s := Stream(db.rows, a);
            var k := LastSnapshotVersion(|s|);
            ReadFrom(db.rows, a, k, READ_LIMIT) == s[k..]
  {
    ReadIsSlice(db.rows, a, LastSnapshotVersion(|Stream(db.rows, a)|), READ_LIMIT);
  }

  /** Snapshot plus tail is the same account as the whole stream. */
  lemma {:induction false} LoadIsRehydrate(db: Db, a: string)
    requires GoodAccount(db, a)
    ensures var s := Stream(db.rows, a);
            LoadAccount(db, a) == Rehydrate(s) == Ok(StateAt(s, a, |s|))
  {
    var s := Stream(db.rows, a);
    var k := LastSnapshotVersion(|s|);
    TailIsWhole(db, a);
    ShapeReplays(s, a, |s|);
    assert s[..|s|] == s;
    if k == 0 {
      assert s[0..] == s;
    } else {
      TailReplays(s, a, k);
    }
  }

  lemma {:induction false} TailReplays(s: seq<AccountRow>, a: string, k: nat)
    requires StreamShape(s, a) && 0 < k <= |s|
    ensures ReplayRows(StateAt(s, a, k), s[k..]) == Ok(StateAt(s, a, |s|))
  {
    MoneyKeepsState(StateAt(s, a, k), s[k..]);
  }

  // ----- Preservation -----

  lemma {:induction false} LatestSnapshotAppend(snapshots: seq<SnapshotRow>, r: SnapshotRow, a: string)
    ensures LatestSnapshot(snapshots + [r], a) ==
            (if && r.aggregateId == a
                && (LatestSnapshot(snapshots, a).None? || LatestSnapshot(snapshots, a).value.version < r.version)
             then Some(r) else LatestSnapshot(snapshots, a))
  {
    assert (snapshots + [r])[..|snapshots|] == snapshots;
  }

  /** One committed transaction: one row, its message, at most one snapshot and the projection row of one account. */
  ghost predicate Grows(db: Db, after: Db, row: AccountRow) {
    && after.rows == db.rows + [row]
    && LastSequence(db.rows) < row.sequence
    && |after.outbox| == |db.outbox| + 1 && after.outbox[..|db.outbox|] == db.outbox
    && Mirrors(after.outbox[|db.outbox|], row)
    && (forall b :: b != row.aggregateId ==> Lookup(after.projection, b) == Lookup(db.projection, b))
    && (after.snapshots == db.snapshots
        || (exists r: SnapshotRow :: r.aggregateId == row.aggregateId && after.snapshots == db.snapshots + [r]))
  }

  lemma {:induction false} ConsistentTransfer(db: Db, after: Db, b: string)
    requires GoodAccount(db, b)
    requires Stream(after.rows, b) == Stream(db.rows, b)
    requires LatestSnapshot(after.snapshots, b) == LatestSnapshot(db.snapshots, b)
    ensures GoodAccount(after, b)
  {
  }

  lemma {:induction false} OthersUntouched(db: Db, after: Db, row: AccountRow, b: string)
    requires GoodAccount(db, b) && Grows(db, after, row) && b != row.aggregateId
    ensures GoodAccount(after, b)
  {
    StreamAppend(db.rows, row, b);
    if after.snapshots != db.snapshots {
      var r: SnapshotRow :| r.aggregateId == row.aggregateId && after.snapshots == db.snapshots + [r];
      LatestSnapshotAppend(db.snapshots, r, b);
    }
    ConsistentTransfer(db, after, b);
  }

  lemma {:induction false} GrowthKeepsGood(db: Db, after: Db, row: AccountRow)
    requires Good(db) && Grows(db, after, row) && GoodAccount(after, row.aggregateId)
    ensures Good(after)
  {
    AscendingAppend(db.rows, row);
    forall b: string | b != row.aggregateId
      ensures GoodAccount(after, b)
    {
      OthersUntouched(db, after, row, b);
    }
  }

  lemma {:induction false} ShapeAppend(s: seq<AccountRow>, a: string, row: AccountRow)
    requires StreamShape(s, a) && s != []
    requires row.version == |s| + 1 && row.aggregateType == ACCOUNT && row.data.json.Json?
    requires row.data.typ == TypeDeposited || row.data.typ == TypeWithdrawn
    ensures StreamShape(s + [row], a)
    ensures forall k :: StateAt(s + [row], a, k) == StateAt(s, a, k)
  {
  }

  lemma {:induction false} RecordedKeepsOwn(db: Db, ag: AccountState, a: string, e: Event, ids: Ids)
    requires GoodAccount(db, a) && Stream(db.rows, a) != [] && IsMoney(e)
    requires ag == StateAt(Stream(db.rows, a), a, |Stream(db.rows, a)|)
    requires Recorded(db, ag, a, e, ids).Some?
    ensures var after := Recorded(db, ag, a, e, ids).value;
            GoodAccount(after, a) && Lookup(after.projection, a) == CurrentRow(after.rows, a)
  {
    var after := Recorded(db, ag, a, e, ids).value;
    var row := after.rows[|db.rows|];
    var s := Stream(db.rows, a);
    StreamAppend(db.rows, row, a);
    ShapeAppend(s, a, row);
    assert LatestSnapshot(after.snapshots, a) == SnapshotOf(s + [row], a) by {
      NextSnapshotVersion(|s|);
      if SnapshotDue(ag.version + 1) {
        LatestSnapshotAppend(db.snapshots, after.snapshots[|db.snapshots|], a);
      } else {
        assert after.snapshots == db.snapshots;
      }
    }
  }

  lemma {:induction false} NextSnapshotVersion(n: nat)
    ensures LastSnapshotVersion(n + 1) == if SnapshotDue(n + 1) then n + 1 else LastSnapshotVersion(n)
  {
  }

  lemma {:induction false} RecordedGrows(db: Db, ag: AccountState, a: string, e: Event, ids: Ids)
    requires Recorded(db, ag, a, e, ids).Some?
    ensures var after := Recorded(db, ag, a, e, ids).value;
            && |after.rows| == |db.rows| + 1
            && after.rows[|db.rows|].aggregateId == a
            && Grows(db, after, after.rows[|db.rows|])
  {
    var after := Recorded(db, ag, a, e, ids).value;
    assert !SnapshotDue(ag.version + 1) ==> after.snapshots == db.snapshots;
  }

  ghost predicate IsOpening(row: AccountRow, customerId: string, now: int) {
    && row.version == 1 && row.aggregateType == ACCOUNT && customerId != ""
    && row.data == Marshal(AccountOpened(row.aggregateId, customerId, now))
  }

  lemma {:induction false} FreshStream(row: AccountRow, customerId: string, now: int)
    requires IsOpening(row, customerId, now)
    ensures Consistent([row], None, row.aggregateId)
    ensures StateAt([row], row.aggregateId, 1) == AccountState(row.aggregateId, customerId, Active, 1)
  {
  }

  lemma {:induction false} OpenedKeepsOwn(db: Db, after: Db, row: AccountRow, customerId: string, now: int)
    requires Stream(db.rows, row.aggregateId) == [] && GoodAccount(db, row.aggregateId)
    requires after.rows == db.rows + [row] && after.snapshots == db.snapshots && IsOpening(row, customerId, now)
    ensures GoodAccount(after, row.aggregateId)
    ensures CurrentRow(after.rows, row.aggregateId) == Some(ProjectionRow(row.aggregateId, customerId, Active, 1))
  {
    StreamAppend(db.rows, row, row.aggregateId);
    assert [] + [row] == [row];
    FreshStream(row, customerId, now);
  }

  lemma {:induction false} OpenedGrows(db: Db, customerId: string, key: string, newId: string, ids: Ids, now: int,
                                       fault: Fault)
    requires OpenAccount(db, customerId, key, newId, ids, now, fault).0 != db
    ensures var after := OpenAccount(db, customerId, key, newId, ids, now, fault).0;
            && |after.rows| == |db.rows| + 1
            && after.rows[|db.rows|].aggregateId == newId
            && IsOpening(after.rows[|db.rows|], customerId, now)
            && Grows(db, after, after.rows[|db.rows|])
            && after.snapshots == db.snapshots
            && Lookup(after.projection, newId) == Some(ProjectionRow(newId, customerId, Active, 1))
            && !Refuses(db.rows, ids.eventId, newId, 1)
  {
  }

  /** A committed step: the log grows by one row and its account's projection row becomes current. */
  ghost predicate Commits(db: Db, after: Db, row: AccountRow) {
    && Grows(db, after, row) && Good(after) && GoodAccount(after, row.aggregateId)
    && Lookup(after.projection, row.aggregateId) == CurrentRow(after.rows, row.aggregateId)
  }

  lemma {:induction false} OpenCommits(db: Db, customerId: string, key: string, newId: string, ids: Ids, now: int,
                                       fault: Fault)
    returns (row: AccountRow)
    requires Good(db) && OpenAccount(db, customerId, key, newId, ids, now, fault).0 != db
    ensures Commits(db, OpenAccount(db, customerId, key, newId, ids, now, fault).0, row)
  {
    var after := OpenAccount(db, customerId, key, newId, ids, now, fault).0;
    OpenedGrows(db, customerId, key, newId, ids, now, fault);
    row := after.rows[|db.rows|];
    GoodOpening(db, after, row, customerId, ids, now);
  }

  lemma {:induction false} GoodOpening(db: Db, after: Db, row: AccountRow, customerId: string, ids: Ids, now: int)
    requires Good(db) && Grows(db, after, row) && IsOpening(row, customerId, now) && after.snapshots == db.snapshots
    requires !Refuses(db.rows, ids.eventId, row.aggregateId, 1)
    ensures Good(after) && GoodAccount(after, row.aggregateId)
    ensures CurrentRow(after.rows, row.aggregateId) == Some(ProjectionRow(row.aggregateId, customerId, Active, 1))
  {
    if Stream(db.rows, row.aggregateId) != [] {
      SecondOpeningRefused(db, row.aggregateId, ids.eventId);
      assert false;
    }
    OpenedKeepsOwn(db, after, row, customerId, now);
    GrowthKeepsGood(db, after, row);
  }

  /** The unique index refuses a second opening of a stream. */
  lemma {:induction false} SecondOpeningRefused(db: Db, newId: string, eventId: string)
    requires GoodAccount(db, newId) && Stream(db.rows, newId) != []
    ensures Refuses(db.rows, eventId, newId, 1)
  {
    var s := Stream(db.rows, newId);
    StreamMember(db.rows, newId, 0);
    assert s[0] in db.rows && s[0].version == 1;
  }

  /** The account transaction changes the database only through `Recorded`, for an active account. */
  lemma {:induction false} RecordMoneyChanges(db: Db, kind: EntryType, a: string, amount: Money, entryId: string,
                                              ids: Ids, now: int, fault: Fault)
    requires RecordMoney(db, kind, a, amount, entryId, ids, now, fault).0 != db
    ensures LoadAccount(db, a).Ok? && LoadAccount(db, a).value.status == Active
    ensures Recorded(db, LoadAccount(db, a).value, a, MoneyEvent(kind, a, amount, entryId, now), ids)
         == Some(RecordMoney(db, kind, a, amount, entryId, ids, now, fault).0)
  {
  }

  lemma {:induction false} RecordedCommits(db: Db, ag: AccountState, a: string, e: Event, ids: Ids)
    returns (row: AccountRow)
    requires Good(db) && LoadAccount(db, a) == Ok(ag) && ag.status == Active && IsMoney(e)
    requires Recorded(db, ag, a, e, ids).Some?
    ensures Commits(db, Recorded(db, ag, a, e, ids).value, row)
  {
    assert GoodAccount(db, a);
    LoadIsRehydrate(db, a);
    RecordedKeepsOwn(db, ag, a, e, ids);
    RecordedGrows(db, ag, a, e, ids);
    var after := Recorded(db, ag, a, e, ids).value;
    row := after.rows[|db.rows|];
    GrowthKeepsGood(db, after, row);
  }

  /** Every step that changes the database is one committed transaction. */
  lemma {:induction false} NextCommits(db: Db, s: Step) returns (row: AccountRow)
    requires Good(db) && Next(db, s) != db
    ensures Commits(db, Next(db, s), row)
  {
    match s
    case OpenTx(customer, key, newId, ids, now, fault) =>
      row := OpenCommits(db, customer, key, newId, ids, now, fault);
    case MoneyTx(kind, a, amount, entry, ids, now, fault) =>
      RecordMoneyChanges(db, kind, a, amount, entry, ids, now, fault);
      row := RecordedCommits(db, LoadAccount(db, a).value, a, MoneyEvent(kind, a, amount, entry, now), ids);
  }

  lemma {:induction false} RunIsGood(steps: seq<Step>)
    ensures Good(Run(steps))
  {
    if steps != [] {
      var db := Run(steps[..|steps| - 1]);
      RunIsGood(steps[..|steps| - 1]);
      if Next(db, steps[|steps| - 1]) != db {
        var row := NextCommits(db, steps[|steps| - 1]);
      }
    }
  }

  /** With no worker, every projection row is current. */
  lemma {:induction false} RowsAreCurrent(steps: seq<Step>, a: string)
    ensures GoodAccount(Run(steps), a) && Lookup(Run(steps).projection, a) == CurrentRow(Run(steps).rows, a)
  {
    RunIsGood(steps);
    assert GoodAccount(Run(steps), a);
    if steps != [] {
      var db := Run(steps[..|steps| - 1]);
      RowsAreCurrent(steps[..|steps| - 1], a);
      RunIsGood(steps[..|steps| - 1]);
      if Next(db, steps[|steps| - 1]) != db {
        var row := NextCommits(db, steps[|steps| - 1]);
        StreamAppend(db.rows, row, a);
      }
    }
  }

  // ----- Main results -----

  /** Snapshot soundness: in every reachable database, for every account, loading from the latest
      snapshot agrees with replaying the whole stream, the tail after the snapshot is shorter than
      50 events so the read limit never truncates, and versions count 1, 2, ..., n. */
  lemma {:induction false} SnapshotSoundness(steps: seq<Step>, a: string)
    ensures var db := Run(steps);
            var s := Stream(db.rows, a);
            && LoadAccount(db, a) == Rehydrate(s)
            && Numbered(s)
            && (s != [] ==> s[0].data.typ == TypeOpened)
            && (match LatestSnapshot(db.snapshots, a)
                case None => |s| < 50
                case Some(snap) =>
                  && 0 < snap.version <= |s| < snap.version + 50
                  && Rehydrate(s[..snap.version]) == Ok(snap.state)
                  && ReadFrom(db.rows, a, snap.version, READ_LIMIT) == s[snap.version..])
  {
    var db := Run(steps);
    var s := Stream(db.rows, a);
    RunIsGood(steps);
    assert GoodAccount(db, a);
    LoadIsRehydrate(db, a);
    if LastSnapshotVersion(|s|) > 0 {
      TailIsWhole(db, a);
      ShapeReplays(s, a, LastSnapshotVersion(|s|));
    }
  }

  /** Handlers alone keep the read side exact: every row is the replay of its whole stream, accounts
      without a stream have no row, and the outbox lists the committed events in order. */
  lemma {:induction false} HandlersKeepReadSide(steps: seq<Step>, a: string)
    ensures var db := Run(steps);
            var s := Stream(db.rows, a);
            && (a in db.projection <==> s != [])
            && (s != [] ==> Rehydrate(s).Ok? && db.projection[a] == RowOf(Rehydrate(s).value))
            && OutboxMirrorsLog(db)
  {
    RunIsGood(steps);
    RowsAreCurrent(steps, a);
    LoadIsRehydrate(Run(steps), a);
  }
}
