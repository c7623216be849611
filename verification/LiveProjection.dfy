/** The projection worker interleaved with the handlers that write the same table. */
module LiveProjection {
  import opened Common
  import opened EventLog
  import opened AccountDomain
  import opened AccountService
  import opened AccountRuns
  import opened ProjectionWorker

  /** Between two database calls the worker is idle, or inside a batch at event `next`, with or without
      the row it read for that event. */
  datatype Phase = Idle | Busy(batch: seq<AccountRow>, next: nat, got: Option<Option<ProjectionRow>>)

  datatype Live = Live(db: Db, cursor: nat, phase: Phase)

  const INIT := Live(EMPTY_DB, 0, Idle)

  datatype Move =
    | Handler(step: AccountRuns.Step)
    | ReadBatch(limit: int)
    | Get
    | Put
    | Abort            // any call of the batch fails; the next tick retries from the same cursor
    | Finish
    | StartOver

  function Advance(s: Live, m: Move): Live {
    match m
    case Handler(h) => s.(db := AccountRuns.Next(s.db, h))
    case ReadBatch(limit) =>
      var batch := BatchOf(s.db.rows, s.cursor, limit);
      if s.phase.Busy? || batch == [] then s else s.(phase := Busy(batch, 0, None))
    case Get =>
      if s.phase.Idle? || s.phase.next >= |s.phase.batch| then s
      else s.(phase := s.phase.(got := Some(Lookup(s.db.projection, s.phase.batch[s.phase.next].aggregateId))))
    case Put =>
      if s.phase.Idle? || s.phase.next >= |s.phase.batch| || s.phase.got.None? then s
      else
        var done := s.phase.(next := s.phase.next + 1, got := None);
        (match Project(s.phase.got.value, s.phase.batch[s.phase.next])
         case Fail => s.(phase := Idle)
         case Skip => s.(phase := done)
         case Upsert(row) => s.(db := s.db.(projection := s.db.projection[row.accountId := row]), phase := done))
    case Abort => s.(phase := Idle)
    case Finish =>
      if s.phase.Busy? && s.phase.batch != [] && s.phase.next == |s.phase.batch|
      then s.(cursor := LastSequence(s.phase.batch), phase := Idle) else s
    case StartOver => s.(cursor := 0, phase := Idle)
  }

  function Play(moves: seq<Move>): Live {
    if moves == [] then INIT else Advance(Play(moves[..|moves| - 1]), moves[|moves| - 1])
  }

  // ----- The invariant -----

  /** How many rows the worker has dealt with in its present pass. */
  function Position(s: Live): nat {
    Passed(s.db.rows, s.cursor) + if s.phase.Busy? then s.phase.next else 0
  }

  /** The row is the replay of some non-empty prefix of the stream. */
  ghost predicate PrefixRow(s: seq<AccountRow>, row: Option<ProjectionRow>, a: string)
    requires StreamShape(s, a)
  {
    if s == [] then row.None?
    else row.Some? && 1 <= row.value.version <= |s| && row.value == RowOf(StateAt(s, a, row.value.version))
  }

  /** `rest` is what the pass has still to reach: with nothing of the stream left, the row is current. */
  ghost predicate RowOk(s: seq<AccountRow>, rest: seq<AccountRow>, row: Option<ProjectionRow>, a: string) {
    && StreamShape(s, a) && PrefixRow(s, row, a)
    && (rest == [] && s != [] ==> row.value.version == |s|)
  }

  ghost predicate AccountOk(rows: seq<AccountRow>, position: nat, projection: Table, a: string) {
    && position <= |rows|
    && RowOk(Stream(rows, a), Stream(rows[position..], a), Lookup(projection, a), a)
  }

  /** The batch is the stretch of the log that follows row `p`. */
  ghost predicate InLog(batch: seq<AccountRow>, rows: seq<AccountRow>, p: nat) {
    p + |batch| <= |rows| && forall i :: 0 <= i < |batch| ==> batch[i] == rows[p + i]
  }

  ghost predicate BatchOk(rows: seq<AccountRow>, p: nat, phase: Phase) {
    phase.Busy? ==>
      && phase.batch != [] && phase.next <= |phase.batch| && InLog(phase.batch, rows, p)
      && (phase.got.Some? ==>
            phase.next < |phase.batch| && GotOk(rows, phase.batch[phase.next].aggregateId, phase.got.value))
  }

  ghost predicate PhaseOk(s: Live) {
    BatchOk(s.db.rows, Passed(s.db.rows, s.cursor), s.phase)
  }

  /** The row in the worker's hand was current at some moment since its stream began. */
  ghost predicate GotOk(rows: seq<AccountRow>, a: string, got: Option<ProjectionRow>) {
    && StreamShape(Stream(rows, a), a) && Stream(rows, a) != [] && PrefixRow(Stream(rows, a), got, a)
  }

  ghost predicate AllOk(rows: seq<AccountRow>, position: nat, projection: Table) {
    forall a: string :: AccountOk(rows, position, projection, a)
  }

  // ----- The log: only handlers write it -----

  /** The log's invariant does not read the projection table. */
  lemma {:induction false} SameLogIsGood(db: Db, after: Db)
    requires Good(db) && after.rows == db.rows && after.snapshots == db.snapshots && after.outbox == db.outbox
    ensures Good(after)
  {
    assert forall a: string :: GoodAccount(db, a) ==> GoodAccount(after, a);
  }

  lemma {:induction false} WorkerKeepsLog(s: Live, m: Move)
    requires !m.Handler?
    ensures var after := Advance(s, m).db;
            after.rows == s.db.rows && after.snapshots == s.db.snapshots && after.outbox == s.db.outbox
  {
  }

  lemma {:induction false} PlayIsGood(moves: seq<Move>)
    ensures Good(Play(moves).db)
  {
    if moves != [] {
      var s, m := Play(moves[..|moves| - 1]), moves[|moves| - 1];
      PlayIsGood(moves[..|moves| - 1]);
      if m.Handler? {
        if AccountRuns.Next(s.db, m.step) != s.db { var row := NextCommits(s.db, m.step); }
      } else {
        WorkerKeepsLog(s, m);
        SameLogIsGood(s.db, Advance(s, m).db);
      }
    }
  }

  // ----- Handlers -----

  lemma {:induction false} CommitOnOther(db: Db, after: Db, row: AccountRow, position: nat, a: string)
    requires Grows(db, after, row) && AccountOk(db.rows, position, db.projection, a) && row.aggregateId != a
    ensures AccountOk(after.rows, position, after.projection, a)
  {
    StreamAppend(db.rows, row, a);
    StreamAppend(db.rows[position..], row, a);
    assert after.rows[position..] == db.rows[position..] + [row];
  }

  lemma {:induction false} CommitOnOwn(db: Db, after: Db, row: AccountRow, position: nat)
    requires Commits(db, after, row) && position <= |db.rows|
    ensures AccountOk(after.rows, position, after.projection, row.aggregateId)
  {
    StreamAppend(db.rows, row, row.aggregateId);
  }

  lemma {:induction false} CommitKeepsAccounts(db: Db, after: Db, row: AccountRow, position: nat)
    requires Commits(db, after, row) && AllOk(db.rows, position, db.projection)
    ensures AllOk(after.rows, position, after.projection)
  {
    forall a: string
      ensures AccountOk(after.rows, position, after.projection, a)
    {
      assert AccountOk(db.rows, position, db.projection, a);
      if a == row.aggregateId {
        CommitOnOwn(db, after, row, position);
      } else {
        CommitOnOther(db, after, row, position, a);
      }
    }
  }

  lemma {:induction false} CommitKeepsGot(db: Db, after: Db, row: AccountRow, a: string, got: Option<ProjectionRow>)
    requires Commits(db, after, row) && GotOk(db.rows, a, got)
    ensures GotOk(after.rows, a, got)
  {
    assert GoodAccount(after, a);
    StreamAppend(db.rows, row, a);
  }

  lemma {:induction false} CommitKeepsBatch(db: Db, after: Db, row: AccountRow, p: nat, phase: Phase)
    requires Commits(db, after, row) && BatchOk(db.rows, p, phase)
    ensures BatchOk(after.rows, p, phase)
  {
    if phase.Busy? {
      forall i | 0 <= i < |phase.batch| ensures phase.batch[i] == after.rows[p + i] {
        assert phase.batch[i] == db.rows[p + i];
      }
      if phase.got.Some? {
        CommitKeepsGot(db, after, row, phase.batch[phase.next].aggregateId, phase.got.value);
      }
    }
  }

  lemma {:induction false} CommitKeepsPassed(db: Db, after: Db, row: AccountRow, cursor: nat)
    requires Ascending(db.rows) && cursor <= LastSequence(db.rows) && Grows(db, after, row)
    ensures Passed(after.rows, cursor) == Passed(db.rows, cursor) && cursor <= LastSequence(after.rows)
  {
    AscendingAppend(db.rows, row);
    PassedAppend(db.rows, row, cursor);
  }

  lemma {:induction false} CommitKeepsPhase(s: Live, after: Db, row: AccountRow) returns (t: Live)
    requires Ascending(s.db.rows) && s.cursor <= LastSequence(s.db.rows) && PhaseOk(s) && Commits(s.db, after, row)
    ensures t == s.(db := after) && PhaseOk(t) && Position(t) == Position(s) && t.cursor <= LastSequence(after.rows)
  {
    t := s.(db := after);
    CommitKeepsPassed(s.db, after, row, s.cursor);
    CommitKeepsBatch(s.db, after, row, Passed(s.db.rows, s.cursor), s.phase);
  }

  // ----- The worker's calls -----

  /** Where the event at `position` stands in its stream. */
  lemma {:induction false} PlaceInStream(rows: seq<AccountRow>, position: nat)
    requires position < |rows|
    ensures var e, a := rows[position], rows[position].aggregateId;
            Stream(rows, a) == Stream(rows[..position], a) + [e] + Stream(rows[position + 1..], a)
  {
    var e, a := rows[position], rows[position].aggregateId;
    var before, after := rows[..position], rows[position + 1..];
    assert rows == (before + [e]) + after;
    StreamConcat(before + [e], after, a);
    StreamAppend(before, e, a);
  }

  /** What the worker writes for event `j` of a stream. */
  lemma {:induction false} PutRow(s: seq<AccountRow>, j: nat, a: string, got: Option<ProjectionRow>)
    requires StreamShape(s, a) && PrefixRow(s, got, a) && j < |s| && s[j].aggregateId == a
    ensures Project(got, s[j]) == Upsert(RowOf(StateAt(s, a, j + 1)))
  {
    assert s[j].version == j + 1;
  }

  lemma {:induction false} PutWritesPrefix(rows: seq<AccountRow>, position: nat, got: Option<ProjectionRow>)
    requires position < |rows| && GotOk(rows, rows[position].aggregateId, got)
    ensures Project(got, rows[position]).Upsert?
    ensures var a := rows[position].aggregateId;
            && Project(got, rows[position]).row.accountId == a
            && RowOk(Stream(rows, a), Stream(rows[position + 1..], a), Some(Project(got, rows[position]).row), a)
  {
    var e, a := rows[position], rows[position].aggregateId;
    var s, rest := Stream(rows, a), Stream(rows[position + 1..], a);
    var j := |Stream(rows[..position], a)|;
    PlaceInStream(rows, position);
    assert s[j] == e && |s| == j + 1 + |rest|;
    PutRow(s, j, a, got);
  }

  lemma {:induction false} PutOnOthers(rows: seq<AccountRow>, position: nat, projection: Table, row: ProjectionRow,
                                       a: string)
    requires position < |rows| && AccountOk(rows, position, projection, a)
    requires rows[position].aggregateId != a && row.accountId == rows[position].aggregateId
    ensures AccountOk(rows, position + 1, projection[row.accountId := row], a)
  {
    assert rows[position..] == [rows[position]] + rows[position + 1..];
    StreamConcat([rows[position]], rows[position + 1..], a);
    StreamAppend([], rows[position], a);
    assert [] + [rows[position]] == [rows[position]];
  }

  lemma {:induction false} PutKeepsAccounts(rows: seq<AccountRow>, position: nat, projection: Table,
                                            got: Option<ProjectionRow>)
    requires position < |rows| && GotOk(rows, rows[position].aggregateId, got) && AllOk(rows, position, projection)
    ensures Project(got, rows[position]).Upsert?
    ensures var row := Project(got, rows[position]).row;
            AllOk(rows, position + 1, projection[row.accountId := row])
  {
    PutWritesPrefix(rows, position, got);
    var row := Project(got, rows[position]).row;
    var after, table := position + 1, projection[row.accountId := row];
    forall a: string
      ensures AccountOk(rows, after, table, a)
    {
      assert AccountOk(rows, position, projection, a);
      if a != rows[position].aggregateId { PutOnOthers(rows, position, projection, row, a); }
    }
  }

  /** Going back to an earlier position only asks more of the pass. */
  lemma {:induction false} BackKeepsAccounts(rows: seq<AccountRow>, position: nat, earlier: nat, projection: Table)
    requires AllOk(rows, position, projection) && earlier <= position
    ensures AllOk(rows, earlier, projection)
  {
    forall a: string
      ensures AccountOk(rows, earlier, projection, a)
    {
      assert AccountOk(rows, position, projection, a);
      assert rows[earlier..] == rows[earlier..position] + rows[position..];
      StreamConcat(rows[earlier..position], rows[position..], a);
    }
  }

  // ----- Every move -----

  ghost predicate Inv(s: Live) {
    s.cursor <= LastSequence(s.db.rows) && PhaseOk(s) && AllOk(s.db.rows, Position(s), s.db.projection)
  }

  lemma {:induction false} HandlerKeepsInv(s: Live, h: AccountRuns.Step)
    requires Good(s.db) && Inv(s)
    ensures Inv(Advance(s, Handler(h)))
  {
    var after := AccountRuns.Next(s.db, h);
    if after != s.db {
      var row := NextCommits(s.db, h);
      var t := CommitKeepsPhase(s, after, row);
      CommitKeepsAccounts(s.db, after, row, Position(s));
      SameInv(t, after.rows, after.projection, Position(s));
    }
  }

  lemma {:induction false} RowInTable(rows: seq<AccountRow>, position: nat, projection: Table)
    requires position < |rows| && AllOk(rows, position, projection)
    ensures GotOk(rows, rows[position].aggregateId, Lookup(projection, rows[position].aggregateId))
  {
    StreamHasAll(rows, position);
    assert AccountOk(rows, position, projection, rows[position].aggregateId);
  }

  /** The event a batch is at is the log's row at the worker's position. */
  lemma {:induction false} AtPosition(s: Live)
    requires PhaseOk(s) && s.phase.Busy? && s.phase.next < |s.phase.batch|
    ensures Position(s) < |s.db.rows| && s.db.rows[Position(s)] == s.phase.batch[s.phase.next]
  {
  }

  lemma {:induction false} GetReads(s: Live, got: Option<ProjectionRow>) returns (t: Live)
    requires PhaseOk(s) && s.phase.Busy? && s.phase.next < |s.phase.batch|
    requires got == Lookup(s.db.projection, s.phase.batch[s.phase.next].aggregateId)
    requires GotOk(s.db.rows, s.phase.batch[s.phase.next].aggregateId, got)
    ensures t == Advance(s, Get) && t.db == s.db && t.cursor == s.cursor && PhaseOk(t) && Position(t) == Position(s)
  {
    t := s.(phase := s.phase.(got := Some(got)));
  }

  lemma {:induction false} GetKeepsInv(s: Live)
    requires Inv(s)
    ensures Inv(Advance(s, Get))
  {
    if s.phase.Busy? && s.phase.next < |s.phase.batch| {
      AtPosition(s);
      RowInTable(s.db.rows, Position(s), s.db.projection);
      var t := GetReads(s, Lookup(s.db.projection, s.phase.batch[s.phase.next].aggregateId));
      SameInv(t, s.db.rows, s.db.projection, Position(s));
    }
  }

  lemma {:induction false} PutAdvances(s: Live, row: ProjectionRow) returns (t: Live)
    requires PhaseOk(s) && s.phase.Busy? && s.phase.next < |s.phase.batch| && s.phase.got.Some?
    requires Project(s.phase.got.value, s.phase.batch[s.phase.next]) == Upsert(row)
    ensures t == Advance(s, Put)
    ensures t.db.rows == s.db.rows && t.db.projection == s.db.projection[row.accountId := row] && t.cursor == s.cursor
    ensures PhaseOk(t) && Position(t) == Position(s) + 1
  {
    t := Live(s.db.(projection := s.db.projection[row.accountId := row]), s.cursor,
              Busy(s.phase.batch, s.phase.next + 1, None));
  }

  lemma {:induction false} PutRowKeepsInv(s: Live) returns (t: Live)
    requires Inv(s) && s.phase.Busy? && s.phase.next < |s.phase.batch| && s.phase.got.Some?
    ensures t == Advance(s, Put) && Inv(t)
  {
    var position := Position(s);
    AtPosition(s);
    PutKeepsAccounts(s.db.rows, position, s.db.projection, s.phase.got.value);
    var row := Project(s.phase.got.value, s.db.rows[position]).row;
    t := PutAdvances(s, row);
    SameInv(t, s.db.rows, s.db.projection[row.accountId := row], position + 1);
  }

  lemma {:induction false} PutKeepsInv(s: Live)
    requires Inv(s)
    ensures Inv(Advance(s, Put))
  {
    if s.phase.Busy? && s.phase.next < |s.phase.batch| && s.phase.got.Some? {
      var t := PutRowKeepsInv(s);
    }
  }

  /** The invariant, from its parts. */
  lemma {:induction false} SameInv(t: Live, rows: seq<AccountRow>, projection: Table, position: nat)
    requires t.db.rows == rows && t.db.projection == projection && Position(t) == position
    requires t.cursor <= LastSequence(rows) && PhaseOk(t) && AllOk(rows, position, projection)
    ensures Inv(t)
  {
  }

  lemma {:induction false} FinishMoves(s: Live) returns (t: Live)
    requires Ascending(s.db.rows) && PhaseOk(s) && s.phase.Busy? && s.phase.next == |s.phase.batch|
    ensures t == Advance(s, Finish) && t.db == s.db && t.phase.Idle?
    ensures Position(t) == Position(s) && t.cursor <= LastSequence(s.db.rows)
  {
    var last := Position(s) - 1;
    assert s.phase.batch[|s.phase.batch| - 1] == s.db.rows[last];
    PassedAtRow(s.db.rows, last);
    t := s.(cursor := LastSequence(s.phase.batch), phase := Idle);
  }

  lemma {:induction false} FinishKeepsInv(s: Live)
    requires Ascending(s.db.rows) && Inv(s)
    ensures Inv(Advance(s, Finish))
  {
    if s.phase.Busy? && s.phase.next == |s.phase.batch| {
      var t := FinishMoves(s);
      SameInv(t, s.db.rows, s.db.projection, Position(s));
    }
  }

  lemma {:induction false} BackMoves(s: Live, m: Move) returns (t: Live)
    requires Ascending(s.db.rows) && s.cursor <= LastSequence(s.db.rows) && (m.Abort? || m.StartOver?)
    ensures t == Advance(s, m) && t.db == s.db && t.phase.Idle?
    ensures Position(t) <= Position(s) && t.cursor <= LastSequence(s.db.rows)
  {
    assert Passed(s.db.rows, 0) == 0;
    t := Advance(s, m);
  }

  lemma {:induction false} BackKeepsInv(s: Live, m: Move)
    requires Ascending(s.db.rows) && Inv(s) && (m.Abort? || m.StartOver?)
    ensures Inv(Advance(s, m))
  {
    var t := BackMoves(s, m);
    BackKeepsAccounts(s.db.rows, Position(s), Position(t), s.db.projection);
    SameInv(t, s.db.rows, s.db.projection, Position(t));
  }

  lemma {:induction false} ReadBatchStarts(s: Live, limit: int) returns (t: Live)
    requires s.phase.Idle? && BatchOf(s.db.rows, s.cursor, limit) != []
    ensures t == Advance(s, ReadBatch(limit)) && t.db == s.db && t.cursor == s.cursor
    ensures PhaseOk(t) && Position(t) == Position(s)
  {
    t := s.(phase := Busy(BatchOf(s.db.rows, s.cursor, limit), 0, None));
  }

  lemma {:induction false} ReadBatchKeepsInv(s: Live, limit: int)
    requires Inv(s)
    ensures Inv(Advance(s, ReadBatch(limit)))
  {
    if s.phase.Idle? && BatchOf(s.db.rows, s.cursor, limit) != [] {
      var t := ReadBatchStarts(s, limit);
      SameInv(t, s.db.rows, s.db.projection, Position(s));
    }
  }

  lemma {:induction false} InitInv()
    ensures Inv(INIT)
  {
    assert INIT.db.rows[0..] == [];
  }

  lemma {:induction false} AdvanceKeepsInv(s: Live, m: Move)
    requires Good(s.db) && Inv(s)
    ensures Inv(Advance(s, m))
  {
    match m
    case Handler(h) => HandlerKeepsInv(s, h);
    case ReadBatch(limit) => ReadBatchKeepsInv(s, limit);
    case Get => GetKeepsInv(s);
    case Put => PutKeepsInv(s);
    case Abort => BackKeepsInv(s, m);
    case Finish => FinishKeepsInv(s);
    case StartOver => BackKeepsInv(s, m);
  }

  lemma {:induction false} PlayKeepsInv(moves: seq<Move>)
    ensures Inv(Play(moves))
  {
    if moves == [] {
      InitInv();
    } else {
      PlayKeepsInv(moves[..|moves| - 1]);
      PlayIsGood(moves[..|moves| - 1]);
      AdvanceKeepsInv(Play(moves[..|moves| - 1]), moves[|moves| - 1]);
    }
  }

  // ----- Main result -----

  /** Projection against live handlers. In every interleaving of open, deposit and withdraw commits with
      the worker's separate reads and writes, failures and restarts, each row is the replay of some
      non-empty prefix of its stream, and of the whole stream when the cursor is at the end of the log
      with no batch in flight. */
  lemma {:induction false} RowsArePrefixes(moves: seq<Move>, a: string)
    ensures var s := Play(moves);
            var stream, row := Stream(s.db.rows, a), Lookup(s.db.projection, a);
            && (row.Some? <==> stream != [])
            && (row.Some? ==> 1 <= row.value.version <= |stream|
                              && Rehydrate(stream[..row.value.version]).Ok?
                              && row.value == RowOf(Rehydrate(stream[..row.value.version]).value))
            && (row.Some? && s.phase.Idle? && Passed(s.db.rows, s.cursor) == |s.db.rows| ==>
                  row.value.version == |stream|)
  {
    var s := Play(moves);
    PlayKeepsInv(moves);
    assert AccountOk(s.db.rows, Position(s), s.db.projection, a);
    var stream, row := Stream(s.db.rows, a), Lookup(s.db.projection, a);
    if row.Some? { ShapeReplays(stream, a, row.value.version); }
    assert s.db.rows[|s.db.rows|..] == [];
  }
}
