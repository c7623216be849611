/** What every run of postings and projection ticks keeps in the ledger database. */
module LedgerRuns {
  import opened Common
  import opened EventLog
  import opened LedgerService

  /** The worker between ticks, or inside a batch with `next` of its rows added. */
  datatype Phase = Idle | Busy(batch: seq<LedgerRow>, next: nat)

  /** The database, the worker's cursor and phase, and the entries the worker has added to balances so far. */
  datatype State = State(db: Db, cursor: nat, phase: Phase, replayed: seq<LedgerRow>)

  const INIT := State(EMPTY_DB, 0, Idle, [])

  /** Every addition of the worker commits on its own, so postings may fall between any two of its steps. */
  datatype Step =
    | PostTx(cmd: PostEntry, ids: Ids, now: int, fault: Fault)
    | ReadBatch(limit: int)
    | ApplyNext
    | Abort            // a call of the batch fails, or takes effect and is reported as failed; the cursor stays
    | Finish
    | Restart          // the cursor is not persisted

  /** The next addition of a worker that writes projection version `v`; a row that would leave 64 bits ends the
      batch. */
  function Applied(v: int, s: State): State
    requires s.phase.Busy? && s.phase.next < |s.phase.batch|
  {
    var row := s.phase.batch[s.phase.next];
    var sums := ApplyDelta(s.db.balances, BalanceKey(row.data.accountId, v), Delta(row.data));
    if sums.None? then s.(phase := Idle)
    else State(s.db.(balances := sums.value), s.cursor, s.phase.(next := s.phase.next + 1), s.replayed + [row])
  }

  function Next(v: int, s: State, step: Step): State {
    match step
    case PostTx(cmd, ids, now, fault) => s.(db := Post(s.db, cmd, ids, now, fault).0)
    case ReadBatch(limit) =>
      var batch := Batch(s.db, s.cursor, limit);
      if s.phase.Busy? || batch == [] then s else s.(phase := Busy(batch, 0))
    case ApplyNext =>
      if s.phase.Idle? || s.phase.next >= |s.phase.batch| then s else Applied(v, s)
    case Abort => s.(phase := Idle)
    case Finish =>
      if s.phase.Busy? && s.phase.next == |s.phase.batch| && s.phase.batch != []
      then s.(cursor := LastSequence(s.phase.batch), phase := Idle) else s
    case Restart => s.(cursor := 0, phase := Idle)
  }

  function Run(v: int, steps: seq<Step>): State {
    if steps == [] then INIT else Next(v, Run(v, steps[..|steps| - 1]), steps[|steps| - 1])
  }

  lemma {:induction false} RunSnoc(v: int, steps: seq<Step>, step: Step)
    ensures Run(v, steps + [step]) == Next(v, Run(v, steps), step)
  {
    assert (steps + [step])[..|steps|] == steps;
  }

  // ----- Sums -----

  /** The signed sum of an account's entries. */
  function EntrySum(rows: seq<LedgerRow>, a: string): int {
    if rows == [] then 0
    else
      var last := rows[|rows| - 1].data;
      EntrySum(rows[..|rows| - 1], a) + if last.accountId == a then Delta(last) else 0
  }

  lemma {:induction false} EntrySumAppend(rows: seq<LedgerRow>, r: LedgerRow, a: string)
    ensures EntrySum(rows + [r], a) == EntrySum(rows, a) + if r.data.accountId == a then Delta(r.data) else 0
  {
    assert (rows + [r])[..|rows|] == rows;
  }

  function OutboxSum(ms: seq<Message>, a: string): int {
    if ms == [] then 0
    else
      var last := ms[|ms| - 1];
      OutboxSum(ms[..|ms| - 1], a) + if last.key == a then last.deltaKobo else 0
  }

  // ----- Entries, keys and messages: kept whatever the worker does -----

  ghost predicate RowOk(r: LedgerRow) {
    r.version == 1 && r.aggregateId == r.data.entryId && 0 < r.data.amountKobo && r.data.currency == NGN
  }

  ghost predicate Mirrors(m: Message, r: LedgerRow) {
    m.key == r.data.accountId && m.entryId == r.data.entryId && m.deltaKobo == Delta(r.data)
  }

  ghost predicate IsEntry(rows: seq<LedgerRow>, id: string) {
    exists i :: 0 <= i < |rows| && rows[i].data.entryId == id
  }

  /** Keys and entries are in bijection. */
  ghost predicate KeysMatch(db: Db) {
    && |db.keys| == |db.rows|
    && (forall k :: k in db.keys ==> IsEntry(db.rows, db.keys[k]))
    && (forall k, k' :: k in db.keys && k' in db.keys && db.keys[k] == db.keys[k'] ==> k == k')
    && (forall i :: 0 <= i < |db.rows| ==> db.rows[i].data.entryId in db.keys.Values)
  }

  /** Valid entries with distinct ids. */
  ghost predicate RowsOk(rows: seq<LedgerRow>) {
    && Ascending(rows)
    && (forall i :: 0 <= i < |rows| ==> RowOk(rows[i]))
    && (forall i, j :: 0 <= i < j < |rows| ==> rows[i].data.entryId != rows[j].data.entryId)
  }

  ghost predicate OutboxMirrors(rows: seq<LedgerRow>, outbox: seq<Message>) {
    |outbox| == |rows| && forall i :: 0 <= i < |rows| ==> Mirrors(outbox[i], rows[i])
  }

  ghost predicate Good(db: Db) {
    RowsOk(db.rows) && KeysMatch(db) && OutboxMirrors(db.rows, db.outbox)
  }

  /** What one committed posting adds: a new entry under a new key, its message and its amount. */
  ghost predicate Grew(db: Db, after: Db, key: string, row: LedgerRow, m: Message) {
    && key !in db.keys && !IsEntry(db.rows, row.data.entryId)
    && LastSequence(db.rows) < row.sequence && RowOk(row) && Mirrors(m, row)
    && after.rows == db.rows + [row]
    && after.keys == db.keys[key := row.data.entryId]
    && after.outbox == db.outbox + [m]
    && ApplyDelta(db.balances, BalanceKey(row.data.accountId, SERVED), Delta(row.data)) == Some(after.balances)
  }

  lemma {:induction false} PostedGrows(db: Db, cmd: PostEntry, ids: Ids, now: int) returns (row: LedgerRow, m: Message)
    requires RowsOk(db.rows) && Validate(cmd).None? && Posted(db, cmd, ids, now).Some?
    ensures Grew(db, Posted(db, cmd, ids, now).value, cmd.key, row, m)
    ensures row.data == EntryOf(cmd, ids.entryId, now) && row.id == ids.eventId && m.id == ids.messageId
  {
    row := Row(LastSequence(db.rows) + 1 + ids.gap, ids.eventId, ids.entryId, LEDGER_ENTRY, 1,
               EntryOf(cmd, ids.entryId, now));
    m := Message(ids.messageId, cmd.accountId, ids.entryId, Delta(row.data), row.data.occurredAt);
    assert forall i :: 0 <= i < |db.rows| ==> RowOk(db.rows[i]);
  }

  /** A posting changes the database only through `Posted`, under a valid command that does not overdraw. */
  lemma {:induction false} PostChanges(db: Db, cmd: PostEntry, ids: Ids, now: int, fault: Fault)
    requires Post(db, cmd, ids, now, fault).0 != db
    ensures Validate(cmd).None? && !Overdraws(db, cmd)
    ensures Posted(db, cmd, ids, now) == Some(Post(db, cmd, ids, now, fault).0)
  {
  }

  lemma {:induction false} PostGrows(db: Db, cmd: PostEntry, ids: Ids, now: int, fault: Fault)
    returns (row: LedgerRow, m: Message)
    requires RowsOk(db.rows) && Post(db, cmd, ids, now, fault).0 != db
    ensures Grew(db, Post(db, cmd, ids, now, fault).0, cmd.key, row, m)
    ensures row.data == EntryOf(cmd, ids.entryId, now) && row.id == ids.eventId && m.id == ids.messageId
    ensures Validate(cmd).None? && !Overdraws(db, cmd)
  {
    PostChanges(db, cmd, ids, now, fault);
    row, m := PostedGrows(db, cmd, ids, now);
  }

  lemma {:induction false} GrowthKeepsGood(db: Db, after: Db, key: string, row: LedgerRow, m: Message)
    requires Good(db) && Grew(db, after, key, row, m)
    ensures Good(after)
  {
    RowsStayOk(db.rows, row);
    KeysStayMatched(db, after, key, row);
    OutboxStaysMirrored(db.rows, db.outbox, row, m);
  }

  lemma {:induction false} OutboxStaysMirrored(rows: seq<LedgerRow>, outbox: seq<Message>, row: LedgerRow, m: Message)
    requires OutboxMirrors(rows, outbox) && Mirrors(m, row)
    ensures OutboxMirrors(rows + [row], outbox + [m])
  {
  }

  lemma {:induction false} PostKeepsGood(db: Db, cmd: PostEntry, ids: Ids, now: int, fault: Fault)
    requires Good(db)
    ensures Good(Post(db, cmd, ids, now, fault).0)
  {
    var after := Post(db, cmd, ids, now, fault).0;
    if after != db {
      var row, m := PostGrows(db, cmd, ids, now, fault);
      GrowthKeepsGood(db, after, cmd.key, row, m);
    }
  }

  lemma {:induction false} RowsStayOk(rows: seq<LedgerRow>, row: LedgerRow)
    requires RowsOk(rows) && LastSequence(rows) < row.sequence && RowOk(row) && !IsEntry(rows, row.data.entryId)
    ensures RowsOk(rows + [row])
  {
    AscendingAppend(rows, row);
  }

  lemma {:induction false} KeysNameEntries(db: Db, after: Db, key: string, row: LedgerRow, k: string)
    requires KeysMatch(db) && after.rows == db.rows + [row] && after.keys == db.keys[key := row.data.entryId]
    requires k in after.keys
    ensures IsEntry(after.rows, after.keys[k])
  {
    if k == key {
      assert after.rows[|db.rows|] == row;
    } else {
      assert IsEntry(db.rows, db.keys[k]);
      var i :| 0 <= i < |db.rows| && db.rows[i].data.entryId == db.keys[k];
      assert after.rows[i] == db.rows[i];
    }
  }

  lemma {:induction false} EntriesHaveKeys(db: Db, after: Db, key: string, row: LedgerRow, i: nat)
    requires KeysMatch(db) && key !in db.keys
    requires after.rows == db.rows + [row] && after.keys == db.keys[key := row.data.entryId] && i < |after.rows|
    ensures after.rows[i].data.entryId in after.keys.Values
  {
    if i < |db.rows| {
      assert db.rows[i].data.entryId in db.keys.Values;
      var k :| k in db.keys && db.keys[k] == db.rows[i].data.entryId;
      assert after.keys[k] == after.rows[i].data.entryId;
    } else {
      assert after.keys[key] == after.rows[i].data.entryId;
    }
  }

  lemma {:induction false} KeysStayDistinct(db: Db, after: Db, key: string, id: string)
    requires KeysMatch(db) && !IsEntry(db.rows, id) && after.keys == db.keys[key := id]
    ensures forall k, k' :: k in after.keys && k' in after.keys && after.keys[k] == after.keys[k'] ==> k == k'
  {
  }

  lemma {:induction false} KeysStayMatched(db: Db, after: Db, key: string, row: LedgerRow)
    requires KeysMatch(db) && key !in db.keys && !IsEntry(db.rows, row.data.entryId)
    requires after.rows == db.rows + [row] && after.keys == db.keys[key := row.data.entryId]
    ensures KeysMatch(after)
  {
    forall k | k in after.keys ensures IsEntry(after.rows, after.keys[k]) {
      KeysNameEntries(db, after, key, row, k);
    }
    forall i | 0 <= i < |after.rows| ensures after.rows[i].data.entryId in after.keys.Values {
      EntriesHaveKeys(db, after, key, row, i);
    }
    KeysStayDistinct(db, after, key, row.data.entryId);
  }

  /** The worker writes balances only. */
  lemma {:induction false} WorkerKeepsTables(v: int, s: State, step: Step)
    requires !step.PostTx?
    ensures var after := Next(v, s, step).db;
            after.rows == s.db.rows && after.keys == s.db.keys && after.outbox == s.db.outbox
  {
  }

  lemma {:induction false} SameTablesAreGood(db: Db, after: Db)
    requires Good(db) && after.rows == db.rows && after.keys == db.keys && after.outbox == db.outbox
    ensures Good(after)
  {
  }

  lemma {:induction false} RunIsGood(v: int, steps: seq<Step>)
    ensures Good(Run(v, steps).db)
  {
    if steps != [] {
      var s, step := Run(v, steps[..|steps| - 1]), steps[|steps| - 1];
      RunIsGood(v, steps[..|steps| - 1]);
      if step.PostTx? {
        PostKeepsGood(s.db, step.cmd, step.ids, step.now, step.fault);
      } else {
        WorkerKeepsTables(v, s, step);
        SameTablesAreGood(s.db, Run(v, steps).db);
      }
    }
  }

  // ----- Balances -----

  /** A row is the sum of what postings and the worker put into it. */
  ghost predicate BalancesExplained(v: int, s: State, a: string) {
    && Balance(s.db, a, SERVED) == EntrySum(s.db.rows, a) + (if v == SERVED then EntrySum(s.replayed, a) else 0)
    && (v != SERVED ==> Balance(s.db, a, v) == EntrySum(s.replayed, a))
  }

  lemma {:induction false} ApplyDeltaAt(balances: map<BalanceKey, int64>, row: BalanceKey, delta: int64, k: BalanceKey)
    requires ApplyDelta(balances, row, delta).Some?
    ensures At(ApplyDelta(balances, row, delta).value, k) == At(balances, k) + if k == row then delta else 0
  {
  }

  function At(balances: map<BalanceKey, int64>, k: BalanceKey): int {
    if k in balances then balances[k] else 0
  }

  lemma {:induction false} PostAddsSum(db: Db, cmd: PostEntry, ids: Ids, now: int, fault: Fault, a: string, pv: int)
    requires Good(db)
    ensures var after := Post(db, cmd, ids, now, fault).0;
            Balance(after, a, pv) - Balance(db, a, pv) ==
              if pv == SERVED then EntrySum(after.rows, a) - EntrySum(db.rows, a) else 0
  {
    var after := Post(db, cmd, ids, now, fault).0;
    if after != db {
      var row, m := PostGrows(db, cmd, ids, now, fault);
      GrowthAddsSum(db, after, cmd.key, row, m, a, pv);
    }
  }

  lemma {:induction false} GrowthAddsSum(db: Db, after: Db, key: string, row: LedgerRow, m: Message, a: string, pv: int)
    requires Grew(db, after, key, row, m)
    ensures Balance(after, a, pv) - Balance(db, a, pv) ==
              if pv == SERVED then EntrySum(after.rows, a) - EntrySum(db.rows, a) else 0
  {
    ApplyDeltaAt(db.balances, BalanceKey(row.data.accountId, SERVED), Delta(row.data), BalanceKey(a, pv));
    EntrySumAppend(db.rows, row, a);
  }

  lemma {:induction false} PostKeepsExplained(v: int, s: State, cmd: PostEntry, ids: Ids, now: int, fault: Fault,
                                              a: string)
    requires Good(s.db) && BalancesExplained(v, s, a)
    ensures BalancesExplained(v, Next(v, s, PostTx(cmd, ids, now, fault)), a)
  {
    PostAddsSum(s.db, cmd, ids, now, fault, a, SERVED);
    PostAddsSum(s.db, cmd, ids, now, fault, a, v);
  }

  lemma {:induction false} ApplyKeepsExplained(v: int, s: State, a: string)
    requires BalancesExplained(v, s, a) && s.phase.Busy? && s.phase.next < |s.phase.batch|
    ensures BalancesExplained(v, Applied(v, s), a)
  {
    var row := s.phase.batch[s.phase.next];
    var k := BalanceKey(row.data.accountId, v);
    if ApplyDelta(s.db.balances, k, Delta(row.data)).Some? {
      ApplyDeltaAt(s.db.balances, k, Delta(row.data), BalanceKey(a, SERVED));
      ApplyDeltaAt(s.db.balances, k, Delta(row.data), BalanceKey(a, v));
      EntrySumAppend(s.replayed, row, a);
    }
  }

  lemma {:induction false} NextKeepsExplained(v: int, s: State, step: Step, a: string)
    requires Good(s.db) && BalancesExplained(v, s, a)
    ensures BalancesExplained(v, Next(v, s, step), a)
  {
    match step
    case PostTx(cmd, ids, now, fault) => PostKeepsExplained(v, s, cmd, ids, now, fault, a);
    case ReadBatch(limit) =>
    case ApplyNext =>
      if s.phase.Busy? && s.phase.next < |s.phase.batch| { ApplyKeepsExplained(v, s, a); }
    case Abort =>
    case Finish =>
    case Restart =>
  }

  /** In every run, with the worker writing any projection version and postings between any two of its
      additions, the row that the service reads is the log's signed sum, plus the worker's additions exactly
      when it writes that same row. */
  lemma {:induction false} ServedBalanceExplained(v: int, steps: seq<Step>, a: string)
    ensures BalancesExplained(v, Run(v, steps), a)
  {
    if steps != [] {
      ServedBalanceExplained(v, steps[..|steps| - 1], a);
      RunIsGood(v, steps[..|steps| - 1]);
      NextKeepsExplained(v, Run(v, steps[..|steps| - 1]), steps[|steps| - 1], a);
    }
  }

  // ----- Conservation -----

  lemma {:induction false} PostKeepsNonNegative(db: Db, cmd: PostEntry, ids: Ids, now: int, fault: Fault, a: string)
    requires Good(db) && Balance(db, a, SERVED) >= 0
    ensures Balance(Post(db, cmd, ids, now, fault).0, a, SERVED) >= 0
  {
    var after := Post(db, cmd, ids, now, fault).0;
    if after != db {
      var row, m := PostGrows(db, cmd, ids, now, fault);
      ApplyDeltaAt(db.balances, BalanceKey(cmd.accountId, SERVED), Delta(row.data), BalanceKey(a, SERVED));
    }
  }

  /** A worker on another row leaves the served row alone. */
  lemma {:induction false} WorkerKeepsServed(v: int, s: State, step: Step, a: string)
    requires v != SERVED && !step.PostTx?
    ensures Balance(Next(v, s, step).db, a, SERVED) == Balance(s.db, a, SERVED)
  {
    if step.ApplyNext? && s.phase.Busy? && s.phase.next < |s.phase.batch| {
      var row := s.phase.batch[s.phase.next];
      var k := BalanceKey(row.data.accountId, v);
      if ApplyDelta(s.db.balances, k, Delta(row.data)).Some? {
        ApplyDeltaAt(s.db.balances, k, Delta(row.data), BalanceKey(a, SERVED));
      }
    }
  }

  lemma {:induction false} NonNegative(v: int, steps: seq<Step>, a: string)
    requires v != SERVED
    ensures Balance(Run(v, steps).db, a, SERVED) >= 0
  {
    if steps != [] {
      var s, step := Run(v, steps[..|steps| - 1]), steps[|steps| - 1];
      NonNegative(v, steps[..|steps| - 1], a);
      RunIsGood(v, steps[..|steps| - 1]);
      if step.PostTx? {
        PostKeepsNonNegative(s.db, step.cmd, step.ids, step.now, step.fault, a);
      } else {
        WorkerKeepsServed(v, s, step, a);
      }
    }
  }

  lemma {:induction false} OutboxSumIsEntrySum(rows: seq<LedgerRow>, outbox: seq<Message>, a: string)
    requires OutboxMirrors(rows, outbox)
    ensures OutboxSum(outbox, a) == EntrySum(rows, a)
  {
    if rows != [] {
      var n := |rows| - 1;
      assert Mirrors(outbox[n], rows[n]);
      OutboxSumIsEntrySum(rows[..n], outbox[..n], a);
    }
  }

  /** No valid withdrawal from `a` makes the guard leave 64 bits. */
  ghost predicate GuardFits(db: Db, a: string) {
    forall cmd: PostEntry :: cmd.accountId == a && Validate(cmd).None? ==>
      IsInt64(Balance(db, a, SERVED) - cmd.amount.amountKobo)
  }

  /** The guard of an account that can be asked for stays within 64 bits exactly down to a balance of -1. */
  lemma {:induction false} GuardFitsIff(db: Db, a: string)
    ensures GuardFits(db, a) <==> a == "" || -1 <= Balance(db, a, SERVED)
  {
    if a != "" && Balance(db, a, SERVED) < -1 {
      var cmd := PostEntry("key", a, Withdrawal, Money(INT64_MAX, NGN), "", None);
      assert Validate(cmd).None? && !IsInt64(Balance(db, a, SERVED) - cmd.amount.amountKobo);
    }
  }

  /** What the wrapping guard decides: it refuses exactly the withdrawals whose difference is a negative 64-bit
      number, and lets one through whose difference wrapped around. */
  lemma {:induction false} GuardRefusesIff(db: Db, cmd: PostEntry)
    requires Validate(cmd).None? && cmd.entryType == Withdrawal
    ensures var rest := Balance(db, cmd.accountId, SERVED) - cmd.amount.amountKobo;
            Overdraws(db, cmd) <==> rest < 0 && IsInt64(rest)
  {
  }

  /** What the wrap cannot do. In any database a withdrawal that commits had its difference inside 64 bits and
      leaves the served row at that difference, which is not negative; the column refuses what the guard let
      through. */
  lemma {:induction false} CommittedWithdrawalFits(db: Db, cmd: PostEntry, ids: Ids, now: int, fault: Fault)
    requires cmd.entryType == Withdrawal && Post(db, cmd, ids, now, fault).0 != db
    ensures var rest := Balance(db, cmd.accountId, SERVED) - cmd.amount.amountKobo;
            IsInt64(rest) && 0 <= rest == Balance(Post(db, cmd, ids, now, fault).0, cmd.accountId, SERVED)
  {
    PostChanges(db, cmd, ids, now, fault);
    var e := EntryOf(cmd, ids.entryId, now);
    var k := BalanceKey(cmd.accountId, SERVED);
    assert ApplyDelta(db.balances, k, Delta(e)) == Some(Post(db, cmd, ids, now, fault).0.balances);
    ApplyDeltaAt(db.balances, k, Delta(e), k);
  }

  /** Ledger conservation. In every reachable state keys and entries are in bijection, and deposits minus
      withdrawals over the posted entries are the sum of the outbox deltas. While the worker keeps off the
      served row, each balance is that sum, it is never negative, and no withdrawal guard leaves 64 bits; a
      worker on the served row adds what it has replayed, and no more, and then the guard stays within 64 bits
      exactly while that sum is at least -1. */
  lemma {:induction false} LedgerConservation(v: int, steps: seq<Step>, a: string)
    ensures var s := Run(v, steps);
            && KeysMatch(s.db) && EntrySum(s.db.rows, a) == OutboxSum(s.db.outbox, a)
            && (v != SERVED ==> 0 <= Balance(s.db, a, SERVED) == EntrySum(s.db.rows, a) && GuardFits(s.db, a))
            && (v == SERVED ==>
                var sum := EntrySum(s.db.rows, a) + EntrySum(s.replayed, a);
                Balance(s.db, a, SERVED) == sum && (GuardFits(s.db, a) <==> a == "" || -1 <= sum))
  {
    GuardFitsIff(Run(v, steps).db, a);
    RunIsGood(v, steps);
    ServedBalanceExplained(v, steps, a);
    if v != SERVED { NonNegative(v, steps, a); }
    OutboxSumIsEntrySum(Run(v, steps).db.rows, Run(v, steps).db.outbox, a);
  }

  // ----- One entry per key -----

  /** The signed amount that entry `id` moves on account `a`. */
  function EntryDelta(rows: seq<LedgerRow>, id: string, a: string): int {
    if rows == [] then 0
    else
      var last := rows[|rows| - 1].data;
      if last.entryId == id then (if last.accountId == a then Delta(last) else 0)
      else EntryDelta(rows[..|rows| - 1], id, a)
  }

  /** The sum over a table of keys, each counted once through the entry it names. */
  ghost function KeySum(keys: map<string, string>, rows: seq<LedgerRow>, a: string): int {
    if keys == map[] then 0
    else
      var k :| k in keys;
      EntryDelta(rows, keys[k], a) + KeySum(keys - {k}, rows, a)
  }

  lemma {:induction false} KeySumRemove(keys: map<string, string>, rows: seq<LedgerRow>, a: string, k: string)
    requires k in keys
    ensures KeySum(keys, rows, a) == EntryDelta(rows, keys[k], a) + KeySum(keys - {k}, rows, a)
    decreases |keys|
  {
    var p :| p in keys && KeySum(keys, rows, a) == EntryDelta(rows, keys[p], a) + KeySum(keys - {p}, rows, a);
    if p != k {
      KeySumRemove(keys - {p}, rows, a, k);
      KeySumRemove(keys - {k}, rows, a, p);
      assert keys - {p} - {k} == keys - {k} - {p};
    }
  }

  lemma {:induction false} KeySumFrame(keys: map<string, string>, rows: seq<LedgerRow>, r: LedgerRow, a: string)
    requires forall k :: k in keys ==> keys[k] != r.data.entryId
    ensures KeySum(keys, rows + [r], a) == KeySum(keys, rows, a)
    decreases |keys|
  {
    if keys != map[] {
      var k :| k in keys;
      KeySumRemove(keys, rows, a, k);
      KeySumRemove(keys, rows + [r], a, k);
      KeySumFrame(keys - {k}, rows, r, a);
      assert (rows + [r])[..|rows|] == rows;
    }
  }

  /** The log's sum is the sum over recorded keys: no key counts twice and no entry lacks a key. */
  lemma {:induction false} KeySumIsEntrySum(v: int, steps: seq<Step>, a: string)
    ensures var db := Run(v, steps).db;
            KeySum(db.keys, db.rows, a) == EntrySum(db.rows, a)
  {
    if steps != [] {
      var s, step := Run(v, steps[..|steps| - 1]), steps[|steps| - 1];
      KeySumIsEntrySum(v, steps[..|steps| - 1], a);
      if step.PostTx? {
        RunIsGood(v, steps[..|steps| - 1]);
        PostKeepsKeySum(s.db, step.cmd, step.ids, step.now, step.fault, a);
      } else {
        WorkerKeepsTables(v, s, step);
      }
    }
  }

  lemma {:induction false} PostKeepsKeySum(db: Db, cmd: PostEntry, ids: Ids, now: int, fault: Fault, a: string)
    requires Good(db) && KeySum(db.keys, db.rows, a) == EntrySum(db.rows, a)
    ensures var after := Post(db, cmd, ids, now, fault).0;
            KeySum(after.keys, after.rows, a) == EntrySum(after.rows, a)
  {
    var after := Post(db, cmd, ids, now, fault).0;
    if after != db {
      var row, m := PostGrows(db, cmd, ids, now, fault);
      GrowthKeepsKeySum(db, after, cmd.key, row, m, a);
    }
  }

  lemma {:induction false} GrowthKeepsKeySum(db: Db, after: Db, key: string, row: LedgerRow, m: Message, a: string)
    requires Good(db) && Grew(db, after, key, row, m)
    requires KeySum(db.keys, db.rows, a) == EntrySum(db.rows, a)
    ensures KeySum(after.keys, after.rows, a) == EntrySum(after.rows, a)
  {
    assert forall k :: k in db.keys ==> IsEntry(db.rows, db.keys[k]);
    KeySumGrows(db.keys, db.rows, key, row, a);
    EntrySumAppend(db.rows, row, a);
  }

  lemma {:induction false} KeySumGrows(keys: map<string, string>, rows: seq<LedgerRow>, key: string, row: LedgerRow,
                                       a: string)
    requires key !in keys && forall k :: k in keys ==> keys[k] != row.data.entryId
    ensures KeySum(keys[key := row.data.entryId], rows + [row], a) ==
            KeySum(keys, rows, a) + if row.data.accountId == a then Delta(row.data) else 0
  {
    var more := keys[key := row.data.entryId];
    KeySumRemove(more, rows + [row], a, key);
    assert more - {key} == keys;
    KeySumFrame(keys, rows, row, a);
  }
}
