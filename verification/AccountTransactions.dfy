/** What one account transaction answers and writes, in every reachable database. */
module AccountTransactions {
  import opened Common
  import opened EventLog
  import opened AccountDomain
  import opened AccountService
  import opened AccountRuns

  /** The identifiers that a transaction draws are new to the primary keys of log and outbox. */
  predicate NewIds(db: Db, ids: Ids) {
    && (forall i :: 0 <= i < |db.rows| ==> db.rows[i].id != ids.eventId)
    && (forall i :: 0 <= i < |db.outbox| ==> db.outbox[i].id != ids.messageId)
  }

  // ----- The writes alone -----

  /** The writes go through exactly if no index refuses the row, the snapshot or the message. */
  lemma {:induction false} RecordedIff(db: Db, ag: AccountState, a: string, e: Event, ids: Ids)
    ensures Recorded(db, ag, a, e, ids).Some? <==>
            && NewIds(db, ids)
            && (forall i :: 0 <= i < |db.rows| ==>
                  !(db.rows[i].aggregateId == a && db.rows[i].version == ag.version + 1))
            && ((ag.version + 1) % 50 == 0 ==>
                forall i :: 0 <= i < |db.snapshots| ==>
                  !(db.snapshots[i].aggregateId == a && db.snapshots[i].version == ag.version + 1))
  {
  }

  // ----- The version indexes never refuse the next version -----

  lemma {:induction false} NextVersionIsFree(db: Db, a: string, i: nat)
    requires GoodAccount(db, a) && i < |db.rows| && db.rows[i].aggregateId == a
    ensures db.rows[i].version != |Stream(db.rows, a)| + 1
  {
    var s := Stream(db.rows, a);
    StreamHasAll(db.rows, i);
    var k :| 0 <= k < |s| && s[k] == db.rows[i];
    assert s[k].version == k + 1;
  }

  lemma {:induction false} NextSnapshotIsFree(db: Db, a: string, i: nat)
    requires GoodAccount(db, a) && i < |db.snapshots| && db.snapshots[i].aggregateId == a
    ensures db.snapshots[i].version <= |Stream(db.rows, a)|
  {
    LatestSnapshotIsLatest(db.snapshots, a);
    assert db.snapshots[i] in db.snapshots;
  }

  lemma {:induction false} NextIsRecorded(db: Db, ag: AccountState, a: string, e: Event, ids: Ids)
    requires GoodAccount(db, a) && ag.version == |Stream(db.rows, a)|
    ensures Recorded(db, ag, a, e, ids).Some? <==> NewIds(db, ids)
  {
    forall i | 0 <= i < |db.rows|
      ensures !(db.rows[i].aggregateId == a && db.rows[i].version == ag.version + 1)
    {
      if db.rows[i].aggregateId == a { NextVersionIsFree(db, a, i); }
    }
    forall i | 0 <= i < |db.snapshots|
      ensures !(db.snapshots[i].aggregateId == a && db.snapshots[i].version == ag.version + 1)
    {
      if db.snapshots[i].aggregateId == a { NextSnapshotIsFree(db, a, i); }
    }
    RecordedIff(db, ag, a, e, ids);
  }

  // ----- Main results -----

  lemma {:induction false} LoadsActive(db: Db, a: string)
    requires GoodAccount(db, a)
    ensures var s := Stream(db.rows, a);
            LoadAccount(db, a) == Ok(if s == [] then AccountState("", "", Unset, 0)
                                     else AccountState(a, s[0].data.json.customerId, Active, |s|))
  {
    LoadIsRehydrate(db, a);
  }

  /** The answer once the account is loaded. */
  lemma {:induction false} AnswerOnceLoaded(db: Db, ag: AccountState, kind: EntryType, a: string, amount: Money,
                                            entryId: string, ids: Ids, now: int)
    requires LoadAccount(db, a) == Ok(ag)
    ensures RecordMoney(db, kind, a, amount, entryId, ids, now, NoFault).1 ==
            if ag.status != Active then Err(AccountNotActive)
            else if Recorded(db, ag, a, MoneyEvent(kind, a, amount, entryId, now), ids).None? then Err(Database)
            else Ok(entryId)
  {
  }

  lemma {:induction false} ReachableAccount(steps: seq<Step>, a: string)
    ensures GoodAccount(Run(steps), a)
  {
    RunIsGood(steps);
  }

  /** Every answer of the account transaction, over every run: an account that was never opened is not active;
      an opened one takes its next event exactly if the identifiers are new. No version is ever refused, and
      no snapshot stands in the way. */
  lemma {:induction false} RecordMoneyAnswers(steps: seq<Step>, kind: EntryType, a: string, amount: Money,
                                              entryId: string, ids: Ids, now: int)
    ensures RecordMoney(Run(steps), kind, a, amount, entryId, ids, now, NoFault).1 ==
            if Stream(Run(steps).rows, a) == [] then Err(AccountNotActive)
            else if !NewIds(Run(steps), ids) then Err(Database)
            else Ok(entryId)
  {
    ReachableAccount(steps, a);
    AnswerOnGood(Run(steps), kind, a, amount, entryId, ids, now);
  }

  lemma {:induction false} AnswerOnGood(db: Db, kind: EntryType, a: string, amount: Money, entryId: string, ids: Ids,
                                        now: int)
    requires GoodAccount(db, a)
    ensures RecordMoney(db, kind, a, amount, entryId, ids, now, NoFault).1 ==
            if Stream(db.rows, a) == [] then Err(AccountNotActive)
            else if !NewIds(db, ids) then Err(Database)
            else Ok(entryId)
  {
    LoadsActive(db, a);
    var ag := LoadAccount(db, a).value;
    AnswerOnceLoaded(db, ag, kind, a, amount, entryId, ids, now);
    if Stream(db.rows, a) != [] { NextIsRecorded(db, ag, a, MoneyEvent(kind, a, amount, entryId, now), ids); }
  }

  /** One more event `kind` of account `a`, recorded for `customer` at version `n`. */
  ghost predicate Writes(db: Db, after: Db, kind: EntryType, a: string, customer: string, n: int, entryId: string,
                         ids: Ids, now: int) {
    var event := Stored(if kind == Deposit then TypeDeposited else TypeWithdrawn, Json(a, "", entryId, now));
    && after.rows == db.rows + [Row(LastSequence(db.rows) + 1 + ids.gap, ids.eventId, a, "account", n, event)]
    && after.outbox == db.outbox + [Message(ids.messageId, a, n, event)]
    && after.projection == db.projection[a := ProjectionRow(a, customer, Active, n)]
    && (n % 50 == 0 ==>
        after.snapshots == db.snapshots + [SnapshotRow(a, n, AccountState(a, customer, Active, n))])
    && (n % 50 != 0 ==> after.snapshots == db.snapshots)
  }

  lemma {:induction false} RecordedWrites(db: Db, ag: AccountState, kind: EntryType, a: string, amount: Money,
                                          entryId: string, ids: Ids, now: int)
    requires ag.status == Active && ag.id == a
    requires Recorded(db, ag, a, MoneyEvent(kind, a, amount, entryId, now), ids).Some?
    ensures Writes(db, Recorded(db, ag, a, MoneyEvent(kind, a, amount, entryId, now), ids).value,
                   kind, a, ag.customerId, ag.version + 1, entryId, ids, now)
  {
  }

  /** What it writes then: the next event of the stream, its message and its projection row, and every fiftieth
      time one snapshot of the account at that version. */
  lemma {:induction false} RecordMoneyWrites(steps: seq<Step>, kind: EntryType, a: string, amount: Money,
                                             entryId: string, ids: Ids, now: int)
    requires Stream(Run(steps).rows, a) != [] && NewIds(Run(steps), ids)
    ensures Stream(Run(steps).rows, a)[0].data.json.Json?
    ensures var db := Run(steps);
            var s := Stream(db.rows, a);
            Writes(db, RecordMoney(db, kind, a, amount, entryId, ids, now, NoFault).0,
                   kind, a, s[0].data.json.customerId, |s| + 1, entryId, ids, now)
  {
    ReachableAccount(steps, a);
    WritesOnGood(Run(steps), kind, a, amount, entryId, ids, now);
  }

  lemma {:induction false} WritesOnGood(db: Db, kind: EntryType, a: string, amount: Money, entryId: string, ids: Ids,
                                        now: int)
    requires GoodAccount(db, a) && Stream(db.rows, a) != [] && NewIds(db, ids)
    ensures Stream(db.rows, a)[0].data.json.Json?
    ensures var s := Stream(db.rows, a);
            Writes(db, RecordMoney(db, kind, a, amount, entryId, ids, now, NoFault).0,
                   kind, a, s[0].data.json.customerId, |s| + 1, entryId, ids, now)
  {
    LoadsActive(db, a);
    var ag := LoadAccount(db, a).value;
    NextIsRecorded(db, ag, a, MoneyEvent(kind, a, amount, entryId, now), ids);
    RecordedWrites(db, ag, kind, a, amount, entryId, ids, now);
    CommitsRecorded(db, ag, kind, a, amount, entryId, ids, now);
  }

  lemma {:induction false} CommitsRecorded(db: Db, ag: AccountState, kind: EntryType, a: string, amount: Money,
                                           entryId: string, ids: Ids, now: int)
    requires LoadAccount(db, a) == Ok(ag) && ag.status == Active
    requires Recorded(db, ag, a, MoneyEvent(kind, a, amount, entryId, now), ids).Some?
    ensures Some(RecordMoney(db, kind, a, amount, entryId, ids, now, NoFault).0)
         == Recorded(db, ag, a, MoneyEvent(kind, a, amount, entryId, now), ids)
  {
  }

  /** A failing call that the transaction makes leaves the database as it was and is reported. */
  lemma {:induction false} FailedCallRollsBack(db: Db, kind: EntryType, a: string, amount: Money, entryId: string,
                                               ids: Ids, now: int, call: nat)
    requires call in {LOAD_SNAPSHOT, READ_EVENTS, APPEND, UPSERT, ENQUEUE, COMMIT}
    ensures var (after, r) := RecordMoney(db, kind, a, amount, entryId, ids, now, FailCall(call));
            after == db && r.Err?
  {
  }

  /** So does a failing save of a snapshot that is due; one that is not due is never made. */
  lemma {:induction false} FailedSnapshotRollsBack(db: Db, kind: EntryType, a: string, amount: Money, entryId: string,
                                                   ids: Ids, now: int)
    ensures var loaded := LoadAccount(db, a);
            RecordMoney(db, kind, a, amount, entryId, ids, now, FailCall(SAVE_SNAPSHOT)) ==
              if loaded.Ok? && loaded.value.status == Active && (loaded.value.version + 1) % 50 == 0
              then (db, Err(Database))
              else RecordMoney(db, kind, a, amount, entryId, ids, now, NoFault)
  {
  }

  /** A commit that takes effect but is reported as failed leaves what a good one leaves. */
  lemma {:induction false} LostCommitStays(db: Db, kind: EntryType, a: string, amount: Money, entryId: string,
                                           ids: Ids, now: int)
    ensures var (after, r) := RecordMoney(db, kind, a, amount, entryId, ids, now, LostCommit);
            after == RecordMoney(db, kind, a, amount, entryId, ids, now, NoFault).0 && r.Err?
  {
  }

  // ----- Opening -----

  /** Every answer of opening an account, for every database: it names the account that was opened. */
  lemma {:induction false} OpenAnswers(db: Db, customerId: string, key: string, newId: string, ids: Ids, now: int)
    ensures OpenAccount(db, customerId, key, newId, ids, now, NoFault).1 ==
            if customerId == "" then Err(CustomerIdRequired)
            else if key == "" then Err(IdempotencyKeyRequired)
            else if !NewIds(db, ids) || exists i :: 0 <= i < |db.rows| && db.rows[i].aggregateId == newId
                                                    && db.rows[i].version == 1
            then Err(Database)
            else Ok(newId)
  {
  }

  /** What it writes: the opening of that account's stream, its message and its projection row. */
  lemma {:induction false} OpenWrites(db: Db, customerId: string, key: string, newId: string, ids: Ids, now: int)
    requires OpenAccount(db, customerId, key, newId, ids, now, NoFault).1.Ok?
    ensures var event := Stored(TypeOpened, Json(newId, customerId, "", now));
            OpenAccount(db, customerId, key, newId, ids, now, NoFault).0 ==
              Db(db.rows + [Row(LastSequence(db.rows) + 1 + ids.gap, ids.eventId, newId, "account", 1, event)],
                 db.snapshots,
                 db.projection[newId := ProjectionRow(newId, customerId, Active, 1)],
                 db.outbox + [Message(ids.messageId, newId, 1, event)])
  {
  }

  /** The reply is Ok exactly if the opening was committed and reported, under any fault. */
  lemma {:induction false} OpenOkIff(db: Db, customerId: string, key: string, newId: string, ids: Ids, now: int,
                                     fault: Fault)
    ensures var (after, r) := OpenAccount(db, customerId, key, newId, ids, now, fault);
            && (r.Ok? <==> after != db && !fault.LostCommit?)
            && (r.Ok? ==> r == Ok(newId) && Stream(after.rows, newId) != []
                          && after.rows[|after.rows| - 1].aggregateId == r.value)
  {
    var (after, r) := OpenAccount(db, customerId, key, newId, ids, now, fault);
    if after != db {
      OpenedGrows(db, customerId, key, newId, ids, now, fault);
      StreamAppend(db.rows, after.rows[|db.rows|], newId);
    }
    assert r.Ok? ==> |after.rows| == |db.rows| + 1;
  }
}
