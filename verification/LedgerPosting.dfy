/** What one posting answers and does, for every database and command, and what one worker batch does. */
module LedgerPosting {
  import opened Common
  import opened EventLog
  import opened LedgerService
  import opened LedgerRuns

  /** The identifiers are new to every unique index. */
  predicate NewIds(db: Db, ids: Ids) {
    && (forall i :: 0 <= i < |db.rows| ==>
          db.rows[i].id != ids.eventId && !(db.rows[i].aggregateId == ids.entryId && db.rows[i].version == 1))
    && (forall i :: 0 <= i < |db.outbox| ==> db.outbox[i].id != ids.messageId)
  }

  /** The served row as the posting would leave it, in unbounded arithmetic. */
  function Moved(db: Db, cmd: PostEntry): int {
    var balance: int := Balance(db, cmd.accountId, 1);
    if cmd.entryType == Deposit then balance + cmd.amount.amountKobo else balance - cmd.amount.amountKobo
  }

  /** What a posting answers when no call fails: the first of these that applies. */
  function Answer(db: Db, cmd: PostEntry, ids: Ids): Result<string> {
    if cmd.key == "" then Err(IdempotencyKeyRequired)
    else if cmd.accountId == "" then Err(AccountIdRequired)
    else if cmd.amount.currency != "NGN" then Err(CurrencyNotNGN)
    else if cmd.amount.amountKobo <= 0 then Err(InvalidAmount)
    else if cmd.key in db.keys then Ok(db.keys[cmd.key])
    else if cmd.entryType == Withdrawal && INT64_MIN <= Moved(db, cmd) < 0 then Err(InsufficientFunds)
    else if !NewIds(db, ids) || !(INT64_MIN <= Moved(db, cmd) <= INT64_MAX) then Err(Database)
    else Ok(ids.entryId)
  }

  lemma {:induction false} NewIdsAreAccepted(db: Db, ids: Ids)
    ensures NewIds(db, ids) <==> !Refuses(db.rows, ids.eventId, ids.entryId, 1) && !MessageIdTaken(db, ids.messageId)
  {
  }

  lemma {:induction false} DeltaMoves(cmd: PostEntry, entryId: string, now: int)
    requires cmd.amount.amountKobo > 0
    ensures Delta(EntryOf(cmd, entryId, now))
         == if cmd.entryType == Deposit then cmd.amount.amountKobo else -cmd.amount.amountKobo
  {
  }

  /** Every answer of a posting, for every database, command and identifiers. */
  lemma {:induction false} PostAnswers(db: Db, cmd: PostEntry, ids: Ids, now: int)
    ensures Post(db, cmd, ids, now, NoFault).1 == Answer(db, cmd, ids)
  {
    NewIdsAreAccepted(db, ids);
    if Validate(cmd).None? { DeltaMoves(cmd, ids.entryId, now); }
  }

  /** So a valid command under a new key, with new identifiers, commits exactly if a deposit's sum stays within
      64 bits or a withdrawal is covered. */
  lemma {:induction false} PostCommitsIff(db: Db, cmd: PostEntry, ids: Ids, now: int)
    requires cmd.key != "" && cmd.accountId != "" && cmd.amount.currency == "NGN" && cmd.amount.amountKobo > 0
    requires cmd.key !in db.keys && NewIds(db, ids)
    ensures Post(db, cmd, ids, now, NoFault).1 == Ok(ids.entryId) <==>
            if cmd.entryType == Deposit
            then Balance(db, cmd.accountId, SERVED) + cmd.amount.amountKobo <= INT64_MAX
            else 0 <= Balance(db, cmd.accountId, SERVED) - cmd.amount.amountKobo
    ensures Post(db, cmd, ids, now, NoFault).1 == Ok(ids.entryId) <==> Post(db, cmd, ids, now, NoFault).0 != db
  {
    PostAnswers(db, cmd, ids, now);
    assert Post(db, cmd, ids, now, NoFault).1.Ok? ==> cmd.key in Post(db, cmd, ids, now, NoFault).0.keys;
  }

  /** What a committed posting writes: one row of the log, the account's served row, the key and one message. */
  lemma {:induction false} PostWrites(db: Db, cmd: PostEntry, ids: Ids, now: int)
    requires cmd.key !in db.keys && Post(db, cmd, ids, now, NoFault).1.Ok?
    ensures var after := Post(db, cmd, ids, now, NoFault).0;
            var at := if cmd.occurredAt.Some? then cmd.occurredAt.value else now;
            && after.rows == db.rows
               + [Row(LastSequence(db.rows) + 1 + ids.gap, ids.eventId, ids.entryId, "ledger_entry", 1,
                      EntryPosted(ids.entryId, cmd.accountId, cmd.entryType, cmd.amount.amountKobo, "NGN",
                                  cmd.narration, at))]
            && after.keys == db.keys[cmd.key := ids.entryId]
            && IsInt64(Moved(db, cmd))
            && after.balances == db.balances[BalanceKey(cmd.accountId, 1) := Moved(db, cmd)]
            && IsInt64(Moved(db, cmd) - Balance(db, cmd.accountId, 1))
            && after.outbox == db.outbox + [Message(ids.messageId, cmd.accountId, ids.entryId,
                                                    Moved(db, cmd) - Balance(db, cmd.accountId, 1), at)]
  {
    DeltaMoves(cmd, ids.entryId, now);
  }

  /** A failing call leaves the database as it was and is reported; a commit that takes effect but is reported
      as failed leaves what a good one leaves. */
  lemma {:induction false} PostFaults(db: Db, cmd: PostEntry, ids: Ids, now: int, fault: Fault)
    ensures var (good, bad) := (Post(db, cmd, ids, now, NoFault), Post(db, cmd, ids, now, fault));
            && (fault.FailCall? && fault.call <= COMMIT ==> bad.0 == db)
            && (fault.FailCall? && fault.call <= COMMIT && bad.1.Ok? ==> cmd.key in db.keys && bad == good)
            && (fault.FailCall? && fault.call in {GET_KEY, COMMIT} ==> bad.1.Err?)
            && (fault.LostCommit? ==> bad.0 == good.0 && bad.1.Err?)
  {
  }

  // ----- One batch of the worker -----

  /** The row that the addition of `batch[i]` would leave, in unbounded arithmetic. */
  function RowAfter(balances: map<BalanceKey, int64>, batch: seq<LedgerRow>, v: int, i: nat): int
    requires i < |batch|
  {
    At(balances, BalanceKey(batch[i].data.accountId, v)) + EntrySum(batch[..i + 1], batch[i].data.accountId)
  }

  /** Every addition fits its row. */
  ghost predicate AllFit(balances: map<BalanceKey, int64>, batch: seq<LedgerRow>, v: int) {
    forall i :: 0 <= i < |batch| ==> IsInt64(RowAfter(balances, batch, v, i))
  }

  lemma {:induction false} EntrySumCons(r: LedgerRow, rest: seq<LedgerRow>, a: string)
    ensures EntrySum([r] + rest, a) == (if r.data.accountId == a then Delta(r.data) else 0) + EntrySum(rest, a)
  {
    if rest == [] {
      assert [r] + rest == [] + [r];
      EntrySumAppend([], r, a);
    } else {
      var n := |rest| - 1;
      assert [r] + rest == ([r] + rest[..n]) + [rest[n]] && rest == rest[..n] + [rest[n]];
      EntrySumCons(r, rest[..n], a);
      EntrySumAppend([r] + rest[..n], rest[n], a);
      EntrySumAppend(rest[..n], rest[n], a);
    }
  }

  /** After the first addition, the rest of the batch fits exactly as before. */
  lemma {:induction false} RestFits(balances: map<BalanceKey, int64>, batch: seq<LedgerRow>, v: int, i: nat)
    requires i + 1 < |batch|
    requires ApplyDelta(balances, BalanceKey(batch[0].data.accountId, v), Delta(batch[0].data)).Some?
    ensures var sums := ApplyDelta(balances, BalanceKey(batch[0].data.accountId, v), Delta(batch[0].data)).value;
            RowAfter(sums, batch[1..], v, i) == RowAfter(balances, batch, v, i + 1)
  {
    var k := BalanceKey(batch[0].data.accountId, v);
    var a := batch[i + 1].data.accountId;
    ApplyDeltaAt(balances, k, Delta(batch[0].data), BalanceKey(a, v));
    assert batch[..i + 2] == [batch[0]] + batch[1..][..i + 1];
    EntrySumCons(batch[0], batch[1..][..i + 1], a);
  }

  lemma {:induction false} FirstFits(balances: map<BalanceKey, int64>, batch: seq<LedgerRow>, v: int)
    requires batch != []
    ensures RowAfter(balances, batch, v, 0)
         == At(balances, BalanceKey(batch[0].data.accountId, v)) + Delta(batch[0].data)
  {
    assert batch[..1] == [] + [batch[0]];
    EntrySumAppend([], batch[0], batch[0].data.accountId);
  }

  /** A batch goes through exactly if no call fails and every addition fits; each row of the worker's version
      then holds the signed sum of its account's entries more, and no other row has changed. */
  lemma {:induction false} BatchAdds(balances: map<BalanceKey, int64>, batch: seq<LedgerRow>, v: int, failAt: nat)
    ensures !ApplyBatch(balances, batch, v, failAt).failed <==> |batch| <= failAt && AllFit(balances, batch, v)
    ensures !ApplyBatch(balances, batch, v, failAt).failed ==>
              forall k :: At(ApplyBatch(balances, batch, v, failAt).balances, k)
                       == At(balances, k) + if k.projectionVersion == v then EntrySum(batch, k.accountId) else 0
    decreases |batch|
  {
    if batch != [] {
      FirstFits(balances, batch, v);
      var k := BalanceKey(batch[0].data.accountId, v);
      var sums := ApplyDelta(balances, k, Delta(batch[0].data));
      if failAt > 0 && sums.Some? {
        BatchAdds(sums.value, batch[1..], v, failAt - 1);
        RestAllFit(balances, sums.value, batch, v);
        forall x: BalanceKey
          ensures At(sums.value, x) + (if x.projectionVersion == v then EntrySum(batch[1..], x.accountId) else 0)
               == At(balances, x) + if x.projectionVersion == v then EntrySum(batch, x.accountId) else 0
        {
          ApplyDeltaAt(balances, k, Delta(batch[0].data), x);
          assert batch == [batch[0]] + batch[1..];
          EntrySumCons(batch[0], batch[1..], x.accountId);
        }
      }
    }
  }

  lemma {:induction false} RestAllFit(balances: map<BalanceKey, int64>, sums: map<BalanceKey, int64>,
                                      batch: seq<LedgerRow>, v: int)
    requires batch != []
    requires ApplyDelta(balances, BalanceKey(batch[0].data.accountId, v), Delta(batch[0].data)) == Some(sums)
    ensures AllFit(balances, batch, v) <==> AllFit(sums, batch[1..], v)
  {
    FirstFits(balances, batch, v);
    forall i | 0 <= i < |batch| - 1
      ensures RowAfter(sums, batch[1..], v, i) == RowAfter(balances, batch, v, i + 1)
    {
      RestFits(balances, batch, v, i);
    }
    if AllFit(sums, batch[1..], v) {
      forall i | 0 <= i < |batch| ensures IsInt64(RowAfter(balances, batch, v, i)) {
        if i > 0 { assert IsInt64(RowAfter(sums, batch[1..], v, i - 1)); }
      }
    }
  }

  /** One undisturbed tick of the worker: the log, the keys and the messages stay, and if nothing fails the
      cursor passes exactly the next batch, whose entries are added to the rows of the worker's version. */
  lemma {:induction false} TickMeans(db: Db, cursor: nat, limit: int, v: int, failAt: nat)
    requires Ascending(db.rows)
    ensures var p := Passed(db.rows, cursor);
            var q := BatchEnd(db.rows, p, EffectiveLimit(limit));
            var (after, next) := WorkerTick(db, cursor, limit, v, failAt);
            && after.rows == db.rows && after.keys == db.keys && after.outbox == db.outbox
            && (if q - p <= failAt && AllFit(db.balances, db.rows[p..q], v)
                then && Passed(db.rows, next) == q
                     && forall k :: At(after.balances, k)
                                 == At(db.balances, k)
                                    + if k.projectionVersion == v then EntrySum(db.rows[p..q], k.accountId) else 0
                else next == cursor)
  {
    BatchAdvances(db.rows, cursor, limit);
    BatchAdds(db.balances, Batch(db, cursor, limit), v, failAt);
  }
}
