/** One key, two requests: the run in which the ledger's answer speaks of other money than was asked for. */
module KeyReuse {
  import opened Common
  import opened EventLog
  import AD = AccountDomain
  import A = AccountService
  import AR = AccountRuns
  import L = LedgerService
  import LR = LedgerRuns
  import opened MoneyMovement

  /** The first posting of an empty ledger. */
  lemma {:induction false} FirstPosting(req: Request, ids: L.Ids, now: int)
    requires Validate(req).None? && req.kind == Deposit
    ensures L.Post(L.EMPTY_DB, Command(req), ids, now, NoFault).1 == Ok(ids.entryId)
    ensures L.Post(L.EMPTY_DB, Command(req), ids, now, NoFault).0.keys == map[req.key := ids.entryId]
  {
  }

  function Opened(b: string, ids: A.Ids, now: int): A.Db {
    A.OpenAccount(A.EMPTY_DB, "customer", "key", b, ids, now, NoFault).0
  }

  lemma {:induction false} OpenedRow(b: string, ids: A.Ids, now: int) returns (row: A.AccountRow)
    ensures var db := Opened(b, ids, now);
            && db.rows == [row] && row.aggregateId == b && row.id == ids.eventId && row.version == 1
            && db.snapshots == [] && |db.outbox| == 1 && db.outbox[0].id == ids.messageId
            && row.aggregateType == A.ACCOUNT && row.data == AD.Marshal(AD.AccountOpened(b, "customer", now))
  {
    row := Opened(b, ids, now).rows[0];
  }

  /** An account that has just been opened is active. */
  lemma {:induction false} OpenedIsActive(b: string, ids: A.Ids, now: int)
    ensures A.LoadAccount(Opened(b, ids, now), b) == Ok(AD.AccountState(b, "customer", AD.Active, 1))
  {
    var db := Opened(b, ids, now);
    var row := OpenedRow(b, ids, now);
    assert [] + [row] == [row];
    StreamAppend([], row, b);
    AR.FreshStream(row, "customer", now);
    AR.LoadIsRehydrate(db, b);
  }

  /** And takes its first money event. */
  lemma {:induction false} OpenedRecords(b: string, ids: A.Ids, now: int, req: Request, entryId: string, more: A.Ids)
    requires req.accountId == b && more.eventId != ids.eventId && more.messageId != ids.messageId
    ensures A.RecordMoney(Opened(b, ids, now), req.kind, b, req.amount, entryId, more, now, NoFault).1.Ok?
  {
    var db := Opened(b, ids, now);
    var row := OpenedRow(b, ids, now);
    OpenedIsActive(b, ids, now);
    assert !Refuses(db.rows, more.eventId, b, 2) && !A.MessageIdTaken(db, more.messageId) && !A.SnapshotDue(2);
    var e := A.MoneyEvent(req.kind, b, req.amount, entryId, now);
    assert A.Recorded(db, AD.AccountState(b, "customer", AD.Active, 1), b, e, more).Some?;
  }

  /** An account is opened, and a first request reaches the ledger and gets no further. */
  function Prelude(b: string, aids: A.Ids, first: Request, lids: L.Ids, now: int): seq<Step> {
    [Open("customer", "key", b, aids, now, NoFault), Submit(0, first), LedgerCall(0, lids, now, NoFault)]
  }

  lemma {:induction false} AfterPrelude(v: int, b: string, aids: A.Ids, first: Request, lids: L.Ids, now: int,
                                        steps: seq<Step>)
    requires Validate(first).None? && first.kind == Deposit && steps == Prelude(b, aids, first, lids, now)
    ensures var s := Run(v, steps);
            && s.accounts == Opened(b, aids, now) && s.replies == [] && s.flights.Keys == {0}
            && s.ledger.db.keys == map[first.key := lids.entryId] && s.origins == map[first.key := first]
  {
    var x, y, z := steps[0], steps[1], steps[2];
    var none: seq<Step> := [];
    assert none + [x] == [x] && [x] + [y] == [x, y] && [x, y] + [z] == steps;
    RunSnoc(v, none, x);
    RunSnoc(v, [x], y);
    RunSnoc(v, [x, y], z);
    var s2 := INIT.(accounts := Opened(b, aids, now), flights := map[0 := Flight(first, Started)]);
    assert Run(v, [x, y]) == s2;
    FirstPosting(first, lids, now);
  }

  /** The witness. A first request reaches the ledger under a key; a second one, valid but for another
      account, direction or amount, comes with the same key. It is answered with success and with the first
      one's entry, which is not an entry for it, and its account's stream gets an event that names it. */
  lemma {:induction false} ReusedKeyAnswersOtherMoney(v: int, first: Request, second: Request, lids: L.Ids,
                                                      lids2: L.Ids,
                                                      aids: A.Ids, aids2: A.Ids, now: int) returns (steps: seq<Step>)
    requires Validate(first).None? && Validate(second).None? && first.kind == Deposit
    requires first.key == second.key && !SameMove(first, second)
    requires aids2.eventId != aids.eventId && aids2.messageId != aids.messageId
    ensures steps == Prelude(second.accountId, aids, first, lids, now)
                     + [Submit(1, second), LedgerCall(1, lids2, now, NoFault), AccountCall(1, aids2, now, NoFault)]
    ensures var s := Run(v, steps);
            && s.replies == [Reply(second, Ok(lids.entryId))]
            && !IsEntryFor(s.ledger.db.rows, second, lids.entryId)
            && |s.accounts.rows| == 2 && IsEventFor(s.accounts.rows[1], second, lids.entryId)
  {
    var before := Prelude(second.accountId, aids, first, lids, now);
    AfterPrelude(v, second.accountId, aids, first, lids, now, before);
    OpenedRecords(second.accountId, aids, now, second, lids.entryId, aids2);
    var row := OpenedRow(second.accountId, aids, now);
    RetryIsIdempotentOnLedger(v, before, 1, second, lids2, aids2, now);
    steps := before + [Submit(1, second), LedgerCall(1, lids2, now, NoFault), AccountCall(1, aids2, now, NoFault)];
    RunKeepsInv(v, before);
    OneEntryPerId(Run(v, before).ledger.db.rows, first, second, lids.entryId);
  }
}
