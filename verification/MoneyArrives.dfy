/** A new request that nothing stands in the way of: both services take it, and the money moves once. */
module MoneyArrives {
  import opened Common
  import opened EventLog
  import A = AccountService
  import AR = AccountRuns
  import AT = AccountTransactions
  import L = LedgerService
  import LR = LedgerRuns
  import LP = LedgerPosting
  import opened MoneyMovement

  /** Every account stays sound in every run of both services. */
  lemma {:induction false} AccountsAreGood(v: int, steps: seq<Step>)
    ensures AR.Good(Run(v, steps).accounts)
  {
    if steps != [] {
      var s, step := Run(v, steps[..|steps| - 1]), steps[|steps| - 1];
      AccountsAreGood(v, steps[..|steps| - 1]);
      match step
      case Open(customer, key, newId, ids, now, fault) =>
        StaysGood(s.accounts, AR.OpenTx(customer, key, newId, ids, now, fault));
      case AccountCall(flight, ids, now, fault) =>
        if flight in s.flights && s.flights[flight].phase.LedgerDone? {
          var Flight(req, phase) := s.flights[flight];
          StaysGood(s.accounts, AR.MoneyTx(req.kind, req.accountId, req.amount, phase.entryId, ids, now, fault));
        }
      case _ =>
    }
  }

  lemma {:induction false} StaysGood(db: A.Db, step: AR.Step)
    requires AR.Good(db)
    ensures AR.Good(AR.Next(db, step))
  {
    if AR.Next(db, step) != db { var row := AR.NextCommits(db, step); }
  }

  predicate IsValid(req: Request) {
    req.accountId != "" && req.key != "" && req.amount.currency == "NGN" && req.amount.amountKobo > 0
  }

  /** What is refused before the ledger is called: exactly the requests that are not valid, for the first reason. */
  lemma {:induction false} RefusedBeforehand(req: Request)
    ensures Validate(req).None? <==> IsValid(req)
    ensures req.accountId == "" ==> Validate(req) == Some(AccountIdRequired)
    ensures req.accountId != "" && req.key == "" ==> Validate(req) == Some(IdempotencyKeyRequired)
    ensures req.accountId != "" && req.key != "" && req.amount.currency != "NGN" ==>
              Validate(req) == Some(CurrencyNotNGN)
    ensures req.accountId != "" && req.key != "" && req.amount.currency == "NGN" && req.amount.amountKobo <= 0 ==>
              Validate(req) == Some(InvalidAmount)
  {
  }

  /** The balance covers a withdrawal, and a deposit stays within 64 bits. */
  predicate Covered(db: L.Db, req: Request) {
    if req.kind == Deposit then L.Balance(db, req.accountId, L.SERVED) + req.amount.amountKobo <= INT64_MAX
    else 0 <= L.Balance(db, req.accountId, L.SERVED) - req.amount.amountKobo
  }

  lemma {:induction false} LedgerTakes(v: int, s: System, f: nat, req: Request, lids: L.Ids, now: int)
    returns (db: L.Db)
    requires f !in s.flights && IsValid(req) && req.key !in s.ledger.db.keys
    requires LP.NewIds(s.ledger.db, lids) && Covered(s.ledger.db, req)
    ensures db == L.Post(s.ledger.db, Command(req), lids, now, NoFault).0
    ensures db.keys == s.ledger.db.keys[req.key := lids.entryId]
    ensures Next(v, s.(flights := s.flights[f := Flight(req, Started)]), LedgerCall(f, lids, now, NoFault))
         == Posted(s, req, db).(flights := s.flights[f := Flight(req, LedgerDone(lids.entryId))])
  {
    db := L.Post(s.ledger.db, Command(req), lids, now, NoFault).0;
    LP.PostCommitsIff(s.ledger.db, Command(req), lids, now);
    LP.PostWrites(s.ledger.db, Command(req), lids, now);
    assert s.flights[f := Flight(req, Started)][f := Flight(req, LedgerDone(lids.entryId))]
        == s.flights[f := Flight(req, LedgerDone(lids.entryId))];
  }

  /** A valid request under a new key, for an opened account, with new identifiers and money enough: after its
      three steps the reply is the new entry, the ledger holds what `LedgerPosting.PostWrites` says and the account
      stream one more event that names the entry. */
  lemma {:induction false} RequestSucceeds(v: int, steps: seq<Step>, f: nat, req: Request, lids: L.Ids, aids: A.Ids,
                                           now: int)
    requires var s := Run(v, steps);
             && f !in s.flights && IsValid(req) && req.key !in s.ledger.db.keys
             && LP.NewIds(s.ledger.db, lids) && Covered(s.ledger.db, req)
             && Stream(s.accounts.rows, req.accountId) != [] && AT.NewIds(s.accounts, aids)
    ensures var s := Run(v, steps);
            var t := Run(v, steps + [Submit(f, req), LedgerCall(f, lids, now, NoFault),
                                     AccountCall(f, aids, now, NoFault)]);
            && t.replies == s.replies + [Reply(req, Ok(lids.entryId))]
            && t.ledger.db == L.Post(s.ledger.db, Command(req), lids, now, NoFault).0
            && t.ledger.db.keys == s.ledger.db.keys[req.key := lids.entryId]
            && |t.accounts.rows| == |s.accounts.rows| + 1
            && IsEventFor(t.accounts.rows[|s.accounts.rows|], req, lids.entryId)
  {
    var s := Run(v, steps);
    var x, y, z := Submit(f, req), LedgerCall(f, lids, now, NoFault), AccountCall(f, aids, now, NoFault);
    RunThree(v, steps, x, y, z);
    SubmitStarts(v, s, f, req);
    var db := LedgerTakes(v, s, f, req, lids, now);
    AccountsAreGood(v, steps);
    assert AR.GoodAccount(s.accounts, req.accountId);
    AT.AnswerOnGood(s.accounts, req.kind, req.accountId, req.amount, lids.entryId, aids, now);
    AccountRecords(v, Posted(s, req, db), f, req, lids.entryId, aids, now);
  }

  /** And the money: the account's served row moves by the amount, and no other row does. */
  lemma {:induction false} MoneyMoves(v: int, steps: seq<Step>, f: nat, req: Request, lids: L.Ids, aids: A.Ids,
                                      now: int, a: string)
    requires var s := Run(v, steps);
             && f !in s.flights && IsValid(req) && req.key !in s.ledger.db.keys
             && LP.NewIds(s.ledger.db, lids) && Covered(s.ledger.db, req)
             && Stream(s.accounts.rows, req.accountId) != [] && AT.NewIds(s.accounts, aids)
    ensures var s := Run(v, steps);
            var t := Run(v, steps + [Submit(f, req), LedgerCall(f, lids, now, NoFault),
                                     AccountCall(f, aids, now, NoFault)]);
            var kobo: int := req.amount.amountKobo;
            L.Balance(t.ledger.db, a, L.SERVED) - L.Balance(s.ledger.db, a, L.SERVED)
              == if a != req.accountId then 0 else if req.kind == Deposit then kobo else -kobo
  {
    var s := Run(v, steps);
    RequestSucceeds(v, steps, f, req, lids, aids, now);
    LP.PostCommitsIff(s.ledger.db, Command(req), lids, now);
    LP.PostWrites(s.ledger.db, Command(req), lids, now);
  }
}
