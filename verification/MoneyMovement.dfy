/** Deposits and withdrawals across both services, with crashes and retries between their transactions. */
module MoneyMovement {
  import opened Common
  import opened EventLog
  import AD = AccountDomain
  import A = AccountService
  import AR = AccountRuns
  import L = LedgerService
  import LR = LedgerRuns

  datatype Request = Request(kind: EntryType, accountId: string, amount: Money, key: string, narration: string)

  datatype Phase = Started | LedgerDone(entryId: string)

  datatype Flight = Flight(req: Request, phase: Phase)

  datatype Reply = Reply(req: Request, result: Result<string>)

  /** Both databases, the requests being handled, the request whose posting recorded each key, and
      the history of replies. */
  datatype System = System(
    ledger: LR.State,
    accounts: A.Db,
    flights: map<nat, Flight>,
    origins: map<string, Request>,
    replies: seq<Reply>)

  const INIT := System(LR.INIT, A.EMPTY_DB, map[], map[], [])

  datatype Step =
    | Open(customerId: string, key: string, newId: string, aids: A.Ids, now: int, fault: Fault)
    | Submit(flight: nat, req: Request)
    | LedgerCall(flight: nat, lids: L.Ids, now: int, fault: Fault)
    | AccountCall(flight: nat, aids: A.Ids, now: int, fault: Fault)
    | Crash(flight: nat)
    | DirectPost(cmd: L.PostEntry, lids: L.Ids, now: int, fault: Fault)
    | WorkerStep(step: LR.Step)

  /** The handlers' own guards, before the ledger is called. */
  function Validate(r: Request): Option<Error> {
    if r.accountId == "" then Some(AccountIdRequired)
    else if r.key == "" then Some(IdempotencyKeyRequired)
    else ValidateNgnPositive(r.amount)
  }

  function Command(r: Request): L.PostEntry {
    L.PostEntry(r.key, r.accountId, r.kind, r.amount, r.narration, None)
  }

  function Origin(cmd: L.PostEntry): Request {
    Request(cmd.entryType, cmd.accountId, cmd.amount, cmd.key, cmd.narration)
  }

  function Replied(s: System, flight: nat, req: Request, r: Result<string>): System {
    s.(flights := s.flights - {flight}, replies := s.replies + [Reply(req, r)])
  }

  /** A posting of `req`: the first that records its key becomes the key's origin. */
  function Posted(s: System, req: Request, db: L.Db): System {
    s.(ledger := s.ledger.(db := db),
       origins := if req.key in db.keys && req.key !in s.ledger.db.keys then s.origins[req.key := req] else s.origins)
  }

  /** The ledger's answer to a flight: carry on with the entry, or fail the request. */
  function Answered(s: System, flight: nat, req: Request, r: Result<string>): System {
    if r.Ok? then s.(flights := s.flights[flight := Flight(req, LedgerDone(r.value))]) else Replied(s, flight, req, r)
  }

  /** One step; `v` is the projection version of the ledger's worker. */
  function Next(v: int, s: System, step: Step): System {
    match step
    case Open(customer, key, newId, ids, now, fault) =>
      s.(accounts := A.OpenAccount(s.accounts, customer, key, newId, ids, now, fault).0)
    case Submit(flight, req) =>
      if flight in s.flights then s
      else if Validate(req).Some? then s.(replies := s.replies + [Reply(req, Err(Validate(req).value))])
      else s.(flights := s.flights[flight := Flight(req, Started)])
    case LedgerCall(flight, ids, now, fault) =>
      if flight !in s.flights || !s.flights[flight].phase.Started? then s
      else
        var req := s.flights[flight].req;
        var (db, r) := L.Post(s.ledger.db, Command(req), ids, now, fault);
        Answered(Posted(s, req, db), flight, req, r)
    case AccountCall(flight, ids, now, fault) =>
      if flight !in s.flights || !s.flights[flight].phase.LedgerDone? then s
      else
        var Flight(req, phase) := s.flights[flight];
        var (db, r) := A.RecordMoney(s.accounts, req.kind, req.accountId, req.amount, phase.entryId, ids, now, fault);
        Replied(s.(accounts := db), flight, req, r)
    case Crash(flight) => s.(flights := s.flights - {flight})
    case DirectPost(cmd, ids, now, fault) =>
      Posted(s, Origin(cmd), L.Post(s.ledger.db, cmd, ids, now, fault).0)
    case WorkerStep(w) => if w.PostTx? then s else s.(ledger := LR.Next(v, s.ledger, w))
  }

  function Run(v: int, steps: seq<Step>): System {
    if steps == [] then INIT else Next(v, Run(v, steps[..|steps| - 1]), steps[|steps| - 1])
  }

  /** The ledger step, if any, that a step of the system makes. */
  function LedgerStepOf(s: System, step: Step): Option<LR.Step> {
    match step
    case LedgerCall(flight, ids, now, fault) =>
      if flight !in s.flights || !s.flights[flight].phase.Started? then None
      else Some(LR.PostTx(Command(s.flights[flight].req), ids, now, fault))
    case DirectPost(cmd, ids, now, fault) => Some(LR.PostTx(cmd, ids, now, fault))
    case WorkerStep(w) => if w.PostTx? then None else Some(w)
    case _ => None
  }

  function LedgerSteps(v: int, steps: seq<Step>): seq<LR.Step> {
    if steps == [] then []
    else
      LedgerSteps(v, steps[..|steps| - 1]) +
      match LedgerStepOf(Run(v, steps[..|steps| - 1]), steps[|steps| - 1])
      case None => []
      case Some(l) => [l]
  }

  lemma {:induction false} NextOnLedger(v: int, s: System, step: Step)
    ensures Next(v, s, step).ledger ==
            match LedgerStepOf(s, step)
            case None => s.ledger
            case Some(l) => LR.Next(v, s.ledger, l)
  {
  }

  /** Seen from the ledger, a run of the system is a run of the ledger. */
  lemma {:induction false} LedgerProjects(v: int, steps: seq<Step>)
    ensures Run(v, steps).ledger == LR.Run(v, LedgerSteps(v, steps))
  {
    if steps != [] {
      var front, step := steps[..|steps| - 1], steps[|steps| - 1];
      LedgerProjects(v, front);
      NextOnLedger(v, Run(v, front), step);
      var l := LedgerStepOf(Run(v, front), step);
      if l.Some? {
        LR.RunSnoc(v, LedgerSteps(v, front), l.value);
      } else {
        assert LedgerSteps(v, steps) == LedgerSteps(v, front);
      }
    }
  }

  // ----- The invariant -----

  ghost predicate Recorded(keys: map<string, string>, req: Request, entryId: string) {
    req.key in keys && keys[req.key] == entryId
  }

  /** A money event of an account's stream, of this direction and entry. */
  predicate IsEventOf(row: A.AccountRow, a: string, kind: EntryType, entryId: string) {
    && row.aggregateId == a
    && row.data.json.Json? && row.data.json.entryId == entryId
    && row.data.typ == if kind == Deposit then AD.TypeDeposited else AD.TypeWithdrawn
  }

  /** One that is written for this request and entry. */
  predicate IsEventFor(row: A.AccountRow, req: Request, entryId: string) {
    IsEventOf(row, req.accountId, req.kind, entryId)
  }

  ghost predicate HasEvent(rows: seq<A.AccountRow>, req: Request, entryId: string) {
    exists i :: 0 <= i < |rows| && IsEventFor(rows[i], req, entryId)
  }

  /** Flights past the ledger and successful replies hold the entry recorded for their key. */
  ghost predicate FlightsOk(flights: map<nat, Flight>, keys: map<string, string>) {
    forall f :: f in flights && flights[f].phase.LedgerDone? ==>
      Recorded(keys, flights[f].req, flights[f].phase.entryId)
  }

  ghost predicate ReplyOk(reply: Reply, keys: map<string, string>, rows: seq<A.AccountRow>) {
    reply.result.Ok? ==> Recorded(keys, reply.req, reply.result.value) && HasEvent(rows, reply.req, reply.result.value)
  }

  ghost predicate RepliesOk(replies: seq<Reply>, keys: map<string, string>, rows: seq<A.AccountRow>) {
    forall i :: 0 <= i < |replies| ==> ReplyOk(replies[i], keys, rows)
  }

  ghost predicate IsMoneyRow(row: A.AccountRow) {
    row.data.typ == AD.TypeDeposited || row.data.typ == AD.TypeWithdrawn
  }

  /** A money event carries the entry recorded for some key. */
  ghost predicate EventOk(row: A.AccountRow, keys: map<string, string>) {
    IsMoneyRow(row) ==> row.data.json.Json? && row.data.json.entryId in keys.Values
  }

  ghost predicate StreamsOk(rows: seq<A.AccountRow>, keys: map<string, string>) {
    forall i :: 0 <= i < |rows| ==> EventOk(rows[i], keys)
  }

  ghost predicate IsEntryFor(rows: seq<L.LedgerRow>, req: Request, entryId: string) {
    exists i :: 0 <= i < |rows| && rows[i].data.entryId == entryId && MovesAs(rows[i].data, req)
  }

  ghost predicate MovesAs(e: L.EntryPosted, req: Request) {
    e.accountId == req.accountId && e.entryType == req.kind && e.amountKobo == req.amount.amountKobo
  }

  /** Two requests for the same movement: account, direction and amount. */
  predicate SameMove(x: Request, y: Request) {
    x.accountId == y.accountId && x.kind == y.kind && x.amount.amountKobo == y.amount.amountKobo
  }

  /** Every key has an origin, and its entry is the one posted for that origin. */
  ghost predicate OriginsOk(origins: map<string, Request>, keys: map<string, string>, rows: seq<L.LedgerRow>) {
    forall k :: k in keys ==> k in origins && origins[k].key == k && IsEntryFor(rows, origins[k], keys[k])
  }

  ghost predicate Inv(s: System) {
    && FlightsOk(s.flights, s.ledger.db.keys)
    && RepliesOk(s.replies, s.ledger.db.keys, s.accounts.rows)
    && StreamsOk(s.accounts.rows, s.ledger.db.keys)
    && OriginsOk(s.origins, s.ledger.db.keys, s.ledger.db.rows)
  }

  // ----- Ledger steps -----

  /** The ledger only grows: recorded keys keep their entries. */
  ghost predicate Extends(db: L.Db, after: L.Db) {
    && db.rows <= after.rows
    && (forall k :: k in db.keys ==> k in after.keys && after.keys[k] == db.keys[k])
  }

  lemma {:induction false} GrewExtends(db: L.Db, after: L.Db, key: string, row: L.LedgerRow, m: L.Message)
    requires LR.Grew(db, after, key, row, m)
    ensures Extends(db, after)
  {
  }

  /** A posting that succeeds answers with the entry recorded for its key, old or new. */
  lemma {:induction false} PostAnswersRecorded(db: L.Db, cmd: L.PostEntry, ids: L.Ids, now: int, fault: Fault)
    ensures var (after, r) := L.Post(db, cmd, ids, now, fault);
            r.Ok? ==> Recorded(after.keys, Origin(cmd), r.value)
  {
  }

  /** Either nothing changed, or the entry of this request was added under its own new key. */
  ghost predicate Adds(db: L.Db, after: L.Db, req: Request) {
    after != db ==>
      && req.key !in db.keys && req.key in after.keys
      && after.keys == db.keys[req.key := after.keys[req.key]]
      && IsEntryFor(after.rows, req, after.keys[req.key])
  }

  lemma {:induction false} PostExtends(db: L.Db, cmd: L.PostEntry, ids: L.Ids, now: int, fault: Fault)
    returns (after: L.Db)
    requires LR.Good(db)
    ensures after == L.Post(db, cmd, ids, now, fault).0 && Extends(db, after) && Adds(db, after, Origin(cmd))
  {
    after := L.Post(db, cmd, ids, now, fault).0;
    if after != db {
      var row, m := LR.PostGrows(db, cmd, ids, now, fault);
      GrewExtends(db, after, cmd.key, row, m);
      assert after.rows[|db.rows|] == row;
    }
  }

  lemma {:induction false} EntryStays(rows: seq<L.LedgerRow>, after: seq<L.LedgerRow>, req: Request, id: string)
    requires rows <= after && IsEntryFor(rows, req, id)
    ensures IsEntryFor(after, req, id)
  {
    var i :| 0 <= i < |rows| && rows[i].data.entryId == id && MovesAs(rows[i].data, req);
    assert after[i] == rows[i];
  }

  lemma {:induction false} OriginsGrow(origins: map<string, Request>, db: L.Db, after: L.Db, req: Request)
    requires OriginsOk(origins, db.keys, db.rows) && Extends(db, after) && Adds(db, after, req)
    ensures OriginsOk(if req.key in after.keys && req.key !in db.keys then origins[req.key := req] else origins,
                      after.keys, after.rows)
  {
    forall k | k in db.keys ensures IsEntryFor(after.rows, origins[k], db.keys[k]) {
      EntryStays(db.rows, after.rows, origins[k], db.keys[k]);
    }
  }

  /** More keys keep every record. */
  lemma {:induction false} KeysGrow(s: System, keys: map<string, string>)
    requires FlightsOk(s.flights, s.ledger.db.keys) && RepliesOk(s.replies, s.ledger.db.keys, s.accounts.rows)
    requires StreamsOk(s.accounts.rows, s.ledger.db.keys)
    requires forall k :: k in s.ledger.db.keys ==> k in keys && keys[k] == s.ledger.db.keys[k]
    ensures FlightsOk(s.flights, keys) && RepliesOk(s.replies, keys, s.accounts.rows)
    ensures StreamsOk(s.accounts.rows, keys)
  {
    forall i | 0 <= i < |s.replies| ensures ReplyOk(s.replies[i], keys, s.accounts.rows) {
      assert ReplyOk(s.replies[i], s.ledger.db.keys, s.accounts.rows);
    }
    forall i | 0 <= i < |s.accounts.rows| ensures EventOk(s.accounts.rows[i], keys) {
      assert EventOk(s.accounts.rows[i], s.ledger.db.keys);
      ValuesGrow(s.ledger.db.keys, keys);
    }
  }

  lemma {:induction false} ValuesGrow(keys: map<string, string>, more: map<string, string>)
    requires forall k :: k in keys ==> k in more && more[k] == keys[k]
    ensures keys.Values <= more.Values
  {
    forall id | id in keys.Values ensures id in more.Values {
      var k :| k in keys && keys[k] == id;
      assert more[k] == id;
    }
  }

  lemma {:induction false} PostedKeepsInv(s: System, req: Request, after: L.Db)
    requires Inv(s) && Extends(s.ledger.db, after) && Adds(s.ledger.db, after, req)
    ensures Inv(Posted(s, req, after))
  {
    OriginsGrow(s.origins, s.ledger.db, after, req);
    KeysGrow(s, after.keys);
  }

  lemma {:induction false} AnsweredKeepsInv(s: System, flight: nat, req: Request, r: Result<string>)
    requires Inv(s) && (r.Ok? ==> Recorded(s.ledger.db.keys, req, r.value))
    ensures Inv(Answered(s, flight, req, r))
  {
    var t := Answered(s, flight, req, r);
    forall i | 0 <= i < |t.replies| ensures ReplyOk(t.replies[i], t.ledger.db.keys, t.accounts.rows) {
      if i < |s.replies| { assert ReplyOk(s.replies[i], s.ledger.db.keys, s.accounts.rows); }
    }
  }

  lemma {:induction false} LedgerCallKeepsInv(v: int, s: System, flight: nat, ids: L.Ids, now: int, fault: Fault)
    returns (t: System)
    requires Inv(s) && LR.Good(s.ledger.db)
    ensures t == Next(v, s, LedgerCall(flight, ids, now, fault)) && Inv(t)
  {
    t := s;
    if flight in s.flights && s.flights[flight].phase.Started? {
      var req := s.flights[flight].req;
      var after := PostExtends(s.ledger.db, Command(req), ids, now, fault);
      assert Origin(Command(req)) == req;
      PostedKeepsInv(s, req, after);
      PostAnswersRecorded(s.ledger.db, Command(req), ids, now, fault);
      var r := L.Post(s.ledger.db, Command(req), ids, now, fault).1;
      AnsweredKeepsInv(Posted(s, req, after), flight, req, r);
      t := Answered(Posted(s, req, after), flight, req, r);
    }
  }

  // ----- Account steps -----

  lemma {:induction false} RecordAppends(db: A.Db, req: Request, entryId: string, ids: A.Ids, now: int, fault: Fault)
    requires A.RecordMoney(db, req.kind, req.accountId, req.amount, entryId, ids, now, fault).0 != db
    ensures var after := A.RecordMoney(db, req.kind, req.accountId, req.amount, entryId, ids, now, fault).0;
            && |after.rows| == |db.rows| + 1
            && after.rows[..|db.rows|] == db.rows
            && IsEventFor(after.rows[|db.rows|], req, entryId)
  {
    AR.RecordMoneyChanges(db, req.kind, req.accountId, req.amount, entryId, ids, now, fault);
    RecordedAppends(db, A.LoadAccount(db, req.accountId).value, req, entryId, ids, now);
  }

  lemma {:induction false} RecordedAppends(db: A.Db, ag: AD.AccountState, req: Request, entryId: string, ids: A.Ids,
                                           now: int)
    requires var e := A.MoneyEvent(req.kind, req.accountId, req.amount, entryId, now);
             A.Recorded(db, ag, req.accountId, e, ids).Some?
    ensures var e := A.MoneyEvent(req.kind, req.accountId, req.amount, entryId, now);
            var after := A.Recorded(db, ag, req.accountId, e, ids).value;
            && |after.rows| == |db.rows| + 1
            && after.rows[..|db.rows|] == db.rows
            && IsEventFor(after.rows[|db.rows|], req, entryId)
  {
  }

  lemma {:induction false} RecordOkChanges(db: A.Db, req: Request, entryId: string, ids: A.Ids, now: int, fault: Fault)
    requires A.RecordMoney(db, req.kind, req.accountId, req.amount, entryId, ids, now, fault).1.Ok?
    ensures A.RecordMoney(db, req.kind, req.accountId, req.amount, entryId, ids, now, fault).1 == Ok(entryId)
    ensures A.RecordMoney(db, req.kind, req.accountId, req.amount, entryId, ids, now, fault).0.rows != db.rows
  {
  }

  lemma {:induction false} MoreRowsKeepReply(rows: seq<A.AccountRow>, after: seq<A.AccountRow>, reply: Reply,
                                             keys: map<string, string>)
    requires rows <= after && ReplyOk(reply, keys, rows)
    ensures ReplyOk(reply, keys, after)
  {
    if reply.result.Ok? {
      var i :| 0 <= i < |rows| && IsEventFor(rows[i], reply.req, reply.result.value);
      assert after[i] == rows[i];
    }
  }

  /** One more account row, and perhaps one more reply. */
  lemma {:induction false} RowsGrow(s: System, t: System, row: A.AccountRow)
    requires Inv(s) && t.ledger == s.ledger && t.origins == s.origins && FlightsOk(t.flights, s.ledger.db.keys)
    requires t.accounts.rows == s.accounts.rows + [row] && EventOk(row, s.ledger.db.keys)
    requires s.replies <= t.replies && |t.replies| <= |s.replies| + 1
    requires |t.replies| > |s.replies| ==> ReplyOk(t.replies[|s.replies|], s.ledger.db.keys, t.accounts.rows)
    ensures Inv(t)
  {
    forall i | 0 <= i < |t.replies| ensures ReplyOk(t.replies[i], s.ledger.db.keys, t.accounts.rows) {
      if i < |s.replies| { MoreRowsKeepReply(s.accounts.rows, t.accounts.rows, s.replies[i], s.ledger.db.keys); }
    }
    forall i | 0 <= i < |t.accounts.rows| ensures EventOk(t.accounts.rows[i], s.ledger.db.keys) {
      if i < |s.accounts.rows| { assert EventOk(s.accounts.rows[i], s.ledger.db.keys); }
    }
  }

  /** Steps that write neither log: starting, refusing, failing or dropping a request, and the worker's. */
  lemma {:induction false} QuietKeepsInv(s: System, t: System)
    requires Inv(s) && t.accounts.rows == s.accounts.rows && t.origins == s.origins
    requires t.ledger.db.keys == s.ledger.db.keys && t.ledger.db.rows == s.ledger.db.rows
    requires FlightsOk(t.flights, s.ledger.db.keys)
    requires s.replies <= t.replies && |t.replies| <= |s.replies| + 1
    requires |t.replies| > |s.replies| ==> t.replies[|s.replies|].result.Err?
    ensures Inv(t)
  {
    forall i | 0 <= i < |t.replies| ensures ReplyOk(t.replies[i], t.ledger.db.keys, t.accounts.rows) {
      if i < |s.replies| { assert ReplyOk(s.replies[i], s.ledger.db.keys, s.accounts.rows); }
    }
  }

  lemma {:induction false} AccountCallKeepsInv(v: int, s: System, flight: nat, ids: A.Ids, now: int, fault: Fault)
    requires Inv(s)
    ensures Inv(Next(v, s, AccountCall(flight, ids, now, fault)))
  {
    if flight in s.flights && s.flights[flight].phase.LedgerDone? {
      var Flight(req, phase) := s.flights[flight];
      var (after, r) := A.RecordMoney(s.accounts, req.kind, req.accountId, req.amount, phase.entryId, ids, now, fault);
      if r.Ok? { RecordOkChanges(s.accounts, req, phase.entryId, ids, now, fault); }
      if after != s.accounts { RecordAppends(s.accounts, req, phase.entryId, ids, now, fault); }
      RecordedKeepsInv(s, after, flight, req, phase.entryId, r);
    }
  }

  lemma {:induction false} RecordedKeepsInv(s: System, after: A.Db, flight: nat, req: Request, entryId: string,
                                            r: Result<string>)
    requires Inv(s) && Recorded(s.ledger.db.keys, req, entryId)
    requires after != s.accounts ==>
               |after.rows| == |s.accounts.rows| + 1 && after.rows[..|s.accounts.rows|] == s.accounts.rows
               && IsEventFor(after.rows[|s.accounts.rows|], req, entryId)
    requires r.Ok? ==> r.value == entryId && after != s.accounts
    ensures Inv(Replied(s.(accounts := after), flight, req, r))
  {
    var t := Replied(s.(accounts := after), flight, req, r);
    if after == s.accounts {
      QuietKeepsInv(s, t);
    } else {
      RowsGrow(s, t, after.rows[|s.accounts.rows|]);
    }
  }

  lemma {:induction false} OpenKeepsInv(v: int, s: System, step: Step)
    requires Inv(s) && step.Open?
    ensures Inv(Next(v, s, step))
  {
    var t := Next(v, s, step);
    if t.accounts != s.accounts {
      AR.OpenedGrows(s.accounts, step.customerId, step.key, step.newId, step.aids, step.now, step.fault);
      RowsGrow(s, t, t.accounts.rows[|s.accounts.rows|]);
    }
  }

  lemma {:induction false} WorkerKeepsInv(v: int, s: System, w: LR.Step)
    requires Inv(s)
    ensures Inv(Next(v, s, WorkerStep(w)))
  {
    if !w.PostTx? {
      LR.WorkerKeepsTables(v, s.ledger, w);
      QuietKeepsInv(s, Next(v, s, WorkerStep(w)));
    }
  }

  lemma {:induction false} SubmitKeepsInv(v: int, s: System, flight: nat, req: Request)
    requires Inv(s)
    ensures Inv(Next(v, s, Submit(flight, req)))
  {
    QuietKeepsInv(s, Next(v, s, Submit(flight, req)));
  }

  lemma {:induction false} CrashKeepsInv(v: int, s: System, flight: nat)
    requires Inv(s)
    ensures Inv(Next(v, s, Crash(flight)))
  {
    QuietKeepsInv(s, Next(v, s, Crash(flight)));
  }

  lemma {:induction false} DirectPostKeepsInv(v: int, s: System, cmd: L.PostEntry, ids: L.Ids, now: int, fault: Fault)
    returns (t: System)
    requires Inv(s) && LR.Good(s.ledger.db)
    ensures t == Next(v, s, DirectPost(cmd, ids, now, fault)) && Inv(t)
  {
    var after := PostExtends(s.ledger.db, cmd, ids, now, fault);
    PostedKeepsInv(s, Origin(cmd), after);
    t := Posted(s, Origin(cmd), after);
    DirectPostIsPosted(v, s, cmd, ids, now, fault, after);
  }

  lemma {:induction false} DirectPostIsPosted(v: int, s: System, cmd: L.PostEntry, ids: L.Ids, now: int, fault: Fault,
                                              after: L.Db)
    requires after == L.Post(s.ledger.db, cmd, ids, now, fault).0
    ensures Next(v, s, DirectPost(cmd, ids, now, fault)) == Posted(s, Origin(cmd), after)
  {
  }

  lemma {:induction false} NextKeepsInv(v: int, s: System, step: Step)
    requires Inv(s) && LR.Good(s.ledger.db)
    ensures Inv(Next(v, s, step))
  {
    match step
    case Open(_, _, _, _, _, _) => OpenKeepsInv(v, s, step);
    case Submit(flight, req) => SubmitKeepsInv(v, s, flight, req);
    case LedgerCall(flight, ids, now, fault) => var t := LedgerCallKeepsInv(v, s, flight, ids, now, fault);
    case AccountCall(flight, ids, now, fault) => AccountCallKeepsInv(v, s, flight, ids, now, fault);
    case Crash(flight) => CrashKeepsInv(v, s, flight);
    case DirectPost(cmd, ids, now, fault) => var t := DirectPostKeepsInv(v, s, cmd, ids, now, fault);
    case WorkerStep(w) => WorkerKeepsInv(v, s, w);
  }

  lemma {:induction false} RunKeepsInv(v: int, steps: seq<Step>)
    ensures LR.Good(Run(v, steps).ledger.db) && Inv(Run(v, steps))
  {
    LedgerProjects(v, steps);
    LR.RunIsGood(v, LedgerSteps(v, steps));
    if steps != [] {
      RunKeepsInv(v, steps[..|steps| - 1]);
      NextKeepsInv(v, Run(v, steps[..|steps| - 1]), steps[|steps| - 1]);
    }
  }

  // ----- Main results -----

  /** Exactly-once money. Over every run of deposits and withdrawals, with crashes and faults at any
      point and any retries: keys and ledger entries are in bijection, all successful replies for a key
      carry the entry recorded for it, each of them is backed by an event of the account stream, and
      every entry id in an account stream exists in the ledger. */
  lemma {:induction false} ExactlyOnce(v: int, steps: seq<Step>)
    ensures var s := Run(v, steps);
            && LR.KeysMatch(s.ledger.db)
            && (forall i :: 0 <= i < |s.replies| ==> ReplyOk(s.replies[i], s.ledger.db.keys, s.accounts.rows))
            && (forall i, j | 0 <= i < |s.replies| && 0 <= j < |s.replies| ::
                  s.replies[i].result.Ok? && s.replies[j].result.Ok? && s.replies[i].req.key == s.replies[j].req.key
                  ==> s.replies[i].result == s.replies[j].result)
            && (forall i :: 0 <= i < |s.accounts.rows| && IsMoneyRow(s.accounts.rows[i]) ==>
                  && s.accounts.rows[i].data.json.Json?
                  && LR.IsEntry(s.ledger.db.rows, s.accounts.rows[i].data.json.entryId))
  {
    RunKeepsInv(v, steps);
    var s := Run(v, steps);
    forall i, j | 0 <= i < |s.replies| && 0 <= j < |s.replies|
      ensures s.replies[i].result.Ok? && s.replies[j].result.Ok? && s.replies[i].req.key == s.replies[j].req.key
              ==> s.replies[i].result == s.replies[j].result
    {
      assert ReplyOk(s.replies[i], s.ledger.db.keys, s.accounts.rows);
      assert ReplyOk(s.replies[j], s.ledger.db.keys, s.accounts.rows);
    }
    forall i | 0 <= i < |s.accounts.rows| && IsMoneyRow(s.accounts.rows[i])
      ensures s.accounts.rows[i].data.json.Json? && LR.IsEntry(s.ledger.db.rows, s.accounts.rows[i].data.json.entryId)
    {
      assert EventOk(s.accounts.rows[i], s.ledger.db.keys);
    }
  }

  // ----- One event per successful reply -----

  function EventsTo(rows: seq<A.AccountRow>, n: nat, a: string, kind: EntryType, id: string): nat
    requires n <= |rows|
  {
    if n == 0 then 0 else EventsTo(rows, n - 1, a, kind, id) + if IsEventOf(rows[n - 1], a, kind, id) then 1 else 0
  }

  predicate Succeeded(reply: Reply, a: string, kind: EntryType, id: string) {
    reply.result == Ok(id) && reply.req.accountId == a && reply.req.kind == kind
  }

  function SuccessesTo(replies: seq<Reply>, n: nat, a: string, kind: EntryType, id: string): nat
    requires n <= |replies|
  {
    if n == 0 then 0
    else SuccessesTo(replies, n - 1, a, kind, id) + if Succeeded(replies[n - 1], a, kind, id) then 1 else 0
  }

  /** The successful replies for an account, a direction and an entry. */
  function Successes(s: System, a: string, kind: EntryType, id: string): nat {
    SuccessesTo(s.replies, |s.replies|, a, kind, id)
  }

  /** The events of the account's stream for them. */
  function Events(s: System, a: string, kind: EntryType, id: string): nat {
    EventsTo(s.accounts.rows, |s.accounts.rows|, a, kind, id)
  }

  lemma {:induction false} EventsPrefix(rows: seq<A.AccountRow>, more: seq<A.AccountRow>, n: nat, a: string,
                                        kind: EntryType, id: string)
    requires rows <= more && n <= |rows|
    ensures EventsTo(more, n, a, kind, id) == EventsTo(rows, n, a, kind, id)
  {
    if n > 0 { EventsPrefix(rows, more, n - 1, a, kind, id); }
  }

  lemma {:induction false} SuccessesPrefix(replies: seq<Reply>, more: seq<Reply>, n: nat, a: string, kind: EntryType,
                                           id: string)
    requires replies <= more && n <= |replies|
    ensures SuccessesTo(more, n, a, kind, id) == SuccessesTo(replies, n, a, kind, id)
  {
    if n > 0 { SuccessesPrefix(replies, more, n - 1, a, kind, id); }
  }

  /** A step adds at most one reply and one account row, and a successful reply only with its row. */
  ghost predicate Backs(s: System, t: System) {
    && s.accounts.rows <= t.accounts.rows && |t.accounts.rows| <= |s.accounts.rows| + 1
    && s.replies <= t.replies && |t.replies| <= |s.replies| + 1
    && (|t.replies| > |s.replies| && t.replies[|s.replies|].result.Ok? ==>
        var reply := t.replies[|s.replies|];
        && |t.accounts.rows| > |s.accounts.rows|
        && IsEventFor(t.accounts.rows[|s.accounts.rows|], reply.req, reply.result.value))
  }

  lemma {:induction false} AccountCallBacks(v: int, s: System, flight: nat, ids: A.Ids, now: int, fault: Fault)
    ensures Backs(s, Next(v, s, AccountCall(flight, ids, now, fault)))
  {
    if flight in s.flights && s.flights[flight].phase.LedgerDone? {
      var Flight(req, phase) := s.flights[flight];
      var (after, r) := A.RecordMoney(s.accounts, req.kind, req.accountId, req.amount, phase.entryId, ids, now, fault);
      if r.Ok? { RecordOkChanges(s.accounts, req, phase.entryId, ids, now, fault); }
      if after != s.accounts { RecordAppends(s.accounts, req, phase.entryId, ids, now, fault); }
      assert Backs(s, Replied(s.(accounts := after), flight, req, r));
    }
  }

  lemma {:induction false} OpenBacks(v: int, s: System, step: Step)
    requires step.Open?
    ensures Backs(s, Next(v, s, step))
  {
    if Next(v, s, step).accounts != s.accounts {
      AR.OpenedGrows(s.accounts, step.customerId, step.key, step.newId, step.aids, step.now, step.fault);
    }
  }

  lemma {:induction false} StepBacks(v: int, s: System, step: Step)
    ensures Backs(s, Next(v, s, step))
  {
    match step
    case Open(_, _, _, _, _, _) => OpenBacks(v, s, step);
    case Submit(_, _) =>
    case LedgerCall(_, _, _, _) =>
    case AccountCall(flight, ids, now, fault) => AccountCallBacks(v, s, flight, ids, now, fault);
    case Crash(_) =>
    case DirectPost(_, _, _, _) =>
    case WorkerStep(_) =>
  }

  lemma {:induction false} BacksCount(s: System, t: System, a: string, kind: EntryType, id: string)
    requires Backs(s, t) && Successes(s, a, kind, id) <= Events(s, a, kind, id)
    ensures Successes(t, a, kind, id) <= Events(t, a, kind, id)
  {
    EventsPrefix(s.accounts.rows, t.accounts.rows, |s.accounts.rows|, a, kind, id);
    SuccessesPrefix(s.replies, t.replies, |s.replies|, a, kind, id);
  }

  /** No two successful replies share an event: over every run, the successful replies for an account, a
      direction and an entry are at most as many as the events of that account's stream for them. */
  lemma {:induction false} EventForEachReply(v: int, steps: seq<Step>, a: string, kind: EntryType, id: string)
    ensures Successes(Run(v, steps), a, kind, id) <= Events(Run(v, steps), a, kind, id)
  {
    if steps != [] {
      var s, step := Run(v, steps[..|steps| - 1]), steps[|steps| - 1];
      EventForEachReply(v, steps[..|steps| - 1], a, kind, id);
      StepBacks(v, s, step);
      BacksCount(s, Next(v, s, step), a, kind, id);
    }
  }

  /** Each balance is the signed sum over recorded keys, each key counted once, and never negative, while
      the ledger's worker keeps off the served row; if it writes that row too, what it replayed comes on top. */
  lemma {:induction false} BalancesCountKeysOnce(v: int, steps: seq<Step>, a: string)
    ensures var ledger := Run(v, steps).ledger;
            var sum := LR.KeySum(ledger.db.keys, ledger.db.rows, a);
            if v != L.SERVED then 0 <= L.Balance(ledger.db, a, L.SERVED) == sum
            else L.Balance(ledger.db, a, L.SERVED) == sum + LR.EntrySum(ledger.replayed, a)
  {
    LedgerProjects(v, steps);
    LR.ServedBalanceExplained(v, LedgerSteps(v, steps), a);
    LR.KeySumIsEntrySum(v, LedgerSteps(v, steps), a);
    LR.LedgerConservation(v, LedgerSteps(v, steps), a);
  }

  // ----- Whose money a reply and an event speak of -----

  /** An id names one entry, so two requests it stands for are the same movement. */
  lemma {:induction false} OneEntryPerId(rows: seq<L.LedgerRow>, x: Request, y: Request, id: string)
    requires LR.RowsOk(rows) && IsEntryFor(rows, x, id)
    ensures IsEntryFor(rows, y, id) <==> SameMove(x, y)
  {
    var i :| 0 <= i < |rows| && rows[i].data.entryId == id && MovesAs(rows[i].data, x);
    if IsEntryFor(rows, y, id) {
      var j :| 0 <= j < |rows| && rows[j].data.entryId == id && MovesAs(rows[j].data, y);
      assert i == j;
    }
  }

  /** One call of the ledger: an answer names an entry of the request's own account, direction and amount if
      and only if the key is new or was recorded for such an entry. The ledger does not compare them. */
  lemma {:induction false} AnswerMovesIff(db: L.Db, cmd: L.PostEntry, ids: L.Ids, now: int, fault: Fault)
    requires LR.Good(db) && L.Post(db, cmd, ids, now, fault).1.Ok?
    ensures var (after, r) := L.Post(db, cmd, ids, now, fault);
            IsEntryFor(after.rows, Origin(cmd), r.value) <==>
            (cmd.key in db.keys ==> IsEntryFor(db.rows, Origin(cmd), db.keys[cmd.key]))
  {
    PostAnswersRecorded(db, cmd, ids, now, fault);
    var after := PostExtends(db, cmd, ids, now, fault);
  }

  /** Replies, over every run: a successful reply names an entry of its own request's account, direction and
      amount if and only if the request whose posting recorded its key asked for the same. */
  lemma {:induction false} ReplyMovedTheRequest(v: int, steps: seq<Step>, i: nat)
    requires i < |Run(v, steps).replies| && Run(v, steps).replies[i].result.Ok?
    ensures var s := Run(v, steps);
            var req, id := s.replies[i].req, s.replies[i].result.value;
            && req.key in s.origins && s.origins[req.key].key == req.key
            && (IsEntryFor(s.ledger.db.rows, req, id) <==> SameMove(s.origins[req.key], req))
  {
    RunKeepsInv(v, steps);
    var s := Run(v, steps);
    assert ReplyOk(s.replies[i], s.ledger.db.keys, s.accounts.rows);
    OneEntryPerId(s.ledger.db.rows, s.origins[s.replies[i].req.key], s.replies[i].req, s.replies[i].result.value);
  }

  /** The direction of a money event. */
  function KindOf(row: A.AccountRow): EntryType {
    if row.data.typ == AD.TypeDeposited then Deposit else Withdrawal
  }

  predicate IsOn(e: L.EntryPosted, a: string, kind: EntryType) {
    e.accountId == a && e.entryType == kind
  }

  ghost predicate EntryOnAccount(rows: seq<L.LedgerRow>, id: string, a: string, kind: EntryType) {
    exists i :: 0 <= i < |rows| && rows[i].data.entryId == id && IsOn(rows[i].data, a, kind)
  }

  lemma {:induction false} OneAccountPerId(rows: seq<L.LedgerRow>, x: Request, id: string, a: string, kind: EntryType)
    requires LR.RowsOk(rows) && IsEntryFor(rows, x, id)
    ensures EntryOnAccount(rows, id, a, kind) <==> x.accountId == a && x.kind == kind
  {
    var i :| 0 <= i < |rows| && rows[i].data.entryId == id && MovesAs(rows[i].data, x);
    if EntryOnAccount(rows, id, a, kind) {
      var j :| 0 <= j < |rows| && rows[j].data.entryId == id && IsOn(rows[j].data, a, kind);
      assert i == j;
    }
  }

  /** Account streams, over every run: a money event carries the entry recorded for some key, and that entry
      is of the event's own account and direction if and only if the request that recorded the key was. */
  lemma {:induction false} EventNamesItsEntry(v: int, steps: seq<Step>, i: nat) returns (key: string)
    requires i < |Run(v, steps).accounts.rows| && IsMoneyRow(Run(v, steps).accounts.rows[i])
    ensures var s := Run(v, steps);
            var row := s.accounts.rows[i];
            && row.data.json.Json? && key in s.ledger.db.keys && key in s.origins
            && s.ledger.db.keys[key] == row.data.json.entryId
            && (EntryOnAccount(s.ledger.db.rows, row.data.json.entryId, row.aggregateId, KindOf(row)) <==>
                s.origins[key].accountId == row.aggregateId && s.origins[key].kind == KindOf(row))
  {
    RunKeepsInv(v, steps);
    var s := Run(v, steps);
    var row := s.accounts.rows[i];
    assert EventOk(row, s.ledger.db.keys);
    key :| key in s.ledger.db.keys && s.ledger.db.keys[key] == row.data.json.entryId;
    OneAccountPerId(s.ledger.db.rows, s.origins[key], row.data.json.entryId, row.aggregateId, KindOf(row));
  }

  /** Any request under a recorded key, a retry or not, leaves the ledger untouched and is answered with the
      recorded entry; what it adds is one more account event that carries that entry's id. */
  lemma {:induction false} RetryIsIdempotentOnLedger(v: int, steps: seq<Step>, f: nat, req: Request,
                                                     lids: L.Ids, aids: A.Ids, now: int)
    requires var s := Run(v, steps);
             && f !in s.flights && Validate(req).None? && req.key in s.ledger.db.keys
             && A.RecordMoney(s.accounts, req.kind, req.accountId, req.amount, s.ledger.db.keys[req.key],
                              aids, now, NoFault).1.Ok?
    ensures var s := Run(v, steps);
            var t := Run(v, steps + [Submit(f, req), LedgerCall(f, lids, now, NoFault),
                                     AccountCall(f, aids, now, NoFault)]);
            && t.ledger == s.ledger
            && t.replies == s.replies + [Reply(req, Ok(s.ledger.db.keys[req.key]))]
            && |t.accounts.rows| == |s.accounts.rows| + 1
            && IsEventFor(t.accounts.rows[|s.accounts.rows|], req, s.ledger.db.keys[req.key])
  {
    var s := Run(v, steps);
    var entry := s.ledger.db.keys[req.key];
    var x, y, z := Submit(f, req), LedgerCall(f, lids, now, NoFault), AccountCall(f, aids, now, NoFault);
    RunThree(v, steps, x, y, z);
    SubmitStarts(v, s, f, req);
    LedgerRepeats(v, s, f, req, lids, now);
    AccountRecords(v, s, f, req, entry, aids, now);
  }

  lemma {:induction false} RunThree(v: int, steps: seq<Step>, x: Step, y: Step, z: Step)
    ensures Run(v, steps + [x, y, z]) == Next(v, Next(v, Next(v, Run(v, steps), x), y), z)
  {
    assert steps + [x, y, z] == steps + [x] + [y] + [z];
    RunSnoc(v, steps, x);
    RunSnoc(v, steps + [x], y);
    RunSnoc(v, steps + [x] + [y], z);
  }

  lemma {:induction false} SubmitStarts(v: int, s: System, f: nat, req: Request)
    requires f !in s.flights && Validate(req).None?
    ensures Next(v, s, Submit(f, req)) == s.(flights := s.flights[f := Flight(req, Started)])
  {
  }

  /** A recorded key is answered from the record. */
  lemma {:induction false} LedgerRepeats(v: int, s: System, f: nat, req: Request, lids: L.Ids, now: int)
    requires f !in s.flights && Validate(req).None? && req.key in s.ledger.db.keys
    ensures Next(v, s.(flights := s.flights[f := Flight(req, Started)]), LedgerCall(f, lids, now, NoFault))
         == s.(flights := s.flights[f := Flight(req, LedgerDone(s.ledger.db.keys[req.key]))])
  {
    assert L.Post(s.ledger.db, Command(req), lids, now, NoFault) == (s.ledger.db, Ok(s.ledger.db.keys[req.key]));
    assert s.flights[f := Flight(req, Started)][f := Flight(req, LedgerDone(s.ledger.db.keys[req.key]))]
        == s.flights[f := Flight(req, LedgerDone(s.ledger.db.keys[req.key]))];
  }

  lemma {:induction false} AccountRecords(v: int, s: System, f: nat, req: Request, entry: string, aids: A.Ids, now: int)
    requires f !in s.flights
    requires A.RecordMoney(s.accounts, req.kind, req.accountId, req.amount, entry, aids, now, NoFault).1.Ok?
    ensures var t := Next(v, s.(flights := s.flights[f := Flight(req, LedgerDone(entry))]),
                          AccountCall(f, aids, now, NoFault));
            && t.ledger == s.ledger && t.replies == s.replies + [Reply(req, Ok(entry))]
            && |t.accounts.rows| == |s.accounts.rows| + 1
            && IsEventFor(t.accounts.rows[|s.accounts.rows|], req, entry)
  {
    RecordOkChanges(s.accounts, req, entry, aids, now, NoFault);
    RecordAppends(s.accounts, req, entry, aids, now, NoFault);
  }

  lemma {:induction false} RunSnoc(v: int, steps: seq<Step>, x: Step)
    ensures Run(v, steps + [x]) == Next(v, Run(v, steps), x)
  {
    assert (steps + [x])[..|steps|] == steps;
  }

  // ----- The handlers -----

  /** Both `Handle` methods: the guards, the ledger's posting, then the account transaction. */
  method Handle(ledger: L.Database, accounts: A.Database, req: Request,
                lids: L.Ids, aids: A.Ids, now: int, ledgerFault: Fault, accountFault: Fault) returns (r: Result<string>)
    modifies ledger, accounts
    ensures Validate(req).Some? ==>
              && r == Err(Validate(req).value)
              && ledger.View() == old(ledger.View()) && accounts.View() == old(accounts.View())
    ensures Validate(req).None? ==>
              var (ldb, posted) := L.Post(old(ledger.View()), Command(req), lids, now, ledgerFault);
              && ledger.View() == ldb
              && (posted.Err? ==> r == posted && accounts.View() == old(accounts.View()))
              && (posted.Ok? ==>
                    (accounts.View(), r) == A.RecordMoney(old(accounts.View()), req.kind, req.accountId, req.amount,
                                                          posted.value, aids, now, accountFault))
  {
    if req.accountId == "" { return Err(AccountIdRequired); }
    if req.key == "" { return Err(IdempotencyKeyRequired); }
    var invalid := ValidateNgnPositive(req.amount);
    if invalid.Some? { return Err(invalid.value); }
    var posted := ledger.Handle(Command(req), lids, now, ledgerFault);
    if posted.Err? { return posted; }
    r := accounts.Record(req.kind, req.accountId, req.amount, posted.value, aids, now, accountFault);
  }
}
