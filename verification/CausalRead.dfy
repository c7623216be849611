/** The balance query that first waits until the log has reached a required sequence number. */
module CausalRead {
  import opened Common
  import opened EventLog
  import opened LedgerService
  import opened LedgerRuns

  /** The states of a run, one per prefix of its steps; state `i` is what a query at time `i` sees. */
  ghost function StateAt(v: int, steps: seq<Step>, i: nat): Db
    requires i <= |steps|
  {
    Run(v, steps[..i]).db
  }

  /** What one poll of the wait loop meets. */
  datatype Poll = Cancelled | TimedOut | QueryFailed | Sees(db: Db)

  /** Which poll ends the wait loop, if it ends well: the first that sees the required sequence, unless
      the context, the timer or a failing query ends the loop before it. */
  function Wait(polls: seq<Poll>, required: nat, i: nat): (r: Option<nat>)
    requires i <= |polls|
    ensures r.Some? ==> i <= r.value < |polls| && polls[r.value].Sees?
                        && required <= LastSequence(polls[r.value].db.rows)
    decreases |polls| - i
  {
    if i == |polls| || !polls[i].Sees? then None
    else if required <= LastSequence(polls[i].db.rows) then Some(i)
    else Wait(polls, required, i + 1)
  }

  /** `GetBalanceKobo`; `readsFrom` is the database as the second query finds it. */
  function Query(required: nat, polls: seq<Poll>, readsFrom: Db, readFails: bool, a: string, pv: int): Result<int64> {
    if (required != 0 && Wait(polls, required, 0).None?) || readFails
    then Err(Database) else Ok(Balance(readsFrom, a, pv))
  }

  /** The polling loop and the read after it. */
  method GetBalanceKobo(required: nat, polls: seq<Poll>, readsFrom: Db, readFails: bool, a: string, pv: int)
    returns (r: Result<int64>)
    ensures r == Query(required, polls, readsFrom, readFails, a, pv)
  {
    if required != 0 {
      var i, ready := 0, false;
      while !ready
        invariant 0 <= i <= |polls|
        invariant if ready then Wait(polls, required, 0).Some? else Wait(polls, required, 0) == Wait(polls, required, i)
        decreases |polls| - i, !ready
      {
        if i == |polls| || !polls[i].Sees? { return Err(Database); }
        var currentLSN := 0;
        if polls[i].db.rows != [] { currentLSN := polls[i].db.rows[|polls[i].db.rows| - 1].sequence; }
        if currentLSN >= required { ready := true; } else { i := i + 1; }
      }
    }
    if readFails { return Err(Database); }
    var k := BalanceKey(a, pv);
    if k !in readsFrom.balances { return Ok(0); }
    return Ok(readsFrom.balances[k]);
  }

  // ----- When a read succeeds -----

  /** Poll `k` finds the required number reached, and every poll before it found it not reached. */
  predicate Reaches(polls: seq<Poll>, required: nat, i: nat, k: nat)
    requires i <= k < |polls|
  {
    && polls[k].Sees? && required <= LastSequence(polls[k].db.rows)
    && forall j :: i <= j < k ==> polls[j].Sees? && LastSequence(polls[j].db.rows) < required
  }

  lemma {:induction false} WaitIff(polls: seq<Poll>, required: nat, i: nat)
    requires i <= |polls|
    ensures Wait(polls, required, i).Some? <==> exists k :: i <= k < |polls| && Reaches(polls, required, i, k)
    decreases |polls| - i
  {
    if i < |polls| && polls[i].Sees? {
      if required <= LastSequence(polls[i].db.rows) {
        assert Reaches(polls, required, i, i);
      } else {
        var next := i + 1;
        WaitIff(polls, required, next);
        if k :| next <= k < |polls| && Reaches(polls, required, next, k) { assert Reaches(polls, required, i, k); }
        if k :| i <= k < |polls| && Reaches(polls, required, i, k) { assert Reaches(polls, required, next, k); }
      }
    }
  }

  /** Every answer of the query: it succeeds exactly if the read does, and either no number is required or a poll
      sees it reached while every poll before saw it not reached; the value is the account's row, or 0. */
  lemma {:induction false} QueryAnswers(required: nat, polls: seq<Poll>, readsFrom: Db, readFails: bool, a: string,
                                        pv: int)
    ensures Query(required, polls, readsFrom, readFails, a, pv).Ok? <==>
            !readFails && (required == 0 || exists k :: 0 <= k < |polls| && Reaches(polls, required, 0, k))
    ensures Query(required, polls, readsFrom, readFails, a, pv).Ok? ==>
              var row := BalanceKey(a, pv);
              Query(required, polls, readsFrom, readFails, a, pv).value ==
                if row in readsFrom.balances then readsFrom.balances[row] else 0
  {
    WaitIff(polls, required, 0);
  }

  // ----- Logs along a run -----

  lemma {:induction false} NextExtends(v: int, s: State, step: Step)
    requires Good(s.db)
    ensures s.db.rows <= Next(v, s, step).db.rows
  {
    if step.PostTx? {
      if Post(s.db, step.cmd, step.ids, step.now, step.fault).0 != s.db {
        var row, m := PostGrows(s.db, step.cmd, step.ids, step.now, step.fault);
      }
    } else {
      WorkerKeepsTables(v, s, step);
    }
  }

  lemma {:induction false} StateAtNext(v: int, steps: seq<Step>, i: nat)
    requires i < |steps|
    ensures StateAt(v, steps, i + 1) == Next(v, Run(v, steps[..i]), steps[i]).db
  {
    assert steps[..i + 1][..i] == steps[..i];
  }

  lemma {:induction false} LogExtendsOnce(v: int, steps: seq<Step>, i: nat)
    requires i < |steps|
    ensures StateAt(v, steps, i).rows <= StateAt(v, steps, i + 1).rows
  {
    RunIsGood(v, steps[..i]);
    NextExtends(v, Run(v, steps[..i]), steps[i]);
    StateAtNext(v, steps, i);
  }

  /** The log at an earlier time is a prefix of the log at a later time. */
  lemma {:induction false} LogExtends(v: int, steps: seq<Step>, i: nat, j: nat)
    requires i <= j <= |steps|
    ensures StateAt(v, steps, i).rows <= StateAt(v, steps, j).rows
    decreases j
  {
    if i < j {
      LogExtends(v, steps, i, j - 1);
      LogExtendsOnce(v, steps, j - 1);
      PrefixOfPrefix(StateAt(v, steps, i).rows, StateAt(v, steps, j - 1).rows, StateAt(v, steps, j).rows);
    }
  }

  lemma {:induction false} PrefixOfPrefix<D>(x: seq<Row<D>>, y: seq<Row<D>>, z: seq<Row<D>>)
    requires x <= y <= z
    ensures x <= z
  {
  }

  /** Once the log has reached a sequence number, nothing at or below it is ever added. */
  lemma {:induction false} NothingBelow<D>(early: seq<Row<D>>, late: seq<Row<D>>, lsn: nat, i: nat)
    requires early <= late && Ascending(late) && lsn <= LastSequence(early) && i < |late|
    requires late[i].sequence <= lsn && 0 < lsn
    ensures i < |early| && late[i] == early[i]
  {
    var last := |early| - 1;
    assert early[last] == late[last];
  }

  /** The polls saw the database at times of the run no later than the read. */
  ghost predicate SawRun(v: int, steps: seq<Step>, polls: seq<Poll>, times: seq<nat>, read: nat)
    requires read <= |steps|
  {
    && |times| == |polls|
    && forall k :: 0 <= k < |polls| && polls[k].Sees? ==> times[k] <= read && polls[k].db == StateAt(v, steps, times[k])
  }

  /** `log` holds, in place, every event of `late` whose sequence number is at most `lsn`. */
  ghost predicate HoldsUpTo(log: seq<LedgerRow>, late: seq<LedgerRow>, lsn: nat) {
    forall i :: 0 <= i < |late| && late[i].sequence <= lsn ==> i < |log| && log[i] == late[i]
  }

  lemma {:induction false} HoldsAll(early: seq<LedgerRow>, at: seq<LedgerRow>, late: seq<LedgerRow>, lsn: nat)
    requires early <= at <= late && Ascending(late) && 0 < lsn <= LastSequence(early)
    ensures HoldsUpTo(at, late, lsn)
  {
    forall i | 0 <= i < |late| && late[i].sequence <= lsn
      ensures i < |at| && at[i] == late[i]
    {
      NothingBelow(early, late, lsn, i);
    }
  }

  /** Causal read. The polls see the database at some times of a run and the balance is read at a later
      time. Any balance returned, under a required sequence number or none, is the signed sum of the
      committed log at the read (and what the worker replayed, if it shares the row), and that log already
      holds every event numbered up to the required one that the run ever commits. */
  lemma {:induction false} CausalRead(v: int, steps: seq<Step>, a: string, required: nat, polls: seq<Poll>,
                                      times: seq<nat>, read: nat, readFails: bool, later: nat)
    requires read <= later <= |steps| && SawRun(v, steps, polls, times, read)
    requires Query(required, polls, StateAt(v, steps, read), readFails, a, SERVED).Ok?
    ensures var log := StateAt(v, steps, read).rows;
            && Query(required, polls, StateAt(v, steps, read), readFails, a, SERVED).value
               == EntrySum(log, a) + (if v == SERVED then EntrySum(Run(v, steps[..read]).replayed, a) else 0)
            && HoldsUpTo(log, StateAt(v, steps, later).rows, required)
  {
    var at, late := StateAt(v, steps, read), StateAt(v, steps, later);
    ServedBalanceExplained(v, steps[..read], a);
    RunIsGood(v, steps[..later]);
    LogExtends(v, steps, read, later);
    if required > 0 {
      var seen := times[Wait(polls, required, 0).value];
      LogExtends(v, steps, seen, read);
      HoldsAll(StateAt(v, steps, seen).rows, at.rows, late.rows, required);
    }
  }
}
