/** The ledger's projection worker: its batches as single additions, what it leaves when it has caught up, and
    what happens when it shares the served row. */
module LedgerWorker {
  import opened Common
  import opened EventLog
  import opened LedgerService
  import opened LedgerRuns

  // ----- Runs that continue -----

  function RunFrom(v: int, s: State, steps: seq<Step>): State {
    if steps == [] then s else Next(v, RunFrom(v, s, steps[..|steps| - 1]), steps[|steps| - 1])
  }

  lemma {:induction false} RunConcat(v: int, xs: seq<Step>, ys: seq<Step>)
    ensures Run(v, xs + ys) == RunFrom(v, Run(v, xs), ys)
  {
    if ys == [] {
      assert xs + ys == xs;
    } else {
      assert (xs + ys)[..|xs + ys| - 1] == xs + ys[..|ys| - 1];
      RunConcat(v, xs, ys[..|ys| - 1]);
    }
  }

  lemma {:induction false} RunFromSnoc(v: int, s: State, steps: seq<Step>, step: Step)
    ensures RunFrom(v, s, steps + [step]) == Next(v, RunFrom(v, s, steps), step)
  {
    assert (steps + [step])[..|steps|] == steps;
  }

  // ----- One undisturbed tick -----

  function Additions(n: nat): seq<Step> {
    if n == 0 then [] else Additions(n - 1) + [ApplyNext]
  }

  /** What a batch of `n` additions and its end are made of. */
  function TickSteps(limit: int, n: nat, failed: bool): seq<Step> {
    [ReadBatch(limit)] + Additions(n) + [if failed then Abort else Finish]
  }

  /** The balances after the first `i` additions of a batch that goes well so far. */
  ghost predicate Reaches(balances: map<BalanceKey, int64>, batch: seq<LedgerRow>, v: int, failAt: nat, i: nat,
                          after: map<BalanceKey, int64>)
    requires i <= |batch|
  {
    && i <= failAt
    && var r, rest := ApplyBatch(balances, batch, v, failAt), ApplyBatch(after, batch[i..], v, failAt - i);
       r == rest.(applied := rest.applied + i)
  }

  lemma {:induction false} ReachesStart(balances: map<BalanceKey, int64>, batch: seq<LedgerRow>, v: int, failAt: nat)
    ensures Reaches(balances, batch, v, failAt, 0, balances)
  {
    assert batch[0..] == batch;
  }

  lemma {:induction false} ReachesNext(balances: map<BalanceKey, int64>, batch: seq<LedgerRow>, v: int, failAt: nat,
                                       i: nat, after: map<BalanceKey, int64>)
    requires i < |batch| && Reaches(balances, batch, v, failAt, i, after)
    requires i < ApplyBatch(balances, batch, v, failAt).applied
    ensures var sums := ApplyDelta(after, BalanceKey(batch[i].data.accountId, v), Delta(batch[i].data));
            sums.Some? && Reaches(balances, batch, v, failAt, i + 1, sums.value)
  {
    assert batch[i..][0] == batch[i] && batch[i..][1..] == batch[i + 1..];
  }

  /** A state inside the batch, `i` rows added. */
  function Within(s: State, batch: seq<LedgerRow>, i: nat, balances: map<BalanceKey, int64>): State
    requires i <= |batch|
  {
    State(s.db.(balances := balances), s.cursor, Busy(batch, i), s.replayed + batch[..i])
  }

  lemma {:induction false} AddOne(v: int, s: State, batch: seq<LedgerRow>, i: nat, balances: map<BalanceKey, int64>)
    requires i < |batch| && ApplyDelta(balances, BalanceKey(batch[i].data.accountId, v), Delta(batch[i].data)).Some?
    ensures Next(v, Within(s, batch, i, balances), ApplyNext)
         == Within(s, batch, i + 1,
                   ApplyDelta(balances, BalanceKey(batch[i].data.accountId, v), Delta(batch[i].data)).value)
  {
    assert s.replayed + batch[..i + 1] == s.replayed + batch[..i] + [batch[i]];
  }

  /** The balances after `i` additions. */
  function Sums(balances: map<BalanceKey, int64>, batch: seq<LedgerRow>, v: int, i: nat): map<BalanceKey, int64>
    requires i <= |batch|
  {
    if i == 0 then balances
    else
      var before := Sums(balances, batch, v, i - 1);
      match ApplyDelta(before, BalanceKey(batch[i - 1].data.accountId, v), Delta(batch[i - 1].data))
      case None => before
      case Some(after) => after
  }

  lemma {:induction false} SumsReach(balances: map<BalanceKey, int64>, batch: seq<LedgerRow>, v: int, failAt: nat,
                                     i: nat)
    requires i <= ApplyBatch(balances, batch, v, failAt).applied
    ensures Reaches(balances, batch, v, failAt, i, Sums(balances, batch, v, i))
  {
    if i == 0 {
      ReachesStart(balances, batch, v, failAt);
    } else {
      SumsReach(balances, batch, v, failAt, i - 1);
      ReachesNext(balances, batch, v, failAt, i - 1, Sums(balances, batch, v, i - 1));
    }
  }

  lemma {:induction false} AddsNext(balances: map<BalanceKey, int64>, batch: seq<LedgerRow>, v: int, failAt: nat,
                                    i: nat)
    requires i < ApplyBatch(balances, batch, v, failAt).applied
    ensures ApplyDelta(Sums(balances, batch, v, i), BalanceKey(batch[i].data.accountId, v), Delta(batch[i].data))
         == Some(Sums(balances, batch, v, i + 1))
  {
    SumsReach(balances, batch, v, failAt, i);
    ReachesNext(balances, batch, v, failAt, i, Sums(balances, batch, v, i));
  }

  lemma {:induction false} AdditionsRun(v: int, s: State, start: State, batch: seq<LedgerRow>, failAt: nat, i: nat)
    requires i <= ApplyBatch(s.db.balances, batch, v, failAt).applied && start == Within(s, batch, 0, s.db.balances)
    ensures RunFrom(v, start, Additions(i)) == Within(s, batch, i, Sums(s.db.balances, batch, v, i))
  {
    if i > 0 {
      AdditionsRun(v, s, start, batch, failAt, i - 1);
      AddsNext(s.db.balances, batch, v, failAt, i - 1);
      AddOne(v, s, batch, i - 1, Sums(s.db.balances, batch, v, i - 1));
      RunFromSnoc(v, start, Additions(i - 1), ApplyNext);
    }
  }

  /** `processNextBatch`, when no posting falls between its additions, is one run of single steps. */
  lemma {:induction false} TickIsSteps(v: int, s: State, limit: int, failAt: nat)
    requires s.phase.Idle? && Batch(s.db, s.cursor, limit) != []
    ensures var batch := Batch(s.db, s.cursor, limit);
            var r := ApplyBatch(s.db.balances, batch, v, failAt);
            var (db, cursor) := WorkerTick(s.db, s.cursor, limit, v, failAt);
            RunFrom(v, s, TickSteps(limit, r.applied, r.failed))
            == State(db, cursor, Idle, s.replayed + batch[..r.applied])
  {
    var batch := Batch(s.db, s.cursor, limit);
    var r := ApplyBatch(s.db.balances, batch, v, failAt);
    var begin, last := [ReadBatch(limit)], if r.failed then Abort else Finish;
    assert begin[..0] == [] && s.replayed + batch[..0] == s.replayed;
    assert RunFrom(v, s, begin) == Within(s, batch, 0, s.db.balances);
    AdditionsRun(v, s, Within(s, batch, 0, s.db.balances), batch, failAt, r.applied);
    SumsReach(s.db.balances, batch, v, failAt, r.applied);
    RunFromConcat(v, s, begin, Additions(r.applied));
    RunFromSnoc(v, s, begin + Additions(r.applied), last);
    EndOfBatch(s.db.balances, batch, v, failAt, Sums(s.db.balances, batch, v, r.applied));
    LastStep(v, s, batch, r.applied, r.balances, last);
  }

  lemma {:induction false} LastStep(v: int, s: State, batch: seq<LedgerRow>, n: nat, balances: map<BalanceKey, int64>,
                                    last: Step)
    requires batch != [] && n <= |batch|
    requires (last == Abort && n < |batch|) || (last == Finish && n == |batch|)
    ensures Next(v, Within(s, batch, n, balances), last)
         == State(s.db.(balances := balances), if last == Finish then LastSequence(batch) else s.cursor,
                 Idle, s.replayed + batch[..n])
  {
  }

  lemma {:induction false} EndOfBatch(balances: map<BalanceKey, int64>, batch: seq<LedgerRow>, v: int, failAt: nat,
                                      after: map<BalanceKey, int64>)
    requires var r := ApplyBatch(balances, batch, v, failAt); Reaches(balances, batch, v, failAt, r.applied, after)
    ensures var r := ApplyBatch(balances, batch, v, failAt);
            after == r.balances && (r.failed ==> r.applied < |batch|) && (!r.failed ==> r.applied == |batch|)
  {
    var n := ApplyBatch(balances, batch, v, failAt).applied;
    NothingApplied(after, batch[n..], v, failAt - n);
  }

  lemma {:induction false} NothingApplied(balances: map<BalanceKey, int64>, batch: seq<LedgerRow>, v: int, failAt: nat)
    requires ApplyBatch(balances, batch, v, failAt).applied == 0
    ensures ApplyBatch(balances, batch, v, failAt).balances == balances
    ensures ApplyBatch(balances, batch, v, failAt).failed <==> batch != []
  {
  }

  lemma {:induction false} RunFromConcat(v: int, s: State, xs: seq<Step>, ys: seq<Step>)
    ensures RunFrom(v, s, xs + ys) == RunFrom(v, RunFrom(v, s, xs), ys)
  {
    if ys == [] {
      assert xs + ys == xs;
    } else {
      assert (xs + ys)[..|xs + ys| - 1] == xs + ys[..|ys| - 1];
      RunFromConcat(v, s, xs, ys[..|ys| - 1]);
    }
  }

  // ----- How often the worker adds an entry -----

  /** How many rows of the log the worker has dealt with since it last fell back. */
  function Position(s: State): nat {
    Passed(s.db.rows, s.cursor) + if s.phase.Busy? then s.phase.next else 0
  }

  /** How often the worker has fallen back behind row `i` after adding it: by a failure in the batch of that
      row, or by a restart. */
  function FellBehind(v: int, steps: seq<Step>, i: nat): nat {
    if steps == [] then 0
    else
      var front := steps[..|steps| - 1];
      FellBehind(v, front, i) + if Position(Run(v, steps)) <= i < Position(Run(v, front)) then 1 else 0
  }

  /** How often it has added row `i`. */
  function Times(v: int, steps: seq<Step>, i: nat): nat {
    FellBehind(v, steps, i) + if i < Position(Run(v, steps)) then 1 else 0
  }

  ghost predicate BatchInLog(rows: seq<LedgerRow>, cursor: nat, phase: Phase) {
    phase.Busy? ==>
      var p := Passed(rows, cursor);
      && phase.batch != [] && phase.next <= |phase.batch| && p + |phase.batch| <= |rows|
      && forall i :: 0 <= i < |phase.batch| ==> phase.batch[i] == rows[p + i]
  }

  ghost predicate InLog(s: State) {
    s.cursor <= LastSequence(s.db.rows) && BatchInLog(s.db.rows, s.cursor, s.phase)
  }

  // What one step can be: a posting, an addition, or anything else, which may make the worker fall back.

  ghost predicate Grows(s: State, t: State) {
    && |t.db.rows| == |s.db.rows| + 1 && s.db.rows <= t.db.rows
    && Position(t) == Position(s) && t.replayed == s.replayed
  }

  ghost predicate AddsRow(s: State, t: State) {
    && t.db.rows == s.db.rows && Position(s) < |s.db.rows| && Position(t) == Position(s) + 1
    && t.replayed == s.replayed + [s.db.rows[Position(s)]]
  }

  ghost predicate AddsNothing(s: State, t: State) {
    t.db.rows == s.db.rows && t.replayed == s.replayed && Position(t) <= Position(s)
  }

  ghost predicate Moves(s: State, t: State) {
    InLog(t) && (Grows(s, t) || AddsRow(s, t) || AddsNothing(s, t))
  }

  lemma {:induction false} PostMoves(v: int, s: State, cmd: PostEntry, ids: Ids, now: int, fault: Fault)
    requires Good(s.db) && InLog(s)
    ensures Moves(s, Next(v, s, PostTx(cmd, ids, now, fault)))
  {
    var after := Post(s.db, cmd, ids, now, fault).0;
    if after != s.db {
      var row, m := PostGrows(s.db, cmd, ids, now, fault);
      RowGrows(s, row, after);
    }
  }

  lemma {:induction false} RowGrows(s: State, row: LedgerRow, after: Db)
    requires Ascending(s.db.rows) && InLog(s) && after.rows == s.db.rows + [row]
    requires LastSequence(s.db.rows) < row.sequence
    ensures Moves(s, s.(db := after))
  {
    AscendingAppend(s.db.rows, row);
    PassedAppend(s.db.rows, row, s.cursor);
  }

  lemma {:induction false} ApplyMoves(v: int, s: State)
    requires InLog(s)
    ensures Moves(s, Next(v, s, ApplyNext))
  {
    if s.phase.Busy? && s.phase.next < |s.phase.batch| {
      assert s.phase.batch[s.phase.next] == s.db.rows[Position(s)];
    }
  }

  lemma {:induction false} FinishMoves(v: int, s: State)
    requires Ascending(s.db.rows) && InLog(s)
    ensures Moves(s, Next(v, s, Finish))
  {
    if s.phase.Busy? && s.phase.next == |s.phase.batch| {
      var last := Position(s) - 1;
      assert s.phase.batch[|s.phase.batch| - 1] == s.db.rows[last];
      PassedAtRow(s.db.rows, last);
    }
  }

  lemma {:induction false} RestartMoves(v: int, s: State)
    requires Ascending(s.db.rows) && InLog(s)
    ensures Moves(s, Next(v, s, Restart))
  {
    PassedSplits(s.db.rows, 0);
    assert Passed(s.db.rows, 0) == 0;
  }

  lemma {:induction false} ReadMoves(v: int, s: State, limit: int)
    requires InLog(s)
    ensures Moves(s, Next(v, s, ReadBatch(limit)))
  {
  }

  lemma {:induction false} AbortMoves(v: int, s: State)
    requires InLog(s)
    ensures Moves(s, Next(v, s, Abort))
  {
  }

  lemma {:induction false} StepMoves(v: int, s: State, step: Step)
    requires Good(s.db) && InLog(s)
    ensures Moves(s, Next(v, s, step))
  {
    match step
    case PostTx(cmd, ids, now, fault) => PostMoves(v, s, cmd, ids, now, fault);
    case ReadBatch(limit) => ReadMoves(v, s, limit);
    case ApplyNext => ApplyMoves(v, s);
    case Abort => AbortMoves(v, s);
    case Finish => FinishMoves(v, s);
    case Restart => RestartMoves(v, s);
  }

  lemma {:induction false} RunInLog(v: int, steps: seq<Step>)
    ensures Good(Run(v, steps).db) && InLog(Run(v, steps)) && Position(Run(v, steps)) <= |Run(v, steps).db.rows|
    ensures steps != [] ==> Moves(Run(v, steps[..|steps| - 1]), Run(v, steps))
  {
    RunIsGood(v, steps);
    if steps != [] {
      RunInLog(v, steps[..|steps| - 1]);
      StepMoves(v, Run(v, steps[..|steps| - 1]), steps[|steps| - 1]);
    }
  }

  lemma {:induction false} PositionInLog(v: int, steps: seq<Step>)
    ensures Position(Run(v, steps)) <= |Run(v, steps).db.rows|
  {
    RunInLog(v, steps);
  }

  lemma {:induction false} LogGrows(v: int, steps: seq<Step>)
    requires steps != []
    ensures |Run(v, steps[..|steps| - 1]).db.rows| <= |Run(v, steps).db.rows|
  {
    RunInLog(v, steps);
  }

  /** A row that is not there yet has not been added. */
  lemma {:induction false} NeverBehindNew(v: int, steps: seq<Step>, i: nat)
    requires |Run(v, steps).db.rows| <= i
    ensures FellBehind(v, steps, i) == 0 && Times(v, steps, i) == 0
  {
    PositionInLog(v, steps);
    if steps != [] {
      PositionInLog(v, steps[..|steps| - 1]);
      LogGrows(v, steps);
      NeverBehindNew(v, steps[..|steps| - 1], i);
    }
  }

  /** Only an addition changes how often a row was added, and only for the row added. */
  lemma {:induction false} TimesStep(v: int, steps: seq<Step>, i: nat)
    requires steps != [] && Moves(Run(v, steps[..|steps| - 1]), Run(v, steps))
    ensures var s, t := Run(v, steps[..|steps| - 1]), Run(v, steps);
            Times(v, steps, i) == Times(v, steps[..|steps| - 1], i) + if i == Position(s) < Position(t) then 1 else 0
  {
  }

  /** In every run, with failures, restarts and postings anywhere, the worker has added each row of the log
      exactly as often as it has passed it: once for every time that it fell back behind it, and once more if it
      is past it now. */
  lemma {:induction false} AddedTimes(v: int, steps: seq<Step>, i: nat)
    requires i < |Run(v, steps).db.rows|
    ensures var s := Run(v, steps); multiset(s.replayed)[s.db.rows[i]] == Times(v, steps, i)
  {
    if steps != [] {
      var front := steps[..|steps| - 1];
      var s, t := Run(v, front), Run(v, steps);
      RunInLog(v, steps);
      TimesStep(v, steps, i);
      AddsOne(s, t, i);
      if i < |s.db.rows| {
        AddedTimes(v, front, i);
      } else {
        NeverBehindNew(v, front, i);
        NeverAddedNew(v, front, t.db.rows[i]);
      }
    }
  }

  lemma {:induction false} AddsOne(s: State, t: State, i: nat)
    requires RowsOk(t.db.rows) && Moves(s, t) && i < |t.db.rows|
    ensures multiset(t.replayed)[t.db.rows[i]] ==
            multiset(s.replayed)[t.db.rows[i]] + if i == Position(s) < Position(t) then 1 else 0
    ensures i < |s.db.rows| ==> t.db.rows[i] == s.db.rows[i]
    ensures i >= |s.db.rows| ==> !IsEntry(s.db.rows, t.db.rows[i].data.entryId) && !(i == Position(s) < Position(t))
  {
    if AddsRow(s, t) {
      var k := Position(s);
      assert k != i ==> t.db.rows[k].data.entryId != t.db.rows[i].data.entryId;
    }
  }

  lemma {:induction false} EntryStays(s: State, t: State, id: string)
    requires Moves(s, t) && IsEntry(s.db.rows, id)
    ensures IsEntry(t.db.rows, id)
  {
    var i :| 0 <= i < |s.db.rows| && s.db.rows[i].data.entryId == id;
    assert t.db.rows[i] == s.db.rows[i];
  }

  /** The worker adds rows of the log only. */
  lemma {:induction false} AddedIsEntry(v: int, steps: seq<Step>, k: nat)
    requires k < |Run(v, steps).replayed|
    ensures IsEntry(Run(v, steps).db.rows, Run(v, steps).replayed[k].data.entryId)
  {
    if steps != [] {
      var s, t := Run(v, steps[..|steps| - 1]), Run(v, steps);
      RunInLog(v, steps);
      if k < |s.replayed| {
        AddedIsEntry(v, steps[..|steps| - 1], k);
        EntryStays(s, t, s.replayed[k].data.entryId);
      } else {
        assert t.replayed[k] == t.db.rows[Position(s)];
      }
    }
  }

  lemma {:induction false} NeverAddedNew(v: int, steps: seq<Step>, row: LedgerRow)
    requires !IsEntry(Run(v, steps).db.rows, row.data.entryId)
    ensures row !in Run(v, steps).replayed
  {
    var added := Run(v, steps).replayed;
    forall k | 0 <= k < |added| ensures added[k] != row {
      AddedIsEntry(v, steps, k);
    }
  }

  // ----- The same for balances -----

  function Own(row: LedgerRow, a: string): int {
    if row.data.accountId == a then Delta(row.data) else 0
  }

  /** The signed sum of the first `n` entries, each counted as often as `times` says. */
  function Weighted(rows: seq<LedgerRow>, times: seq<nat>, n: nat, a: string): int
    requires n <= |rows| && n <= |times|
  {
    if n == 0 then 0 else Weighted(rows, times, n - 1, a) + times[n - 1] * Own(rows[n - 1], a)
  }

  lemma {:induction false} Distributes(k: nat, x: int, y: int)
    ensures k * (x + y) == k * x + k * y
    ensures (k + 1) * x == k * x + x
  {
  }

  lemma {:induction false} WeightedPrefix(rows: seq<LedgerRow>, times: seq<nat>, more: seq<LedgerRow>, again: seq<nat>,
                                          n: nat, a: string)
    requires n <= |rows| && n <= |times| && rows <= more && n <= |again|
    requires forall i :: 0 <= i < n ==> again[i] == times[i]
    ensures Weighted(more, again, n, a) == Weighted(rows, times, n, a)
  {
    if n > 0 { WeightedPrefix(rows, times, more, again, n - 1, a); }
  }

  /** Counting row `k` once more. */
  lemma {:induction false} WeightedOnce(rows: seq<LedgerRow>, times: seq<nat>, again: seq<nat>, k: nat, n: nat,
                                        a: string)
    requires n <= |rows| && n <= |times| && n <= |again| && k < |rows|
    requires forall i :: 0 <= i < n ==> again[i] == times[i] + if i == k then 1 else 0
    ensures Weighted(rows, again, n, a) == Weighted(rows, times, n, a) + if k < n then Own(rows[k], a) else 0
  {
    if n > 0 {
      WeightedOnce(rows, times, again, k, n - 1, a);
      Distributes(times[n - 1], Own(rows[n - 1], a), 0);
    }
  }

  /** Counting every row `k` times. */
  lemma {:induction false} WeightedEvenly(rows: seq<LedgerRow>, times: seq<nat>, k: nat, n: nat, a: string)
    requires n <= |rows| && n <= |times| && forall i :: 0 <= i < n ==> times[i] == k
    ensures Weighted(rows, times, n, a) == k * EntrySum(rows[..n], a)
  {
    if n > 0 {
      WeightedEvenly(rows, times, k, n - 1, a);
      assert rows[..n] == rows[..n - 1] + [rows[n - 1]];
      EntrySumAppend(rows[..n - 1], rows[n - 1], a);
      Distributes(k, EntrySum(rows[..n - 1], a), Own(rows[n - 1], a));
    } else {
      assert rows[..n] == [];
    }
  }


  /** How often each row of the log has been added. */
  function AllTimes(v: int, steps: seq<Step>): (times: seq<nat>)
    ensures |times| == |Run(v, steps).db.rows|
    ensures forall i :: 0 <= i < |times| ==> times[i] == Times(v, steps, i)
  {
    seq(|Run(v, steps).db.rows|, i requires 0 <= i => Times(v, steps, i))
  }

  /** What one step makes of them. */
  ghost predicate TimesMove(s: State, t: State, times: seq<nat>, again: seq<nat>) {
    && |times| == |s.db.rows| && |again| == |t.db.rows| && |times| <= |again|
    && (forall i :: 0 <= i < |times| ==> again[i] == times[i] + if i == Position(s) < Position(t) then 1 else 0)
    && (forall i :: |times| <= i < |again| ==> again[i] == 0)
  }

  lemma {:induction false} AllTimesStep(v: int, steps: seq<Step>)
    requires steps != [] && Moves(Run(v, steps[..|steps| - 1]), Run(v, steps))
    ensures var front := steps[..|steps| - 1];
            TimesMove(Run(v, front), Run(v, steps), AllTimes(v, front), AllTimes(v, steps))
  {
    var front := steps[..|steps| - 1];
    var s, t := Run(v, front), Run(v, steps);
    forall i | 0 <= i < |t.db.rows|
      ensures Times(v, steps, i) == Times(v, front, i) + if i == Position(s) < Position(t) then 1 else 0
      ensures i >= |s.db.rows| ==> Times(v, steps, i) == 0
    {
      TimesStep(v, steps, i);
      if i >= |s.db.rows| { NeverBehindNew(v, front, i); }
    }
  }

  /** What the worker has added on an account is the sum of its entries, each as often as it was added. */
  lemma {:induction false} AddedSum(v: int, steps: seq<Step>, a: string)
    ensures var s := Run(v, steps);
            EntrySum(s.replayed, a) == Weighted(s.db.rows, AllTimes(v, steps), |s.db.rows|, a)
  {
    if steps != [] {
      var front := steps[..|steps| - 1];
      AddedSum(v, front, a);
      RunInLog(v, steps);
      AllTimesStep(v, steps);
      AddedSumStep(Run(v, front), Run(v, steps), AllTimes(v, front), AllTimes(v, steps), a);
    }
  }

  lemma {:induction false} AddedSumStep(s: State, t: State, times: seq<nat>, again: seq<nat>, a: string)
    requires Moves(s, t) && TimesMove(s, t, times, again)
    requires EntrySum(s.replayed, a) == Weighted(s.db.rows, times, |s.db.rows|, a)
    ensures EntrySum(t.replayed, a) == Weighted(t.db.rows, again, |t.db.rows|, a)
  {
    if AddsRow(s, t) {
      WeightedOnce(s.db.rows, times, again, Position(s), |times|, a);
      EntrySumAppend(s.replayed, s.db.rows[Position(s)], a);
    } else {
      WeightedPrefix(s.db.rows, times, t.db.rows, again, |times|, a);
    }
  }

  /** What a worker that has caught up leaves behind, after any failures, restarts and postings between any of
      its additions: every entry counts once on its row, and once more for every time that the worker fell back
      behind it; on the served row, where the posting has put it already, once more again. */
  lemma {:induction false} CaughtUpWorker(v: int, steps: seq<Step>, a: string) returns (times: seq<nat>)
    requires Position(Run(v, steps)) == |Run(v, steps).db.rows|
    ensures |times| == |Run(v, steps).db.rows|
    ensures forall i :: 0 <= i < |times| ==> times[i] == FellBehind(v, steps, i) + if v == SERVED then 2 else 1
    ensures var db := Run(v, steps).db;
            && Balance(db, a, v) == Weighted(db.rows, times, |db.rows|, a)
            && (v != SERVED ==> Balance(db, a, SERVED) == EntrySum(db.rows, a))
  {
    var rows := Run(v, steps).db.rows;
    ServedBalanceExplained(v, steps, a);
    AddedSum(v, steps, a);
    var added := AllTimes(v, steps);
    times := seq(|rows|, i requires 0 <= i < |rows| => added[i] + if v == SERVED then 1 else 0);
    if v == SERVED {
      WeightedMore(rows, added, times, |rows|, a);
      assert rows[..|rows|] == rows;
    } else {
      assert times == added;
    }
  }

  lemma {:induction false} WeightedMore(rows: seq<LedgerRow>, times: seq<nat>, again: seq<nat>, n: nat, a: string)
    requires n <= |rows| && n <= |times| && n <= |again| && forall i :: 0 <= i < n ==> again[i] == times[i] + 1
    ensures Weighted(rows, again, n, a) == Weighted(rows, times, n, a) + EntrySum(rows[..n], a)
  {
    if n > 0 {
      WeightedMore(rows, times, again, n - 1, a);
      assert rows[..n] == rows[..n - 1] + [rows[n - 1]];
      EntrySumAppend(rows[..n - 1], rows[n - 1], a);
      Distributes(times[n - 1], Own(rows[n - 1], a), 0);
    } else {
      assert rows[..n] == [];
    }
  }

  /** So a worker that has caught up and fell back behind every entry `k` times, as `k` restarts at the end of
      the log make it do, multiplies the log's sum: by `k + 1` on a row of its own, by `k + 2` on the served
      row. With `k` zero its own row equals the served one, and a shared row is the doubled sum. */
  lemma {:induction false} FellBackEvenly(v: int, steps: seq<Step>, k: nat, a: string)
    requires Position(Run(v, steps)) == |Run(v, steps).db.rows|
    requires forall i :: 0 <= i < |Run(v, steps).db.rows| ==> FellBehind(v, steps, i) == k
    ensures var db := Run(v, steps).db;
            Balance(db, a, v) == (k + if v == SERVED then 2 else 1) * EntrySum(db.rows, a)
  {
    var rows := Run(v, steps).db.rows;
    var times := CaughtUpWorker(v, steps, a);
    WeightedEvenly(rows, times, k + if v == SERVED then 2 else 1, |rows|, a);
    assert rows[..|rows|] == rows;
  }

  // ----- The worker on the served row -----

  /** Idle, with nothing left to read. */
  predicate CaughtUp(s: State) {
    s.phase.Idle? && Passed(s.db.rows, s.cursor) == |s.db.rows|
  }

  function PostAndTick(cmd: PostEntry, ids: Ids, now: int): seq<Step> {
    [PostTx(cmd, ids, now, NoFault), ReadBatch(1), ApplyNext, Finish]
  }

  lemma {:induction false} ReadOne(v: int, s: State, row: LedgerRow)
    requires s.phase.Idle? && s.db.rows != [] && Passed(s.db.rows, s.cursor) == |s.db.rows| - 1
    requires row == s.db.rows[|s.db.rows| - 1]
    ensures Next(v, s, ReadBatch(1)) == s.(phase := Busy([row], 0))
  {
    assert s.db.rows[|s.db.rows| - 1..] == [row];
    assert Batch(s.db, s.cursor, 1) == [row];
  }

  lemma {:induction false} RunTwo(v: int, s: State, a: Step, b: Step)
    ensures RunFrom(v, s, [a, b]) == Next(v, Next(v, s, a), b)
  {
    RunFromSnoc(v, s, [], a);
    RunFromSnoc(v, s, [a], b);
    assert [] + [a] == [a] && [a] + [b] == [a, b];
  }

  lemma {:induction false} RunFour(v: int, s: State, a: Step, b: Step, c: Step, d: Step)
    ensures RunFrom(v, s, [a, b, c, d]) == Next(v, Next(v, Next(v, Next(v, s, a), b), c), d)
  {
    assert [a, b] + [c, d] == [a, b, c, d];
    RunFromConcat(v, s, [a, b], [c, d]);
    RunTwo(v, s, a, b);
    RunTwo(v, RunFrom(v, s, [a, b]), c, d);
  }

  /** The tick that picks up one posted row. */
  lemma {:induction false} TickAfterPost(s: State, row: LedgerRow)
    requires Ascending(s.db.rows) && s.phase.Idle? && s.db.rows != []
    requires Passed(s.db.rows, s.cursor) == |s.db.rows| - 1 && row == s.db.rows[|s.db.rows| - 1]
    requires IsInt64(At(s.db.balances, BalanceKey(row.data.accountId, SERVED)) + Delta(row.data))
    ensures var t := Next(SERVED, Next(SERVED, Next(SERVED, s, ReadBatch(1)), ApplyNext), Finish);
            && t.db == s.db.(balances := t.db.balances) && CaughtUp(t) && t.cursor == row.sequence
            && Some(t.db.balances) == ApplyDelta(s.db.balances, BalanceKey(row.data.accountId, SERVED), Delta(row.data))
  {
    ReadOne(SERVED, s, row);
    PassedAtRow(s.db.rows, |s.db.rows| - 1);
  }

  /** From any reachable state in which a worker on the served row has caught up: every posting that commits
      counts once in the log, and twice in the row as soon as the worker has picked it up. */
  lemma {:induction false} EveryPostingDoubles(steps: seq<Step>, cmd: PostEntry, ids: Ids, now: int)
    returns (row: LedgerRow, m: Message)
    requires var s := Run(SERVED, steps);
             && CaughtUp(s) && s.cursor <= LastSequence(s.db.rows) && Post(s.db, cmd, ids, now, NoFault).0 != s.db
             && IsInt64(Balance(s.db, cmd.accountId, SERVED) + 2 * Delta(EntryOf(cmd, ids.entryId, now)))
    ensures row.data == EntryOf(cmd, ids.entryId, now) && row.id == ids.eventId && m.id == ids.messageId
    ensures var s, t := Run(SERVED, steps), Run(SERVED, steps + PostAndTick(cmd, ids, now));
            && Balance(t.db, cmd.accountId, SERVED) == Balance(s.db, cmd.accountId, SERVED) + 2 * Delta(row.data)
            && t.db.rows == s.db.rows + [row] && CaughtUp(t) && t.cursor <= LastSequence(t.db.rows)
            && t.db.keys == s.db.keys[cmd.key := ids.entryId] && t.db.outbox == s.db.outbox + [m]
            && EntrySum(t.db.rows, cmd.accountId) == EntrySum(s.db.rows, cmd.accountId) + Delta(row.data)
  {
    var s := Run(SERVED, steps);
    RunIsGood(SERVED, steps);
    row, m := PostGrows(s.db, cmd, ids, now, NoFault);
    var posted := s.(db := Post(s.db, cmd, ids, now, NoFault).0);
    PostGrowsTick(s, posted, cmd, row, m);
    RunConcat(SERVED, steps, PostAndTick(cmd, ids, now));
    RunFour(SERVED, s, PostTx(cmd, ids, now, NoFault), ReadBatch(1), ApplyNext, Finish);
    EntrySumAppend(s.db.rows, row, cmd.accountId);
  }

  lemma {:induction false} PostGrowsTick(s: State, posted: State, cmd: PostEntry, row: LedgerRow, m: Message)
    requires RowsOk(s.db.rows) && CaughtUp(s) && s.cursor <= LastSequence(s.db.rows)
    requires posted == s.(db := posted.db) && Grew(s.db, posted.db, cmd.key, row, m)
    requires row.data.accountId == cmd.accountId
    requires IsInt64(Balance(s.db, cmd.accountId, SERVED) + 2 * Delta(row.data))
    ensures var t := Next(SERVED, Next(SERVED, Next(SERVED, posted, ReadBatch(1)), ApplyNext), Finish);
            && Balance(t.db, cmd.accountId, SERVED) == Balance(s.db, cmd.accountId, SERVED) + 2 * Delta(row.data)
            && t.db == posted.db.(balances := t.db.balances) && CaughtUp(t) && t.cursor == row.sequence
  {
    var k := BalanceKey(cmd.accountId, SERVED);
    AscendingAppend(s.db.rows, row);
    PassedAppend(s.db.rows, row, s.cursor);
    ApplyDeltaAt(s.db.balances, k, Delta(row.data), k);
    TickAfterPost(posted, row);
    ApplyDeltaAt(posted.db.balances, k, Delta(row.data), k);
  }

  // ----- Conservation fails on a shared row -----

  ghost predicate Conserves(v: int, steps: seq<Step>, a: string) {
    Balance(Run(v, steps).db, a, SERVED) == EntrySum(Run(v, steps).db.rows, a)
  }

  function Probe(kind: EntryType, kobo: int64, n: string): PostEntry {
    PostEntry(n, "acc", kind, Money(kobo, NGN), "", None)
  }

  function ProbeIds(n: string): Ids {
    Ids(n, n, n, 0)
  }

  /** The first deposit of an empty ledger commits. */
  lemma {:induction false} FirstDepositCommits(kobo: int64, n: string)
    requires 0 < kobo && n != ""
    ensures Post(EMPTY_DB, Probe(Deposit, kobo, n), ProbeIds(n), 0, NoFault).0 != EMPTY_DB
    ensures Delta(EntryOf(Probe(Deposit, kobo, n), n, 0)) == kobo
  {
  }

  /** The run of one deposit and one tick. */
  lemma {:induction false} SharedRowDoubles(kobo: int64, n: string) returns (steps: seq<Step>, row: LedgerRow,
                                            m: Message)
    requires 0 < kobo && n != "" && IsInt64(kobo + kobo)
    ensures steps == PostAndTick(Probe(Deposit, kobo, n), ProbeIds(n), 0)
    ensures Balance(Run(SERVED, steps).db, "acc", SERVED) == kobo + kobo
    ensures EntrySum(Run(SERVED, steps).db.rows, "acc") == kobo
    ensures !Conserves(SERVED, steps, "acc")
    ensures var s := Run(SERVED, steps);
            && s.db.rows == [row] && s.db.keys == map[n := n] && s.db.outbox == [m]
            && CaughtUp(s) && s.cursor <= LastSequence(s.db.rows) && row.id == n && row.data.entryId == n && m.id == n
  {
    var none: seq<Step> := [];
    FirstDepositCommits(kobo, n);
    row, m := EveryPostingDoubles(none, Probe(Deposit, kobo, n), ProbeIds(n), 0);
    steps := PostAndTick(Probe(Deposit, kobo, n), ProbeIds(n), 0);
    assert none + steps == steps;
    assert [] + [row] == [row] && [] + [m] == [m];
  }

  lemma {:induction false} SecondPostingCommits(db: Db, row: LedgerRow, m: Message, kobo: int64, n: string)
    requires db.rows == [row] && db.outbox == [m] && row.id != n && row.aggregateId != n && m.id != n && n !in db.keys
    requires n != "" && 0 < kobo == Balance(db, "acc", SERVED)
    ensures Post(db, Probe(Withdrawal, kobo, n), ProbeIds(n), 0, NoFault).0 != db
    ensures Delta(EntryOf(Probe(Withdrawal, kobo, n), n, 0)) == -kobo
  {
    assert !Refuses(db.rows, n, n, 1) && !MessageIdTaken(db, n);
  }

  /** And the row can go below zero: the doubled deposit can be withdrawn in full, and the worker then
      subtracts the withdrawal once more. */
  lemma {:induction false} SharedRowGoesNegative(kobo: int64, n: string, n': string) returns (steps: seq<Step>)
    requires 0 < kobo && n != "" && n' != "" && n != n' && IsInt64(2 * kobo)
    ensures steps == PostAndTick(Probe(Deposit, kobo, n), ProbeIds(n), 0)
                     + PostAndTick(Probe(Withdrawal, 2 * kobo, n'), ProbeIds(n'), 0)
    ensures Balance(Run(SERVED, steps).db, "acc", SERVED) == -2 * kobo
  {
    var first, row, m := SharedRowDoubles(kobo, n);
    RunIsGood(SERVED, first);
    assert RowOk(Run(SERVED, first).db.rows[0]);
    SecondPostingCommits(Run(SERVED, first).db, row, m, 2 * kobo, n');
    var row2, m2 := EveryPostingDoubles(first, Probe(Withdrawal, 2 * kobo, n'), ProbeIds(n'), 0);
    steps := first + PostAndTick(Probe(Withdrawal, 2 * kobo, n'), ProbeIds(n'), 0);
  }

  /** And a restart counts everything once more: deposit, tick, restart, tick leave three times the deposit. */
  lemma {:induction false} RestartTriples(kobo: int64, n: string) returns (steps: seq<Step>)
    requires 0 < kobo && n != "" && IsInt64(3 * kobo)
    ensures steps == PostAndTick(Probe(Deposit, kobo, n), ProbeIds(n), 0) + [Restart, ReadBatch(1), ApplyNext, Finish]
    ensures Balance(Run(SERVED, steps).db, "acc", SERVED) == 3 * kobo
    ensures EntrySum(Run(SERVED, steps).db.rows, "acc") == kobo
  {
    var first, row, m := SharedRowDoubles(kobo, n);
    var s := Run(SERVED, first);
    RunIsGood(SERVED, first);
    steps := first + [Restart, ReadBatch(1), ApplyNext, Finish];
    RunConcat(SERVED, first, [Restart, ReadBatch(1), ApplyNext, Finish]);
    RunFour(SERVED, s, Restart, ReadBatch(1), ApplyNext, Finish);
    DepositRow(s.db.rows, row, kobo);
    RestartAdds(s, row, kobo);
  }

  lemma {:induction false} RestartAdds(s: State, row: LedgerRow, kobo: int64)
    requires s.db.rows == [row] && Ascending(s.db.rows) && row.data.accountId == "acc" && Delta(row.data) == kobo
    requires IsInt64(Balance(s.db, "acc", SERVED) + kobo)
    ensures var restarted := Next(SERVED, s, Restart);
            var t := Next(SERVED, Next(SERVED, Next(SERVED, restarted, ReadBatch(1)), ApplyNext), Finish);
            t.db.rows == s.db.rows && Balance(t.db, "acc", SERVED) == Balance(s.db, "acc", SERVED) + kobo
  {
    assert Passed(s.db.rows, 0) == 0;
    TickAfterPost(Next(SERVED, s, Restart), row);
    ApplyDeltaAt(s.db.balances, BalanceKey("acc", SERVED), Delta(row.data), BalanceKey("acc", SERVED));
  }

  lemma {:induction false} DepositRow(rows: seq<LedgerRow>, row: LedgerRow, kobo: int64)
    requires rows == [row] && EntrySum(rows, "acc") == kobo && kobo != 0
    ensures row.data.accountId == "acc" && Delta(row.data) == kobo
  {
    assert [] + [row] == [row];
    EntrySumAppend([], row, "acc");
  }

  /** The served balance equals the log in every run exactly when the worker writes another row. */
  lemma {:induction false} ConservationIffSeparateRow(v: int)
    ensures (forall steps: seq<Step>, a: string :: Conserves(v, steps, a)) <==> v != SERVED
  {
    if v == SERVED {
      var steps, row, m := SharedRowDoubles(1, "1");
    } else {
      forall steps: seq<Step>, a: string
        ensures Conserves(v, steps, a)
      {
        ServedBalanceExplained(v, steps, a);
      }
    }
  }
  /** No served balance is ever negative exactly when the worker writes another row. */
  lemma {:induction false} NonNegativeIffSeparateRow(v: int)
    ensures (forall steps: seq<Step>, a: string :: 0 <= Balance(Run(v, steps).db, a, SERVED)) <==> v != SERVED
  {
    if v == SERVED {
      var steps := SharedRowGoesNegative(1, "1", "2");
      assert Balance(Run(v, steps).db, "acc", SERVED) < 0;
    } else {
      forall steps: seq<Step>, a: string
        ensures 0 <= Balance(Run(v, steps).db, a, SERVED)
      {
        NonNegative(v, steps, a);
      }
    }
  }

  /** And exactly then no withdrawal guard ever leaves 64 bits: on the shared row, after the run that ends at
      -2, a withdrawal of the largest amount does. */
  lemma {:induction false} GuardFitsIffSeparateRow(v: int)
    ensures (forall steps: seq<Step>, a: string :: GuardFits(Run(v, steps).db, a)) <==> v != SERVED
  {
    if v == SERVED {
      var steps := SharedRowGoesNegative(1, "1", "2");
      GuardFitsIff(Run(v, steps).db, "acc");
      assert !GuardFits(Run(v, steps).db, "acc");
    } else {
      forall steps: seq<Step>, a: string
        ensures GuardFits(Run(v, steps).db, a)
      {
        LedgerConservation(v, steps, a);
      }
    }
  }
}
