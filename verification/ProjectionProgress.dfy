/** What the projection worker makes of one event and one batch, and that it reaches the end of the log. */
module ProjectionProgress {
  import opened Common
  import opened EventLog
  import opened AccountDomain
  import opened AccountService
  import AR = AccountRuns
  import opened ProjectionWorker
  import LP = LiveProjection

  // ----- One event -----

  /** An account event of a type that the worker knows. */
  predicate Known(e: AccountRow) {
    e.aggregateType == "account" && e.data.typ in {TypeOpened, TypeFrozen, TypeClosed, TypeDeposited, TypeWithdrawn}
  }

  /** The only event that does not go through: an opening whose document does not parse. */
  predicate Stuck(e: AccountRow) {
    Known(e) && e.data.typ == TypeOpened && e.data.json.Malformed?
  }

  /** The customer of the row after the event: an opening names it, else it stays. */
  function CustomerAfter(current: Option<ProjectionRow>, e: AccountRow): string {
    if e.data.typ == TypeOpened && e.data.json.Json? then e.data.json.customerId
    else if current.Some? then current.value.customerId else ""
  }

  function StatusAfter(current: Option<ProjectionRow>, e: AccountRow): Status {
    match e.data.typ
    case TypeFrozen => Frozen
    case TypeClosed => Closed
    case TypeOpened => Active
    case _ => if current.Some? && current.value.status != Unset then current.value.status else Active
  }

  /** Everything that the worker does with one event: it fails at an opening that does not parse, skips what is not
      an account's or leaves the customer unknown, and else writes customer, status and version. */
  lemma {:induction false} ProjectMeans(current: Option<ProjectionRow>, e: AccountRow)
    ensures Project(current, e) ==
            if Stuck(e) then Fail
            else if !Known(e) || CustomerAfter(current, e) == "" then Skip
            else Upsert(ProjectionRow(if current.Some? then current.value.accountId else e.aggregateId,
                                      CustomerAfter(current, e), StatusAfter(current, e), e.version))
  {
  }

  // ----- One batch -----

  ghost predicate NoneStuck(rows: seq<AccountRow>) {
    forall i :: 0 <= i < |rows| ==> !Stuck(rows[i])
  }

  lemma {:induction false} HandledAllIff(table: Table, batch: seq<AccountRow>, failAt: nat, i: nat)
    requires i <= |batch| && i <= failAt
    ensures Handled(table, batch, failAt, i) == |batch| <==> |batch| <= failAt && NoneStuck(batch[i..])
    decreases |batch| - i
  {
    if i < |batch| {
      ProjectMeans(AR.Lookup(TableUpTo(table, batch, i), batch[i].aggregateId), batch[i]);
      assert batch[i..][0] == batch[i];
      if i < failAt && !Stuck(batch[i]) {
        HandledAllIff(table, batch, failAt, i + 1);
        NoneStuckCons(batch, i);
      }
    }
  }

  lemma {:induction false} NoneStuckCons(batch: seq<AccountRow>, i: nat)
    requires i < |batch| && !Stuck(batch[i])
    ensures NoneStuck(batch[i..]) <==> NoneStuck(batch[i + 1..])
  {
    var rest, more := batch[i + 1..], batch[i..];
    assert more == [batch[i]] + rest;
    assert forall j :: 0 <= j < |rest| ==> rest[j] == more[j + 1];
    assert forall j :: 0 < j < |more| ==> more[j] == rest[j - 1];
  }

  /** Where a tick leaves the cursor: past exactly its batch if no call fails and no opening is unreadable, and else
      where it was. */
  lemma {:induction false} TickAdvancesIff(rows: seq<AccountRow>, table: Table, cursor: nat, limit: int, failAt: nat)
    requires Ascending(rows)
    ensures var p := Passed(rows, cursor);
            var q := BatchEnd(rows, p, EffectiveLimit(limit));
            var next := WorkerTick(rows, table, cursor, limit, failAt).1;
            if q - p <= failAt && NoneStuck(rows[p..q]) then Passed(rows, next) == q else next == cursor
  {
    var batch := BatchOf(rows, cursor, limit);
    BatchAdvances(rows, cursor, limit);
    HandledAllIff(table, batch, failAt, 0);
    assert batch[0..] == batch;
  }

  // ----- Reaching the end -----

  /** The same tick, `t` times. */
  function Ticks(tick: Step, t: nat): seq<Step> {
    if t == 0 then [] else Ticks(tick, t - 1) + [tick]
  }

  /** The cursor is not persisted: a restart goes back to the beginning of the log and keeps the table. */
  lemma {:induction false} RestartGoesBack(s: State, live: LP.Live)
    requires Ascending(s.rows) && Ascending(live.db.rows)
    ensures var t := Next(s, Restart); t.rows == s.rows && t.table == s.table && Passed(t.rows, t.cursor) == 0
    ensures var t := LP.Advance(live, LP.StartOver);
            t.db == live.db && t.phase.Idle? && Passed(t.db.rows, t.cursor) == 0
  {
    assert Passed(s.rows, 0) == 0 && Passed(live.db.rows, 0) == 0;
  }

  lemma {:induction false} RunSnoc(table: Table, steps: seq<Step>, step: Step)
    ensures Run(table, steps + [step]) == Next(Run(table, steps), step)
  {
    assert (steps + [step])[..|steps|] == steps;
  }

  lemma {:induction false} TicksSnoc(steps: seq<Step>, tick: Step, t: nat)
    requires t > 0
    ensures steps + Ticks(tick, t) == (steps + Ticks(tick, t - 1)) + [tick]
  {
  }

  lemma {:induction false} RunIsAscending(table: Table, steps: seq<Step>)
    ensures Ascending(Run(table, steps).rows)
  {
    if steps != [] {
      var s, step := Run(table, steps[..|steps| - 1]), steps[|steps| - 1];
      RunIsAscending(table, steps[..|steps| - 1]);
      if step.Append? && LastSequence(s.rows) < step.row.sequence { AscendingAppend(s.rows, step.row); }
    }
  }

  function Least(x: nat, y: nat): nat {
    if x < y then x else y
  }

  /** The log stays, and one more batch of it is passed. */
  ghost predicate PassesBatch(s: State, t: State, batch: nat) {
    t.rows == s.rows && Passed(t.rows, t.cursor) == Least(|s.rows|, Passed(s.rows, s.cursor) + batch)
  }

  /** A tick in which no call fails passes one more batch. */
  lemma {:induction false} TickPasses(s: State, tick: Step, batch: nat)
    requires Ascending(s.rows) && NoneStuck(s.rows)
    requires tick.Tick? && batch == EffectiveLimit(tick.limit) <= tick.failAt
    ensures PassesBatch(s, Next(s, tick), batch)
  {
    var p := Passed(s.rows, s.cursor);
    TickAdvancesIff(s.rows, s.table, s.cursor, tick.limit, tick.failAt);
    NoneStuckPart(s.rows, p, BatchEnd(s.rows, p, batch));
  }

  lemma {:induction false} NoneStuckPart(rows: seq<AccountRow>, p: nat, q: nat)
    requires NoneStuck(rows) && p <= q <= |rows|
    ensures NoneStuck(rows[p..q])
  {
  }

  /** How far `t` batches get from `p` in a log of `n` rows. */
  function Reached(p: nat, n: nat, batch: nat, t: nat): nat {
    if t == 0 then p else Least(n, Reached(p, n, batch, t - 1) + batch)
  }

  lemma {:induction false} ReachedIsProduct(p: nat, n: nat, batch: nat, t: nat)
    requires p <= n
    ensures Reached(p, n, batch, t) == Least(n, p + t * batch)
  {
    if t > 0 {
      ReachedIsProduct(p, n, batch, t - 1);
      MoreTicks(t, batch);
    }
  }

  lemma {:induction false} TracePasses(trace: seq<State>, batch: nat, t: nat)
    requires t < |trace| && Ascending(trace[0].rows) && NoneStuck(trace[0].rows)
    requires forall i :: 0 <= i < t && Ascending(trace[i].rows) && NoneStuck(trace[i].rows) ==>
               PassesBatch(trace[i], trace[i + 1], batch)
    ensures var s := trace[0];
            && trace[t].rows == s.rows
            && Passed(s.rows, trace[t].cursor) == Reached(Passed(s.rows, s.cursor), |s.rows|, batch, t)
  {
    if t > 0 { TracePasses(trace, batch, t - 1); }
  }

  lemma {:induction false} RunPasses(table: Table, steps: seq<Step>, tick: Step, batch: nat, t: nat)
    requires tick.Tick? && batch == EffectiveLimit(tick.limit) <= tick.failAt
    requires var s := Run(table, steps + Ticks(tick, t)); Ascending(s.rows) && NoneStuck(s.rows)
    ensures PassesBatch(Run(table, steps + Ticks(tick, t)), Run(table, steps + Ticks(tick, t + 1)), batch)
  {
    TicksSnoc(steps, tick, t + 1);
    RunSnoc(table, steps + Ticks(tick, t), tick);
    TickPasses(Run(table, steps + Ticks(tick, t)), tick, batch);
  }

  lemma {:induction false} MoreTicks(t: nat, batch: nat)
    requires t > 0
    ensures t * batch == (t - 1) * batch + batch
  {
  }

  /** The worker catches up. From any reachable state, after any failures and restarts, if no opening in the log is
      unreadable: as soon as the batches of the next ticks have room for the rows that the cursor has not passed,
      every stream that begins with `AccountOpened` has the row of its replay. */
  lemma {:induction false} WorkerCatchesUp(table: Table, steps: seq<Step>, tick: Step, t: nat, a: string)
    requires KeyedTable(table) && NoneStuck(Run(table, steps).rows)
    requires tick.Tick? && EffectiveLimit(tick.limit) <= tick.failAt
    requires var s := Run(table, steps);
             |s.rows| - Passed(s.rows, s.cursor) <= t * EffectiveLimit(tick.limit) && ValidStream(Stream(s.rows, a), a)
    ensures var s, after := Run(table, steps), Run(table, steps + Ticks(tick, t));
            && after.rows == s.rows && Rehydrate(Stream(s.rows, a)).Ok?
            && a in after.table && after.table[a] == AR.RowOf(Rehydrate(Stream(s.rows, a)).value)
  {
    AtTheEnd(table, steps, tick, EffectiveLimit(tick.limit), t);
    ProjectionConverges(table, steps + Ticks(tick, t), a);
  }

  lemma {:induction false} AtTheEnd(table: Table, steps: seq<Step>, tick: Step, batch: nat, t: nat)
    requires NoneStuck(Run(table, steps).rows) && tick.Tick? && batch == EffectiveLimit(tick.limit) <= tick.failAt
    requires var s := Run(table, steps); |s.rows| - Passed(s.rows, s.cursor) <= t * batch
    ensures var s, after := Run(table, steps), Run(table, steps + Ticks(tick, t));
            after.rows == s.rows && Passed(after.rows, after.cursor) == |after.rows|
  {
    var trace := TraceOf(table, steps, tick, batch, t);
    RunIsAscending(table, steps);
    TracePasses(trace, batch, t);
    ReachedIsProduct(Passed(trace[0].rows, trace[0].cursor), |trace[0].rows|, batch, t);
  }

  ghost predicate Traces(trace: seq<State>, batch: nat, first: State, last: State) {
    && trace != [] && trace[0] == first && trace[|trace| - 1] == last
    && forall i :: 0 <= i < |trace| - 1 && Ascending(trace[i].rows) && NoneStuck(trace[i].rows) ==>
         PassesBatch(trace[i], trace[i + 1], batch)
  }

  lemma {:induction false} TraceMore(trace: seq<State>, batch: nat, first: State, last: State, next: State)
    requires Traces(trace, batch, first, last)
    requires Ascending(last.rows) && NoneStuck(last.rows) ==> PassesBatch(last, next, batch)
    ensures Traces(trace + [next], batch, first, next)
  {
  }

  /** The states of a run between its last ticks. */
  lemma {:induction false} TraceOf(table: Table, steps: seq<Step>, tick: Step, batch: nat, t: nat)
    returns (trace: seq<State>)
    requires tick.Tick? && batch == EffectiveLimit(tick.limit) <= tick.failAt
    ensures |trace| == t + 1 && Traces(trace, batch, Run(table, steps), Run(table, steps + Ticks(tick, t)))
    decreases t
  {
    if t == 0 {
      assert steps + Ticks(tick, t) == steps;
      trace := [Run(table, steps)];
    } else {
      var front := TraceOf(table, steps, tick, batch, t - 1);
      var last, next := Run(table, steps + Ticks(tick, t - 1)), Run(table, steps + Ticks(tick, t));
      if Ascending(last.rows) && NoneStuck(last.rows) { RunPasses(table, steps, tick, batch, t - 1); }
      TraceMore(front, batch, Run(table, steps), last, next);
      trace := front + [next];
    }
  }

  // ----- The worker among the handlers -----

  /** A run of moves, for any meaning `f` of a single move. */
  function Played(f: (LP.Live, LP.Move) -> LP.Live, s: LP.Live, moves: seq<LP.Move>): LP.Live {
    if moves == [] then s else f(Played(f, s, moves[..|moves| - 1]), moves[|moves| - 1])
  }

  function PlayFrom(s: LP.Live, moves: seq<LP.Move>): LP.Live {
    Played(LP.Advance, s, moves)
  }

  lemma {:induction false} PlayedSnoc(f: (LP.Live, LP.Move) -> LP.Live, s: LP.Live, moves: seq<LP.Move>, m: LP.Move)
    ensures Played(f, s, moves + [m]) == f(Played(f, s, moves), m)
  {
    assert (moves + [m])[..|moves|] == moves;
  }

  /** The separate get and upsert of `n` events, behind the read of their batch. */
  function Pairs(limit: int, n: nat): seq<LP.Move> {
    if n == 0 then [LP.ReadBatch(limit)] else Pairs(limit, n - 1) + [LP.Get] + [LP.Put]
  }

  lemma {:induction false} PlayedPairs(f: (LP.Live, LP.Move) -> LP.Live, s: LP.Live, limit: int, trace: seq<LP.Live>,
                                       n: nat)
    requires n < |trace| && f(s, LP.ReadBatch(limit)) == trace[0]
    requires forall i :: 0 <= i < n ==> f(f(trace[i], LP.Get), LP.Put) == trace[i + 1]
    ensures Played(f, s, Pairs(limit, n)) == trace[n]
  {
    if n == 0 {
      PlayedSnoc(f, s, [], LP.ReadBatch(limit));
      assert [] + [LP.ReadBatch(limit)] == Pairs(limit, n);
    } else {
      PlayedPairs(f, s, limit, trace, n - 1);
      PlayedSnoc(f, s, Pairs(limit, n - 1), LP.Get);
      PlayedSnoc(f, s, Pairs(limit, n - 1) + [LP.Get], LP.Put);
    }
  }

  /** The state inside an undisturbed batch, `i` events dealt with. */
  function Inside(s: LP.Live, batch: seq<AccountRow>, i: nat): LP.Live
    requires i <= |batch|
  {
    LP.Live(s.db.(projection := TableUpTo(s.db.projection, batch, i)), s.cursor, LP.Busy(batch, i, None))
  }

  lemma {:induction false} GetPut(s: LP.Live, batch: seq<AccountRow>, i: nat)
    requires i < |batch|
    requires !Project(AR.Lookup(TableUpTo(s.db.projection, batch, i), batch[i].aggregateId), batch[i]).Fail?
    ensures LP.Advance(LP.Advance(Inside(s, batch, i), LP.Get), LP.Put) == Inside(s, batch, i + 1)
  {
  }

  lemma {:induction false} HandledGoesOn(table: Table, batch: seq<AccountRow>, failAt: nat, i: nat, k: nat)
    requires i <= |batch| && i <= k < Handled(table, batch, failAt, i)
    ensures k < |batch| && !Project(AR.Lookup(TableUpTo(table, batch, k), batch[k].aggregateId), batch[k]).Fail?
    decreases k - i
  {
    if i < k { HandledGoesOn(table, batch, failAt, i + 1, k); }
  }

  lemma {:induction false} ReadStarts(s: LP.Live, limit: int)
    requires s.phase.Idle? && BatchOf(s.db.rows, s.cursor, limit) != []
    ensures LP.Advance(s, LP.ReadBatch(limit)) == Inside(s, BatchOf(s.db.rows, s.cursor, limit), 0)
  {
  }

  lemma {:induction false} PairsRun(s: LP.Live, limit: int, failAt: nat, n: nat)
    requires var batch := BatchOf(s.db.rows, s.cursor, limit);
             s.phase.Idle? && batch != [] && n <= Handled(s.db.projection, batch, failAt, 0)
    ensures PlayFrom(s, Pairs(limit, n)) == Inside(s, BatchOf(s.db.rows, s.cursor, limit), n)
  {
    var batch := BatchOf(s.db.rows, s.cursor, limit);
    var trace := seq(n + 1, i requires 0 <= i <= n => Inside(s, batch, i));
    ReadStarts(s, limit);
    forall i | 0 <= i < n
      ensures LP.Advance(LP.Advance(trace[i], LP.Get), LP.Put) == trace[i + 1]
    {
      HandledGoesOn(s.db.projection, batch, failAt, 0, i);
      GetPut(s, batch, i);
    }
    PlayedPairs(LP.Advance, s, limit, trace, n);
  }

  /** An undisturbed tick among the handlers' steps is one tick of the worker alone: its separate reads and writes,
      up to the end of the batch or up to the event that fails, leave the table and the cursor that it leaves. */
  lemma {:induction false} LiveTickIsTick(s: LP.Live, limit: int, failAt: nat)
    requires s.phase.Idle? && BatchOf(s.db.rows, s.cursor, limit) != []
    ensures var batch := BatchOf(s.db.rows, s.cursor, limit);
            var n := Handled(s.db.projection, batch, failAt, 0);
            var (table, cursor) := WorkerTick(s.db.rows, s.db.projection, s.cursor, limit, failAt);
            PlayFrom(s, Pairs(limit, n) + [if n == |batch| then LP.Finish else LP.Abort])
              == LP.Live(s.db.(projection := table), cursor, LP.Idle)
  {
    var batch := BatchOf(s.db.rows, s.cursor, limit);
    var n := Handled(s.db.projection, batch, failAt, 0);
    PairsRun(s, limit, failAt, n);
    PlayedSnoc(LP.Advance, s, Pairs(limit, n), if n == |batch| then LP.Finish else LP.Abort);
    EndsBatch(s, batch, n);
  }
  lemma {:induction false} EndsBatch(s: LP.Live, batch: seq<AccountRow>, n: nat)
    requires batch != [] && n <= |batch|
    ensures LP.Advance(Inside(s, batch, n), if n == |batch| then LP.Finish else LP.Abort)
         == LP.Live(s.db.(projection := TableUpTo(s.db.projection, batch, n)),
                    if n == |batch| then LastSequence(batch) else s.cursor, LP.Idle)
  {
  }
}
