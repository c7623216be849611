/** What the relays take next, and that nothing waits for ever. */
module RelayProgress {
  import opened OutboxRelay
  import opened RelayFleet

  /** The message of row `i` is in a batch exactly if its position is. */
  lemma {:induction false} InBatch(rows: seq<Row>, positions: seq<nat>, i: nat)
    requires Unique(Order(rows)) && Positions(rows, positions) && i < |rows|
    ensures rows[i].msg in Messages(rows, positions) <==> i in positions
  {
    var ms := Messages(rows, positions);
    forall k | 0 <= k < |positions| ensures ms[k] == rows[positions[k]].msg {
      MessagesAt(rows, positions, k);
    }
    forall j | 0 <= j < |rows| && j != i ensures rows[j].msg != rows[i].msg {
      assert if j < i then Differ(Order(rows), j, i) else Differ(Order(rows), i, j);
    }
    if i in positions {
      var k :| 0 <= k < |positions| && positions[k] == i;
      assert ms[k] == rows[i].msg;
    }
  }

  lemma {:induction false} VisibleAt(rows: seq<Row>, relays: seq<Tx>, i: nat)
    requires i < |rows|
    ensures Visible(rows, relays)[i] == rows[i].(published := rows[i].published || Held(relays, false, rows[i].msg) > 0)
  {
  }

  lemma {:induction false} TakeIff(rows: seq<Row>, relays: seq<Tx>, limit: nat, i: nat)
    requires Unique(Order(rows)) && i < |rows|
    ensures rows[i].msg in Take(rows, relays, limit) <==>
            !rows[i].published && Held(relays, false, rows[i].msg) == 0 && WaitingTo(Visible(rows, relays), i) < limit
  {
    var visible := Visible(rows, relays);
    InBatch(rows, Select(visible, limit), i);
    SelectIff(visible, limit, i);
    VisibleAt(rows, relays, i);
  }

  /** Exactly what the next tick of an idle relay locks, in every reachable state: the messages that are
      neither marked nor locked and have fewer than a batch of such messages before them. */
  lemma {:induction false} NextBatchIff(n: nat, moves: seq<Move>, r: nat, configured: int, i: nat)
    requires var s := RunFleet(Start(n), moves); r < |s.relays| && s.relays[r].Idle? && i < |s.rows|
    ensures var s := RunFleet(Start(n), moves);
            s.rows[i].msg in RelayFleet.Step(s, Begin(r, configured)).relays[r].batch <==>
              && !s.rows[i].published && Held(s.relays, false, s.rows[i].msg) == 0
              && WaitingTo(Visible(s.rows, s.relays), i) < BatchSize(configured)
  {
    var s := RunFleet(Start(n), moves);
    RunIsFine(n, moves, s.rows[i].msg);
    TakeIff(s.rows, s.relays, BatchSize(configured), i);
  }

  // ----- A tick that nothing disturbs -----

  lemma {:induction false} RunConcat(s: Fleet, xs: seq<Move>, ys: seq<Move>)
    ensures RunFleet(s, xs + ys) == RunFleet(RunFleet(s, xs), ys)
  {
    if ys == [] {
      assert xs + ys == xs;
    } else {
      assert (xs + ys)[..|xs + ys| - 1] == xs + ys[..|ys| - 1];
      RunConcat(s, xs, ys[..|ys| - 1]);
    }
  }

  function Publishes(r: nat, k: nat): seq<Move> {
    if k == 0 then [] else Publishes(r, k - 1) + [Publish(r)]
  }

  /** The state inside a tick, `k` messages published. */
  function Within(s: Fleet, r: nat, batch: seq<Message>, k: nat): Fleet
    requires r < |s.relays| && k <= |batch|
  {
    s.(relays := s.relays[r := Busy(batch, k)], broker := s.broker + batch[..k])
  }

  lemma {:induction false} PublishOneMore(s: Fleet, r: nat, batch: seq<Message>, k: nat)
    requires r < |s.relays| && k < |batch|
    ensures RelayFleet.Step(Within(s, r, batch, k), Publish(r)) == Within(s, r, batch, k + 1)
  {
    assert batch[..k + 1] == batch[..k] + [batch[k]];
    assert s.broker + batch[..k + 1] == (s.broker + batch[..k]) + [batch[k]];
    assert s.relays[r := Busy(batch, k)][r := Busy(batch, k + 1)] == s.relays[r := Busy(batch, k + 1)];
  }

  lemma {:induction false} RunSnoc(s: Fleet, moves: seq<Move>, m: Move)
    ensures RunFleet(s, moves + [m]) == RelayFleet.Step(RunFleet(s, moves), m)
  {
    assert (moves + [m])[..|moves|] == moves;
  }

  lemma {:induction false} PublishTrace(trace: seq<Fleet>, r: nat, k: nat)
    requires k < |trace|
    requires forall i :: 0 <= i < k ==> RelayFleet.Step(trace[i], Publish(r)) == trace[i + 1]
    ensures RunFleet(trace[0], Publishes(r, k)) == trace[k]
  {
    if k > 0 {
      PublishTrace(trace, r, k - 1);
      RunSnoc(trace[0], Publishes(r, k - 1), Publish(r));
    }
  }

  lemma {:induction false} PublishAll(s: Fleet, r: nat, batch: seq<Message>)
    requires r < |s.relays|
    ensures RunFleet(Within(s, r, batch, 0), Publishes(r, |batch|)) == Within(s, r, batch, |batch|)
  {
    var trace := seq(|batch| + 1, k requires 0 <= k <= |batch| => Within(s, r, batch, k));
    forall k | 0 <= k < |batch| ensures RelayFleet.Step(trace[k], Publish(r)) == trace[k + 1] {
      PublishOneMore(s, r, batch, k);
    }
    PublishTrace(trace, r, |batch|);
  }

  function TickMoves(r: nat, configured: int, k: nat): seq<Move> {
    [Begin(r, configured)] + Publishes(r, k) + [Commit(r)]
  }

  /** The state after a whole tick. */
  function Ticked(s: Fleet, limit: nat): Fleet {
    var batch := Take(s.rows, s.relays, limit);
    s.(rows := MarkBatch(s.rows, batch), broker := s.broker + batch)
  }

  lemma {:induction false} WholeTick(s: Fleet, r: nat, configured: int)
    requires r < |s.relays| && s.relays[r].Idle?
    ensures var batch := Take(s.rows, s.relays, BatchSize(configured));
            RunFleet(s, TickMoves(r, configured, |batch|)) == Ticked(s, BatchSize(configured))
  {
    var batch := Take(s.rows, s.relays, BatchSize(configured));
    var begin, publishes, commit := [Begin(r, configured)], Publishes(r, |batch|), [Commit(r)];
    RunConcat(s, begin + publishes, commit);
    RunConcat(s, begin, publishes);
    RunOne(s, Begin(r, configured));
    assert s.broker + batch[..0] == s.broker;
    assert RunFleet(s, begin) == Within(s, r, batch, 0);
    PublishAll(s, r, batch);
    CommitWithin(s, r, batch);
    RunOne(Within(s, r, batch, |batch|), Commit(r));
  }

  lemma {:induction false} RunOne(s: Fleet, m: Move)
    ensures RunFleet(s, [m]) == RelayFleet.Step(s, m)
  {
    assert [m][..0] == [];
  }

  lemma {:induction false} CommitWithin(s: Fleet, r: nat, batch: seq<Message>)
    requires r < |s.relays| && s.relays[r].Idle?
    ensures RelayFleet.Step(Within(s, r, batch, |batch|), Commit(r))
         == s.(rows := MarkBatch(s.rows, batch), broker := s.broker + batch)
  {
    assert batch[..|batch|] == batch;
    assert s.relays[r := Busy(batch, |batch|)][r := Idle] == s.relays;
  }

  // ----- Progress -----

  /** How many messages are neither marked nor locked. */
  function Free(s: Fleet): nat {
    Waiting(Visible(s.rows, s.relays))
  }

  /** Seen through the locks, a whole tick marks what its query selected. */
  lemma {:induction false} TickedVisible(s: Fleet, limit: nat)
    requires Unique(Order(s.rows))
    ensures var visible := Visible(s.rows, s.relays);
            Visible(Ticked(s, limit).rows, s.relays) == Marked(visible, Select(visible, limit))
  {
    var visible := Visible(s.rows, s.relays);
    var positions := Select(visible, limit);
    var after := Ticked(s, limit).rows;
    forall i | 0 <= i < |s.rows|
      ensures Visible(after, s.relays)[i] == Marked(visible, positions)[i]
    {
      MarkedAt(visible, positions, i);
      VisibleAt(s.rows, s.relays, i);
      VisibleAt(after, s.relays, i);
      InBatch(s.rows, positions, i);
    }
  }

  lemma {:induction false} TickFrees(s: Fleet, limit: nat)
    requires Unique(Order(s.rows))
    ensures Free(Ticked(s, limit)) == Free(s) - Min(limit, Free(s))
    ensures Unique(Order(Ticked(s, limit).rows)) && Ticked(s, limit).relays == s.relays
    ensures Order(Ticked(s, limit).rows) == Order(s.rows)
  {
    TickedVisible(s, limit);
    CommitDrains(Visible(s.rows, s.relays), limit);
    MarkBatchRows(s.rows, Take(s.rows, s.relays, limit), Message("", "", "", ""));
  }

  /** Move `m` ends a tick of relay `r` with a commit. */
  predicate Completes(s: Fleet, m: Move, r: nat) {
    m == Commit(r) && r < |s.relays| && s.relays[r].Busy? && s.relays[r].done == |s.relays[r].batch|
  }

  /** How many ticks of relay `r` commit when `more` is run from `s`. */
  function Completed(s: Fleet, more: seq<Move>, r: nat): nat {
    if more == [] then 0
    else
      var front := more[..|more| - 1];
      Completed(s, front, r) + if Completes(RunFleet(s, front), more[|more| - 1], r) then 1 else 0
  }

  /** Nothing is inserted, and what another relay has locked it does not give back. Other relays may start
      and finish ticks, and ticks of `r` may fail. */
  predicate InTraffic(m: Move, r: nat, configured: int) {
    match m
    case Insert(_, _) => false
    case Begin(q, c) => q == r ==> c == configured
    case Publish(_) => true
    case Abort(q) => q == r
    case Commit(_) => true
  }

  /** Only relay `r` moves. */
  predicate Alone(m: Move, r: nat, configured: int) {
    InTraffic(m, r, configured) && m.relay == r
  }

  /** How many messages are neither marked nor locked by another relay than `r`. */
  function Left(rows: seq<Row>, relays: seq<Tx>, r: nat): nat
    requires r < |relays|
  {
    Waiting(Visible(rows, relays[r := Idle]))
  }

  lemma {:induction false} MoreIsGone(rows: seq<Row>, after: seq<Row>, n: nat)
    requires n <= |rows| == |after|
    requires forall i :: 0 <= i < |rows| && rows[i].published ==> after[i].published
    ensures WaitingTo(after, n) <= WaitingTo(rows, n)
  {
    if n > 0 { MoreIsGone(rows, after, n - 1); }
  }

  /** Another relay locks what it likes. */
  lemma {:induction false} OthersLock(rows: seq<Row>, relays: seq<Tx>, q: nat, t: Tx)
    requires q < |relays| && relays[q].Idle?
    ensures Waiting(Visible(rows, relays[q := t])) <= Waiting(Visible(rows, relays))
  {
    forall i | 0 <= i < |rows| && Visible(rows, relays)[i].published
      ensures Visible(rows, relays[q := t])[i].published
    {
      HeldUpdate(relays, q, t, false, rows[i].msg);
    }
    MoreIsGone(Visible(rows, relays), Visible(rows, relays[q := t]), |rows|);
  }

  /** Another relay publishes part of its batch. */
  lemma {:induction false} OthersPublish(rows: seq<Row>, relays: seq<Tx>, q: nat, t: Tx)
    requires q < |relays| && relays[q].Busy? && t.Busy? && t.batch == relays[q].batch
    ensures Waiting(Visible(rows, relays[q := t])) <= Waiting(Visible(rows, relays))
  {
    forall i | 0 <= i < |rows| && Visible(rows, relays)[i].published
      ensures Visible(rows, relays[q := t])[i].published
    {
      HeldUpdate(relays, q, t, false, rows[i].msg);
    }
    MoreIsGone(Visible(rows, relays), Visible(rows, relays[q := t]), |rows|);
  }

  /** Another relay commits: what it had locked is marked instead. */
  lemma {:induction false} OthersCommit(rows: seq<Row>, relays: seq<Tx>, q: nat)
    requires q < |relays| && relays[q].Busy?
    ensures Waiting(Visible(MarkBatch(rows, relays[q].batch), relays[q := Idle])) <= Waiting(Visible(rows, relays))
  {
    var batch := relays[q].batch;
    var after := MarkBatch(rows, batch);
    forall i | 0 <= i < |rows| && Visible(rows, relays)[i].published
      ensures Visible(after, relays[q := Idle])[i].published
    {
      HeldUpdate(relays, q, Idle, false, rows[i].msg);
      CountIn(batch, |batch|, rows[i].msg);
    }
    MoreIsGone(Visible(rows, relays), Visible(after, relays[q := Idle]), |rows|);
  }

  /** What will be left when the open tick of `r` commits. */
  function LeftThen(rows: seq<Row>, relays: seq<Tx>, r: nat): nat
    requires r < |relays| && relays[r].Busy?
  {
    Left(MarkBatch(rows, relays[r].batch), relays, r)
  }

  lemma {:induction false} MarksCommute(rows: seq<Row>, x: seq<Message>, y: seq<Message>)
    ensures MarkBatch(MarkBatch(rows, x), y) == MarkBatch(MarkBatch(rows, y), x)
  {
  }

  /** Moves of other relays leave no more than there was, before and after the commit of `r`. */
  lemma {:induction false} OthersMove(s: Fleet, m: Move, r: nat, configured: int)
    requires r < |s.relays| && InTraffic(m, r, configured) && m.relay != r
    ensures var t := RelayFleet.Step(s, m);
            && |t.relays| == |s.relays| && t.relays[r] == s.relays[r]
            && Left(t.rows, t.relays, r) <= Left(s.rows, s.relays, r)
            && (s.relays[r].Busy? ==> LeftThen(t.rows, t.relays, r) <= LeftThen(s.rows, s.relays, r))
  {
    var t := RelayFleet.Step(s, m);
    var q := m.relay;
    if t != s {
      var others := s.relays[r := Idle];
      assert t.relays[r := Idle] == others[q := t.relays[q]];
      var marked := if s.relays[r].Busy? then MarkBatch(s.rows, s.relays[r].batch) else s.rows;
      match m
      case Begin(_, _) =>
        OthersLock(s.rows, others, q, t.relays[q]);
        OthersLock(marked, others, q, t.relays[q]);
      case Publish(_) =>
        OthersPublish(s.rows, others, q, t.relays[q]);
        OthersPublish(marked, others, q, t.relays[q]);
      case Commit(_) =>
        OthersCommit(s.rows, others, q);
        OthersCommit(marked, others, q);
        if s.relays[r].Busy? { MarksCommute(s.rows, s.relays[r].batch, s.relays[q].batch); }
    }
  }

  /** After `c` committed ticks, at least that many batches are gone, and one more once the open tick commits. */
  ghost predicate Progress(s: Fleet, r: nat, left: nat, limit: nat, c: nat) {
    && r < |s.relays| && Unique(Order(s.rows))
    && Left(s.rows, s.relays, r) <= left - Reached(0, left, limit, c)
    && (s.relays[r].Busy? ==> LeftThen(s.rows, s.relays, r) <= left - Reached(0, left, limit, c + 1))
  }

  /** A tick of `r` that begins: by `TickFrees`, its commit will take a batch off, or all that is left. */
  lemma {:induction false} BeginProgresses(s: Fleet, r: nat, configured: int, left: nat, c: nat)
    requires Progress(s, r, left, BatchSize(configured), c) && s.relays[r].Idle?
    ensures Progress(RelayFleet.Step(s, Begin(r, configured)), r, left, BatchSize(configured), c)
  {
    var t := RelayFleet.Step(s, Begin(r, configured));
    TickFrees(s, BatchSize(configured));
    assert s.relays[r := Idle] == s.relays && t.relays[r := Idle] == s.relays;
    assert MarkBatch(t.rows, t.relays[r].batch) == Ticked(s, BatchSize(configured)).rows;
  }

  lemma {:induction false} OwnMove(s: Fleet, m: Move, r: nat, configured: int, left: nat, c: nat)
    requires Progress(s, r, left, BatchSize(configured), c) && Alone(m, r, configured)
    ensures Progress(RelayFleet.Step(s, m), r, left, BatchSize(configured), if Completes(s, m, r) then c + 1 else c)
  {
    var t := RelayFleet.Step(s, m);
    assert t.relays[r := Idle] == s.relays[r := Idle];
    match m
    case Begin(_, _) => if s.relays[r].Idle? { BeginProgresses(s, r, configured, left, c); }
    case Publish(_) =>
    case Abort(_) =>
    case Commit(_) => StepKeepsUnique(s, m);
  }

  lemma {:induction false} MoveProgresses(s: Fleet, m: Move, r: nat, configured: int, left: nat, c: nat)
    requires Progress(s, r, left, BatchSize(configured), c) && InTraffic(m, r, configured)
    ensures Progress(RelayFleet.Step(s, m), r, left, BatchSize(configured), if Completes(s, m, r) then c + 1 else c)
  {
    if m.relay == r {
      OwnMove(s, m, r, configured, left, c);
    } else {
      OthersMove(s, m, r, configured);
      StepKeepsUnique(s, m);
    }
  }

  lemma {:induction false} RunProgresses(s: Fleet, more: seq<Move>, r: nat, configured: int)
    requires Unique(Order(s.rows)) && r < |s.relays| && s.relays[r].Idle?
    requires forall i :: 0 <= i < |more| ==> InTraffic(more[i], r, configured)
    ensures Progress(RunFleet(s, more), r, Free(s), BatchSize(configured), Completed(s, more, r))
  {
    if more == [] {
      assert s.relays[r := Idle] == s.relays;
    } else {
      var front := more[..|more| - 1];
      RunProgresses(s, front, r, configured);
      MoveProgresses(RunFleet(s, front), more[|more| - 1], r, configured, Free(s), Completed(s, front, r));
    }
  }

  lemma {:induction false} NoneFree(rows: seq<Row>, relays: seq<Tx>, n: nat, i: nat)
    requires i < n <= |rows| && WaitingTo(Visible(rows, relays), n) == 0
    ensures rows[i].published || Held(relays, false, rows[i].msg) > 0
  {
    if i < n - 1 {
      NoneFree(rows, relays, n - 1, i);
    } else {
      VisibleAt(rows, relays, i);
    }
  }

  /** Nothing is lost. From any reachable state, in every run in which nothing is inserted and no other relay
      gives back what it has locked: as soon as the committed ticks of relay `r` together have room for the
      messages that were neither marked nor locked, every message is marked or locked by another relay. Any
      number of failed ticks of `r` may come in between, and the other relays' ticks. */
  lemma {:induction false} NothingIsLostInTraffic(n: nat, moves: seq<Move>, more: seq<Move>, r: nat, configured: int)
    requires var s := RunFleet(Start(n), moves);
             && r < |s.relays| && s.relays[r].Idle?
             && Free(s) <= Completed(s, more, r) * BatchSize(configured)
    requires forall i :: 0 <= i < |more| ==> InTraffic(more[i], r, configured)
    ensures var after := RunFleet(RunFleet(Start(n), moves), more);
            && r < |after.relays|
            && forall i :: 0 <= i < |after.rows| ==>
                 after.rows[i].published || Held(after.relays[r := Idle], false, after.rows[i].msg) > 0
  {
    var s := RunFleet(Start(n), moves);
    RunIsFine(n, moves, Message("", "", "", ""));
    RunProgresses(s, more, r, configured);
    ReachedIsProduct(0, Free(s), BatchSize(configured), Completed(s, more, r));
    var after := RunFleet(s, more);
    forall i | 0 <= i < |after.rows|
      ensures after.rows[i].published || Held(after.relays[r := Idle], false, after.rows[i].msg) > 0
    {
      NoneFree(after.rows, after.relays[r := Idle], |after.rows|, i);
    }
  }

  lemma {:induction false} AloneKeepsOthers(s: Fleet, more: seq<Move>, r: nat, configured: int)
    requires r < |s.relays| && forall i :: 0 <= i < |more| ==> Alone(more[i], r, configured)
    ensures var after := RunFleet(s, more);
            && r < |after.relays| && after.relays[r := Idle] == s.relays[r := Idle]
            && Order(after.rows) == Order(s.rows)
  {
    if more != [] {
      var before, m := RunFleet(s, more[..|more| - 1]), more[|more| - 1];
      AloneKeepsOthers(s, more[..|more| - 1], r, configured);
      assert RelayFleet.Step(before, m).relays[r := Idle] == before.relays[r := Idle];
      if Completes(before, m, r) { MarkBatchRows(before.rows, before.relays[r].batch, Message("", "", "", "")); }
    }
  }

  /** So while the other relays stand still, holding their locks or not, that many committed ticks of any one
      idle relay mark every message that no relay held. */
  lemma {:induction false} NothingIsLost(n: nat, moves: seq<Move>, more: seq<Move>, r: nat, configured: int)
    requires var s := RunFleet(Start(n), moves);
             && r < |s.relays| && s.relays[r].Idle?
             && Free(s) <= Completed(s, more, r) * BatchSize(configured)
    requires forall i :: 0 <= i < |more| ==> Alone(more[i], r, configured)
    ensures var s := RunFleet(Start(n), moves);
            forall m :: Has(s.rows, m) && Held(s.relays, false, m) == 0 ==> IsPublished(RunFleet(s, more).rows, m)
  {
    var s := RunFleet(Start(n), moves);
    var after := RunFleet(s, more);
    AloneKeepsOthers(s, more, r, configured);
    NothingIsLostInTraffic(n, moves, more, r, configured);
    assert s.relays[r := Idle] == s.relays;
    forall m | Has(s.rows, m) && Held(s.relays, false, m) == 0
      ensures IsPublished(after.rows, m)
    {
      var i :| 0 <= i < |s.rows| && s.rows[i].msg == m;
      assert |after.rows| == |Order(after.rows)| == |s.rows| && Order(after.rows)[i] == Order(s.rows)[i];
    }
  }
}
