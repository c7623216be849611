/** Several relays polling one outbox table: `select ... for update skip locked` hands out disjoint
    batches, and a tick's publishes and its commit are separate steps that others may come between. */
module RelayFleet {
  import opened OutboxRelay

  /** A relay between ticks, or inside one: its locked batch and how many of it are published. */
  datatype Tx = Idle | Busy(batch: seq<Message>, done: nat)

  /** `aborted` lists the ticks that were rolled back. */
  datatype Fleet = Fleet(rows: seq<Row>, relays: seq<Tx>, broker: seq<Message>, aborted: seq<Tx>)

  datatype Move =
    | Insert(msg: Message, at: nat)       // a handler commits a message anywhere in `created_at` order
    | Begin(relay: nat, configured: int)
    | Publish(relay: nat)                 // one publish and its update succeed, or the publish alone does
    | Abort(relay: nat)                   // publish, update or commit error, or a crash
    | Commit(relay: nat)                  // whether or not the relay learns of it

  // ----- Steps -----

  /** How often `m` occurs among the first `n` messages. */
  function CountTo(ms: seq<Message>, n: nat, m: Message): nat
    requires n <= |ms|
  {
    if n == 0 then 0 else CountTo(ms, n - 1, m) + if ms[n - 1] == m then 1 else 0
  }

  function Count(ms: seq<Message>, m: Message): nat {
    CountTo(ms, |ms|, m)
  }

  /** How often a tick has locked `m` or, with `sent`, published it. */
  function Share(t: Tx, sent: bool, m: Message): nat {
    if t.Idle? then 0 else if sent && t.done <= |t.batch| then CountTo(t.batch, t.done, m) else Count(t.batch, m)
  }

  function HeldTo(ticks: seq<Tx>, n: nat, sent: bool, m: Message): nat
    requires n <= |ticks|
  {
    if n == 0 then 0 else HeldTo(ticks, n - 1, sent, m) + Share(ticks[n - 1], sent, m)
  }

  /** How often the ticks together have locked or published `m`. */
  function Held(ticks: seq<Tx>, sent: bool, m: Message): nat {
    HeldTo(ticks, |ticks|, sent, m)
  }

  /** How many of the first `n` ticks published `m`. */
  function TicksTo(ticks: seq<Tx>, n: nat, m: Message): nat
    requires n <= |ticks|
  {
    if n == 0 then 0 else TicksTo(ticks, n - 1, m) + if Share(ticks[n - 1], true, m) > 0 then 1 else 0
  }

  function TicksThatSent(ticks: seq<Tx>, m: Message): nat {
    TicksTo(ticks, |ticks|, m)
  }

  /** The rows as a skip-locked query sees them: a locked row is as good as published. */
  function Visible(rows: seq<Row>, relays: seq<Tx>): (out: seq<Row>)
    ensures |out| == |rows|
  {
    seq(|rows|, i requires 0 <= i < |rows| =>
      rows[i].(published := rows[i].published || Held(relays, false, rows[i].msg) > 0))
  }

  function MarkBatch(rows: seq<Row>, batch: seq<Message>): (out: seq<Row>)
    ensures |out| == |rows|
  {
    seq(|rows|, i requires 0 <= i < |rows| => rows[i].(published := rows[i].published || rows[i].msg in batch))
  }

  function Take(rows: seq<Row>, relays: seq<Tx>, limit: nat): seq<Message> {
    Messages(rows, Select(Visible(rows, relays), limit))
  }

  function Step(s: Fleet, m: Move): Fleet {
    match m
    case Insert(msg, at) =>
      if Accepts(s.rows, msg, at) then s.(rows := With(s.rows, msg, at)) else s
    case Begin(r, configured) =>
      if r >= |s.relays| || s.relays[r].Busy? then s
      else s.(relays := s.relays[r := Busy(Take(s.rows, s.relays, BatchSize(configured)), 0)])
    case Publish(r) =>
      if r >= |s.relays| || s.relays[r].Idle? || s.relays[r].done >= |s.relays[r].batch| then s
      else
        var t := s.relays[r];
        s.(relays := s.relays[r := t.(done := t.done + 1)], broker := s.broker + [t.batch[t.done]])
    case Abort(r) =>
      if r >= |s.relays| then s
      else s.(relays := s.relays[r := Idle], aborted := s.aborted + [s.relays[r]])
    case Commit(r) =>
      if r >= |s.relays| || s.relays[r].Idle? || s.relays[r].done != |s.relays[r].batch| then s
      else s.(relays := s.relays[r := Idle], rows := MarkBatch(s.rows, s.relays[r].batch))
  }

  function RunFleet(s: Fleet, moves: seq<Move>): Fleet {
    if moves == [] then s else Step(RunFleet(s, moves[..|moves| - 1]), moves[|moves| - 1])
  }

  /** `n` idle relays and an empty outbox. */
  function Start(n: nat): Fleet {
    Fleet([], seq(n, _ => Idle), [], [])
  }

  /** A message enters the table unpublished, at its place, exactly if no row has its id. */
  lemma {:induction false} InsertMeans(s: Fleet, msg: Message, at: nat)
    requires at <= |s.rows|
    ensures var t := Step(s, Insert(msg, at));
            && t.relays == s.relays && t.broker == s.broker && t.aborted == s.aborted
            && (if forall i :: 0 <= i < |s.rows| ==> s.rows[i].msg.id != msg.id
                then && |t.rows| == |s.rows| + 1 && t.rows[at] == Row(msg, false)
                     && t.rows[..at] == s.rows[..at] && t.rows[at + 1..] == s.rows[at..]
                else t.rows == s.rows)
  {
  }

  // ----- The invariant -----

  predicate Has(rows: seq<Row>, m: Message) {
    exists i :: 0 <= i < |rows| && rows[i].msg == m
  }

  predicate IsPublished(rows: seq<Row>, m: Message) {
    exists i :: 0 <= i < |rows| && rows[i].msg == m && rows[i].published
  }

  /** The account of one message: it is locked at most once, and only while its row is there and
      unpublished; its publishes are those of aborted ticks, of the tick that marked it, and of the tick
      that holds it. */
  ghost predicate Sound(locked: nat, sent: nat, present: bool, published: bool, publishes: nat, aborted: nat) {
    && locked <= 1
    && (locked == 1 ==> present && !published)
    && publishes == aborted + sent + if published then 1 else 0
  }

  ghost predicate Fine(s: Fleet, m: Message) {
    Sound(Held(s.relays, false, m), Held(s.relays, true, m), Has(s.rows, m), IsPublished(s.rows, m),
          Count(s.broker, m), TicksThatSent(s.aborted, m))
  }

  // ----- One relay's share -----

  lemma {:induction false} HeldToUpdate(relays: seq<Tx>, n: nat, r: nat, t: Tx, sent: bool, m: Message)
    requires r < |relays| && n <= |relays|
    ensures HeldTo(relays[r := t], n, sent, m)
         == HeldTo(relays, n, sent, m) + if r < n then Share(t, sent, m) - Share(relays[r], sent, m) else 0
  {
    if n > 0 { HeldToUpdate(relays, n - 1, r, t, sent, m); }
  }

  lemma {:induction false} HeldUpdate(relays: seq<Tx>, r: nat, t: Tx, sent: bool, m: Message)
    requires r < |relays|
    ensures Held(relays[r := t], sent, m) == Held(relays, sent, m) + Share(t, sent, m) - Share(relays[r], sent, m)
  {
    HeldToUpdate(relays, |relays|, r, t, sent, m);
  }

  lemma {:induction false} ShareIsHeld(relays: seq<Tx>, n: nat, r: nat, sent: bool, m: Message)
    requires r < n <= |relays|
    ensures Share(relays[r], sent, m) <= HeldTo(relays, n, sent, m)
  {
    if r < n - 1 { ShareIsHeld(relays, n - 1, r, sent, m); }
  }

  lemma {:induction false} CountPrefix(a: seq<Message>, b: seq<Message>, n: nat, m: Message)
    requires n <= |a| <= |b| && forall i :: 0 <= i < |a| ==> a[i] == b[i]
    ensures CountTo(a, n, m) == CountTo(b, n, m)
  {
    if n > 0 { CountPrefix(a, b, n - 1, m); }
  }

  lemma {:induction false} CountSnoc(a: seq<Message>, x: Message, m: Message)
    ensures Count(a + [x], m) == Count(a, m) + if x == m then 1 else 0
  {
    CountPrefix(a, a + [x], |a|, m);
  }

  lemma {:induction false} TicksPrefix(a: seq<Tx>, t: Tx, n: nat, m: Message)
    requires n <= |a|
    ensures TicksTo(a + [t], n, m) == TicksTo(a, n, m)
  {
    if n > 0 { TicksPrefix(a, t, n - 1, m); }
  }

  lemma {:induction false} CountIn(ms: seq<Message>, n: nat, m: Message)
    requires n <= |ms|
    ensures CountTo(ms, n, m) > 0 <==> exists i :: 0 <= i < n && ms[i] == m
  {
    if n > 0 { CountIn(ms, n - 1, m); }
  }

  lemma {:induction false} CountGrows(ms: seq<Message>, i: nat, j: nat, m: Message)
    requires i <= j <= |ms|
    ensures CountTo(ms, i, m) <= CountTo(ms, j, m)
  {
    if i < j { CountGrows(ms, i, j - 1, m); }
  }

  /** What is published in flight is locked. */
  lemma {:induction false} SentIsLocked(relays: seq<Tx>, n: nat, m: Message)
    requires n <= |relays|
    ensures HeldTo(relays, n, true, m) <= HeldTo(relays, n, false, m)
  {
    if n > 0 {
      SentIsLocked(relays, n - 1, m);
      var t := relays[n - 1];
      if t.Busy? && t.done <= |t.batch| { CountGrows(t.batch, t.done, |t.batch|, m); }
    }
  }

  // ----- Every step keeps the invariant -----

  lemma {:induction false} InsertKeeps(s: Fleet, msg: Message, at: nat, m: Message)
    requires Unique(Order(s.rows)) && Fine(s, m) && at <= |s.rows|
    ensures Fine(s.(rows := With(s.rows, msg, at)), m)
  {
    InsertKeepsRows(s.rows, msg, at, m);
  }

  lemma {:induction false} InsertKeepsRows(rows: seq<Row>, msg: Message, at: nat, m: Message)
    requires at <= |rows|
    ensures var after := With(rows, msg, at);
            && (IsPublished(after, m) <==> IsPublished(rows, m))
            && (Has(after, m) <==> Has(rows, m) || m == msg)
  {
    var after := With(rows, msg, at);
    assert after[at] == Row(msg, false);
    forall i | 0 <= i < |rows|
      ensures rows[i] == after[if i < at then i else i + 1]
    {
    }
    forall j | 0 <= j < |after| && j != at
      ensures after[j] == rows[if j < at then j else j - 1]
    {
    }
  }

  lemma {:induction false} PublishKeeps(s: Fleet, r: nat, m: Message)
    requires r < |s.relays| && s.relays[r].Busy? && s.relays[r].done < |s.relays[r].batch| && Fine(s, m)
    ensures Fine(Step(s, Publish(r)), m)
  {
    var t := s.relays[r];
    HeldUpdate(s.relays, r, t.(done := t.done + 1), false, m);
    HeldUpdate(s.relays, r, t.(done := t.done + 1), true, m);
    CountSnoc(s.broker, t.batch[t.done], m);
  }

  lemma {:induction false} AbortKeeps(s: Fleet, r: nat, m: Message)
    requires r < |s.relays| && Fine(s, m)
    ensures Fine(Step(s, Abort(r)), m)
  {
    HeldUpdate(s.relays, r, Idle, false, m);
    HeldUpdate(s.relays, r, Idle, true, m);
    TicksPrefix(s.aborted, s.relays[r], |s.aborted|, m);
    ShareIsHeld(s.relays, |s.relays|, r, true, m);
    SentIsLocked(s.relays, |s.relays|, m);
  }

  lemma {:induction false} MarkBatchRows(rows: seq<Row>, batch: seq<Message>, m: Message)
    ensures Has(MarkBatch(rows, batch), m) <==> Has(rows, m)
    ensures IsPublished(MarkBatch(rows, batch), m) <==> IsPublished(rows, m) || (Has(rows, m) && m in batch)
    ensures Order(MarkBatch(rows, batch)) == Order(rows)
  {
    var after := MarkBatch(rows, batch);
    forall i | 0 <= i < |rows|
      ensures after[i] == rows[i].(published := rows[i].published || rows[i].msg in batch)
    {
    }
  }

  lemma {:induction false} CommitKeeps(s: Fleet, r: nat, m: Message)
    requires r < |s.relays| && s.relays[r].Busy? && s.relays[r].done == |s.relays[r].batch| && Fine(s, m)
    ensures Fine(Step(s, Commit(r)), m)
  {
    var batch := s.relays[r].batch;
    HeldUpdate(s.relays, r, Idle, false, m);
    HeldUpdate(s.relays, r, Idle, true, m);
    MarkBatchRows(s.rows, batch, m);
    ShareIsHeld(s.relays, |s.relays|, r, false, m);
    CountIn(batch, |batch|, m);
  }

  lemma {:induction false} CountAtMostOnce(ms: seq<Message>, n: nat, m: Message)
    requires n <= |ms| && forall i, j :: 0 <= i < j < |ms| ==> ms[i] != ms[j]
    ensures CountTo(ms, n, m) <= 1
  {
    if n > 0 {
      CountAtMostOnce(ms, n - 1, m);
      CountIn(ms, n - 1, m);
    }
  }

  /** A batch holds each message once, and only visible ones. */
  lemma {:induction false} TakeIsFree(rows: seq<Row>, relays: seq<Tx>, limit: nat, m: Message)
    requires Unique(Order(rows))
    ensures Count(Take(rows, relays, limit), m) <= 1
    ensures Count(Take(rows, relays, limit), m) == 1 ==>
              Held(relays, false, m) == 0 && Has(rows, m) && !IsPublished(rows, m)
  {
    var visible := Visible(rows, relays);
    var s := Select(visible, limit);
    var ms := Messages(rows, s);
    forall k | 0 <= k < |s|
      ensures ms[k] == rows[s[k]].msg && !rows[s[k]].published && Held(relays, false, rows[s[k]].msg) == 0
    {
      MessagesAt(rows, s, k);
      SelectIsFree(visible, limit, k);
      assert visible[s[k]] == rows[s[k]].(published := rows[s[k]].published || Held(relays, false, rows[s[k]].msg) > 0);
    }
    forall j, k | 0 <= j < k < |ms|
      ensures ms[j] != ms[k]
    {
      SelectIncreases(visible, limit, j, k);
      assert Differ(Order(rows), s[j], s[k]);
    }
    CountAtMostOnce(ms, |ms|, m);
    CountIn(ms, |ms|, m);
    if m in ms {
      var k :| 0 <= k < |ms| && ms[k] == m;
      UnpublishedRow(rows, s[k]);
    }
  }

  lemma {:induction false} UnpublishedRow(rows: seq<Row>, i: nat)
    requires Unique(Order(rows)) && i < |rows| && !rows[i].published
    ensures Has(rows, rows[i].msg) && !IsPublished(rows, rows[i].msg)
  {
    forall j | 0 <= j < |rows| && j != i
      ensures rows[j].msg != rows[i].msg
    {
      assert if j < i then Differ(Order(rows), j, i) else Differ(Order(rows), i, j);
    }
  }

  lemma {:induction false} BeginKeeps(s: Fleet, r: nat, configured: int, m: Message)
    requires r < |s.relays| && s.relays[r].Idle? && Unique(Order(s.rows)) && Fine(s, m)
    ensures Fine(Step(s, Begin(r, configured)), m)
  {
    var batch := Take(s.rows, s.relays, BatchSize(configured));
    TakeIsFree(s.rows, s.relays, BatchSize(configured), m);
    HeldUpdate(s.relays, r, Busy(batch, 0), false, m);
    HeldUpdate(s.relays, r, Busy(batch, 0), true, m);
  }

  lemma {:induction false} StepKeepsFine(s: Fleet, move: Move, m: Message)
    requires Unique(Order(s.rows)) && Fine(s, m)
    ensures Fine(Step(s, move), m)
  {
    if Step(s, move) != s {
      match move
      case Insert(msg, at) => InsertKeeps(s, msg, at, m);
      case Begin(r, configured) => BeginKeeps(s, r, configured, m);
      case Publish(r) => PublishKeeps(s, r, m);
      case Abort(r) => AbortKeeps(s, r, m);
      case Commit(r) => CommitKeeps(s, r, m);
    }
  }

  lemma {:induction false} StepKeepsUnique(s: Fleet, move: Move)
    requires Unique(Order(s.rows))
    ensures Unique(Order(Step(s, move).rows))
  {
    if Step(s, move).rows != s.rows {
      match move
      case Insert(msg, at) => WithKeepsUnique(s.rows, msg, at);
      case Commit(r) => MarkBatchRows(s.rows, s.relays[r].batch, Message("", "", "", ""));
    }
  }

  lemma {:induction false} StartIsFine(n: nat, m: Message)
    ensures Fine(Start(n), m)
  {
    IdleHoldsNothing(seq(n, _ => Idle), n, false, m);
    IdleHoldsNothing(seq(n, _ => Idle), n, true, m);
  }

  lemma {:induction false} IdleHoldsNothing(relays: seq<Tx>, n: nat, sent: bool, m: Message)
    requires n <= |relays| && forall r :: 0 <= r < |relays| ==> relays[r].Idle?
    ensures HeldTo(relays, n, sent, m) == 0
  {
    if n > 0 { IdleHoldsNothing(relays, n - 1, sent, m); }
  }

  // ----- Main results -----

  lemma {:induction false} RunIsFine(n: nat, moves: seq<Move>, m: Message)
    ensures Unique(Order(RunFleet(Start(n), moves).rows)) && Fine(RunFleet(Start(n), moves), m)
  {
    if moves == [] {
      StartIsFine(n, m);
    } else {
      var before := RunFleet(Start(n), moves[..|moves| - 1]);
      RunIsFine(n, moves[..|moves| - 1], m);
      StepKeepsUnique(before, moves[|moves| - 1]);
      StepKeepsFine(before, moves[|moves| - 1], m);
    }
  }

  /** At least once, with several relays. Over every run, the successful publishes of a message are the
      aborted ticks that published it, plus one if it is marked, plus one if the one tick that holds it
      has published it; so nothing is marked that was not published, and with no tick in flight the
      publishes are exactly aborted plus marked. */
  lemma {:induction false} AtLeastOnce(n: nat, moves: seq<Move>, m: Message)
    ensures var s := RunFleet(Start(n), moves);
            var flying := Held(s.relays, true, m);
            && Count(s.broker, m) == TicksThatSent(s.aborted, m) + flying + (if IsPublished(s.rows, m) then 1 else 0)
            && flying <= Held(s.relays, false, m) <= 1
            && (IsPublished(s.rows, m) ==> flying == 0 && Count(s.broker, m) > 0)
            && ((forall r :: 0 <= r < |s.relays| ==> s.relays[r].Idle?) ==> flying == 0)
  {
    var s := RunFleet(Start(n), moves);
    RunIsFine(n, moves, m);
    SentIsLocked(s.relays, |s.relays|, m);
    if forall r :: 0 <= r < |s.relays| ==> s.relays[r].Idle? {
      IdleHoldsNothing(s.relays, |s.relays|, true, m);
    }
  }

  lemma {:induction false} StepKeepsMarks(s: Fleet, move: Move, m: Message)
    requires Unique(Order(s.rows)) && Fine(s, m)
    ensures Has(s.rows, m) ==> Has(Step(s, move).rows, m)
    ensures IsPublished(s.rows, m) ==> IsPublished(Step(s, move).rows, m)
  {
    if Step(s, move).rows != s.rows {
      match move
      case Insert(msg, at) => InsertKeepsRows(s.rows, msg, at, m);
      case Commit(r) => MarkBatchRows(s.rows, s.relays[r].batch, m);
    }
  }

  /** A step publishes a marked message no more. */
  lemma {:induction false} StepSendsNoMarked(s: Fleet, move: Move, m: Message)
    requires Unique(Order(s.rows)) && Fine(s, m) && IsPublished(s.rows, m)
    ensures Count(Step(s, move).broker, m) == Count(s.broker, m)
  {
    if Step(s, move).broker != s.broker {
      var r := move.relay;
      var t := s.relays[r];
      ShareIsHeld(s.relays, |s.relays|, r, false, m);
      CountIn(t.batch, |t.batch|, m);
      CountSnoc(s.broker, t.batch[t.done], m);
    }
  }

  lemma {:induction false} LaterRun(s: Fleet, more: seq<Move>, m: Message)
    requires Unique(Order(s.rows)) && Fine(s, m)
    ensures var t := RunFleet(s, more);
            && Unique(Order(t.rows)) && Fine(t, m)
            && (Has(s.rows, m) ==> Has(t.rows, m))
            && (IsPublished(s.rows, m) ==> IsPublished(t.rows, m) && Count(t.broker, m) == Count(s.broker, m))
  {
    if more != [] {
      var before := RunFleet(s, more[..|more| - 1]);
      LaterRun(s, more[..|more| - 1], m);
      StepKeepsUnique(before, more[|more| - 1]);
      StepKeepsFine(before, more[|more| - 1], m);
      StepKeepsMarks(before, more[|more| - 1], m);
      if IsPublished(before.rows, m) { StepSendsNoMarked(before, more[|more| - 1], m); }
    }
  }

  /** A mark is final: whatever the relays do after a message is marked, it stays marked and is never
      published again; and a message once enqueued never leaves the table. */
  lemma {:induction false} MarkIsFinal(n: nat, moves: seq<Move>, more: seq<Move>, m: Message)
    ensures var s := RunFleet(Start(n), moves);
            var t := RunFleet(s, more);
            && (Has(s.rows, m) ==> Has(t.rows, m))
            && (IsPublished(s.rows, m) ==> IsPublished(t.rows, m) && Count(t.broker, m) == Count(s.broker, m))
  {
    RunIsFine(n, moves, m);
    LaterRun(RunFleet(Start(n), moves), more, m);
  }
}
