/** One outbox relay: poll, publish a batch, mark it, commit. */
module OutboxRelay {

  datatype Message = Message(id: string, topic: string, key: string, value: string)

  /** An outbox row; rows are kept in `created_at` order, those with equal times in one fixed order. */
  datatype Row = Row(msg: Message, published: bool)

  /** `Config.WithDefaults`. */
  function BatchSize(configured: int): (n: nat)
    ensures n > 0 && (n == configured || (configured <= 0 && n == 100))
  {
    if configured <= 0 then 100 else configured
  }

  predicate Positions(rows: seq<Row>, batch: seq<nat>) {
    forall k :: 0 <= k < |batch| ==> batch[k] < |rows|
  }

  /** The positions of the first `limit` rows that are not published. */
  function Select(rows: seq<Row>, limit: nat): (s: seq<nat>)
    ensures |s| <= limit
    ensures Positions(rows, s)
  {
    if rows == [] then []
    else
      var n := |rows| - 1;
      var s := Select(rows[..n], limit);
      if |s| < limit && !rows[n].published then s + [n] else s
  }

  function Messages(rows: seq<Row>, batch: seq<nat>): (ms: seq<Message>)
    requires Positions(rows, batch)
    ensures |ms| == |batch|
  {
    if batch == [] then []
    else Messages(rows, batch[..|batch| - 1]) + [rows[batch[|batch| - 1]].msg]
  }

  function Marked(rows: seq<Row>, batch: seq<nat>): (out: seq<Row>)
    requires Positions(rows, batch)
    ensures |out| == |rows|
  {
    if batch == [] then rows
    else
      var out := Marked(rows, batch[..|batch| - 1]);
      out[batch[|batch| - 1] := out[batch[|batch| - 1]].(published := true)]
  }

  /** How a tick ends: it commits, or it fails after publishing `after` messages of its batch (a publish,
      an update or the commit is refused), or it commits and is told otherwise. */
  datatype Outcome = Commits | FailsAfter(published: nat) | CommitLost

  /** Table, broker log and error of one tick. */
  function Tick(rows: seq<Row>, broker: seq<Message>, limit: nat, o: Outcome): (seq<Row>, seq<Message>, bool) {
    var batch := Select(rows, limit);
    match o
    case FailsAfter(n) => (rows, broker + Messages(rows, batch)[..if n < |batch| then n else |batch|], true)
    case Commits => (Marked(rows, batch), broker + Messages(rows, batch), false)
    case CommitLost => (Marked(rows, batch), broker + Messages(rows, batch), true)
  }

  lemma {:induction false} MessagesAt(rows: seq<Row>, batch: seq<nat>, k: nat)
    requires Positions(rows, batch) && k < |batch|
    ensures Messages(rows, batch)[k] == rows[batch[k]].msg
  {
    if k < |batch| - 1 { MessagesAt(rows, batch[..|batch| - 1], k); }
  }

  /** Exactly the batch becomes published, and no message changes. */
  lemma {:induction false} MarkedAt(rows: seq<Row>, batch: seq<nat>, i: nat)
    requires Positions(rows, batch) && i < |rows|
    ensures Marked(rows, batch)[i] == rows[i].(published := rows[i].published || i in batch)
  {
    if batch != [] {
      MarkedAt(rows, batch[..|batch| - 1], i);
      assert batch == batch[..|batch| - 1] + [batch[|batch| - 1]];
    }
  }

  lemma {:induction false} MarkedKeepsMessages(rows: seq<Row>, batch: seq<nat>, i: nat)
    requires Positions(rows, batch) && i < |rows|
    ensures Marked(rows, batch)[i].msg == rows[i].msg
  {
    MarkedAt(rows, batch, i);
  }

  class Relay {
    var rows: seq<Row>
    var broker: seq<Message>

    /** The selection `tick` starts with. */
    method Query(limit: nat) returns (batch: seq<nat>)
      ensures batch == Select(rows, limit)
    {
      batch := [];
      for i := 0 to |rows|
        invariant batch == Select(rows[..i], limit)
      {
        assert rows[..i + 1][..i] == rows[..i];
        if |batch| < limit && !rows[i].published { batch := batch + [i]; }
      }
      assert rows[..|rows|] == rows;
    }

    /** The loop of `tick`: publish and mark the rows of the batch one by one, up to the one that fails. */
    method PublishBatch(batch: seq<nat>, o: Outcome) returns (failed: bool)
      requires Positions(rows, batch)
      modifies this
      ensures failed <==> o.FailsAfter? && o.published < |batch|
      ensures broker == old(broker) + Messages(old(rows), batch)[..if failed then o.published else |batch|]
      ensures !failed ==> rows == Marked(old(rows), batch)
    {
      var before := rows;
      for k := 0 to |batch|
        invariant rows == Marked(before, batch[..k])
        invariant broker == old(broker) + Messages(before, batch)[..k]
        invariant o.FailsAfter? ==> k <= o.published
      {
        if o == FailsAfter(k) {
          return true;
        }
        MessagesAt(before, batch, k);
        MarkedKeepsMessages(before, batch[..k], batch[k]);
        broker := broker + [rows[batch[k]].msg];
        rows := rows[batch[k] := rows[batch[k]].(published := true)];
        assert batch[..k + 1][..k] == batch[..k];
      }
      assert batch[..|batch|] == batch;
      return false;
    }

    /** `tick`: select a batch, publish and mark it, then commit; an error on the way rolls the marks back
        but cannot take published messages back. */
    method DoTick(configured: int, o: Outcome) returns (failed: bool)
      modifies this
      ensures (rows, broker, failed) == Tick(old(rows), old(broker), BatchSize(configured), o)
    {
      var batch := Query(BatchSize(configured));
      var before := rows;
      var stopped := PublishBatch(batch, o);
      assert Messages(before, batch)[..|batch|] == Messages(before, batch);
      if stopped || o.FailsAfter? {
        rows := before;
        return true;
      }
      return o.CommitLost?;
    }
  }

  // ----- Runs of one relay -----

  datatype State = State(rows: seq<Row>, broker: seq<Message>)

  datatype Step =
    | Enqueue(msg: Message, at: nat)          // the row's place; `created_at` is taken before the commit
    | TickStep(configured: int, o: Outcome)   // an erring tick ends `Run`, which is then started again

  /** The primary key refuses a second row with the same id. */
  predicate Accepts(rows: seq<Row>, m: Message, at: nat) {
    at <= |rows| && !exists i :: 0 <= i < |rows| && rows[i].msg.id == m.id
  }

  function With(rows: seq<Row>, m: Message, at: nat): seq<Row>
    requires at <= |rows|
  {
    rows[..at] + [Row(m, false)] + rows[at..]
  }

  function Next(s: State, step: Step): State {
    match step
    case Enqueue(m, at) => if Accepts(s.rows, m, at) then s.(rows := With(s.rows, m, at)) else s
    case TickStep(configured, o) =>
      var (rows, broker, _) := Tick(s.rows, s.broker, BatchSize(configured), o);
      State(rows, broker)
  }

  /** A message enters the table unpublished, at its place, exactly if no row has its id; the rest keeps its order. */
  lemma {:induction false} EnqueueMeans(s: State, m: Message, at: nat)
    requires at <= |s.rows|
    ensures var t := Next(s, Enqueue(m, at));
            && t.broker == s.broker
            && (if forall i :: 0 <= i < |s.rows| ==> s.rows[i].msg.id != m.id
                then && |t.rows| == |s.rows| + 1 && t.rows[at] == Row(m, false)
                     && t.rows[..at] == s.rows[..at] && t.rows[at + 1..] == s.rows[at..]
                else t.rows == s.rows)
  {
  }

  function Run(s: State, steps: seq<Step>): State {
    if steps == [] then s else Next(Run(s, steps[..|steps| - 1]), steps[|steps| - 1])
  }

  const EMPTY := State([], [])

  /** The outbox order. */
  function Order(rows: seq<Row>): (ms: seq<Message>)
    ensures |ms| == |rows| && forall i :: 0 <= i < |rows| ==> ms[i] == rows[i].msg
  {
    seq(|rows|, i requires 0 <= i < |rows| => rows[i].msg)
  }

  /** The log with every repeat of an earlier message dropped. */
  function Dedup(log: seq<Message>): seq<Message> {
    if log == [] then []
    else
      var d := Dedup(log[..|log| - 1]);
      if log[|log| - 1] in d then d else d + [log[|log| - 1]]
  }

  // ----- The invariant -----

  predicate Differ(ms: seq<Message>, i: nat, j: nat)
    requires i < |ms| && j < |ms|
  {
    ms[i].id != ms[j].id
  }

  ghost predicate Unique(ms: seq<Message>) {
    forall i: nat, j: nat :: i < j < |ms| ==> Differ(ms, i, j)
  }

  /** The first `k` rows are the published ones. */
  ghost predicate MarkedUpTo(rows: seq<Row>, k: nat) {
    k <= |rows| && forall i :: 0 <= i < |rows| ==> (rows[i].published <==> i < k)
  }

  /** `p` messages have ever been published. */
  ghost predicate Good(s: State, k: nat, p: nat) {
    && k <= p <= |s.rows| && Unique(Order(s.rows)) && MarkedUpTo(s.rows, k)
    && Dedup(s.broker) == Order(s.rows)[..p]
  }

  function Min(x: nat, y: nat): nat {
    if x < y then x else y
  }

  lemma {:induction false} SelectAfterMarks(rows: seq<Row>, limit: nat, k: nat)
    requires forall i :: 0 <= i < |rows| ==> (rows[i].published <==> i < k)
    ensures var s := Select(rows, limit);
            |s| == (if |rows| <= k then 0 else Min(limit, |rows| - k)) && forall i :: 0 <= i < |s| ==> s[i] == k + i
  {
    if rows != [] {
      SelectAfterMarks(rows[..|rows| - 1], limit, k);
    }
  }

  lemma {:induction false} DedupSnoc(log: seq<Message>, m: Message)
    ensures Dedup(log + [m]) == if m in Dedup(log) then Dedup(log) else Dedup(log) + [m]
  {
    assert (log + [m])[..|log|] == log;
  }

  function Max(x: nat, y: nat): nat {
    if x < y then y else x
  }

  /** Publishing a message no later than the first one never published. */
  lemma {:induction false} PublishNext(broker: seq<Message>, ms: seq<Message>, p: nat, j: nat)
    requires Unique(ms) && j <= p <= |ms| && j < |ms| && Dedup(broker) == ms[..p]
    ensures Dedup(broker + [ms[j]]) == ms[..Max(p, j + 1)]
  {
    DedupSnoc(broker, ms[j]);
    if j == p {
      forall i | 0 <= i < p ensures ms[i] != ms[j] {
        assert Differ(ms, i, j);
      }
      assert ms[..p + 1] == ms[..p] + [ms[p]];
    } else {
      assert ms[..p][j] == ms[j];
    }
  }

  /** The log after publishing `n` messages in order, from message `k` on. */
  function Extended(log: seq<Message>, ms: seq<Message>, k: nat, n: nat): seq<Message>
    requires k + n <= |ms|
  {
    if n == 0 then log else Extended(log, ms, k, n - 1) + [ms[k + n - 1]]
  }

  lemma {:induction false} ExtendedIsSlice(log: seq<Message>, ms: seq<Message>, k: nat, n: nat)
    requires k + n <= |ms|
    ensures Extended(log, ms, k, n) == log + ms[k..k + n]
  {
    if n > 0 {
      ExtendedIsSlice(log, ms, k, n - 1);
      assert ms[k..k + n] == ms[k..k + n - 1] + [ms[k + n - 1]];
    }
  }

  lemma {:induction false} ExtendedDedup(log: seq<Message>, ms: seq<Message>, p: nat, k: nat, n: nat)
    requires Unique(ms) && k <= p <= |ms| && k + n <= |ms| && Dedup(log) == ms[..p]
    ensures Dedup(Extended(log, ms, k, n)) == ms[..Max(p, k + n)]
  {
    if n > 0 {
      ExtendedDedup(log, ms, p, k, n - 1);
      PublishNext(Extended(log, ms, k, n - 1), ms, Max(p, k + n - 1), k + n - 1);
    }
  }

  /** Publishing `n` messages in order, from one no later than the first never published. */
  lemma {:induction false} PublishRange(broker: seq<Message>, ms: seq<Message>, p: nat, k: nat, n: nat)
    requires Unique(ms) && k <= p <= |ms| && k + n <= |ms| && Dedup(broker) == ms[..p]
    ensures Dedup(broker + ms[k..k + n]) == ms[..Max(p, k + n)]
  {
    ExtendedDedup(broker, ms, p, k, n);
    ExtendedIsSlice(broker, ms, k, n);
  }

  lemma {:induction false} OrderOfMarked(rows: seq<Row>, batch: seq<nat>)
    requires Positions(rows, batch)
    ensures Order(Marked(rows, batch)) == Order(rows)
  {
    forall i | 0 <= i < |rows| ensures Marked(rows, batch)[i].msg == rows[i].msg {
      MarkedKeepsMessages(rows, batch, i);
    }
  }

  /** The messages of a batch of consecutive rows. */
  lemma {:induction false} ConsecutiveMessages(rows: seq<Row>, batch: seq<nat>, k: nat)
    requires Positions(rows, batch) && k + |batch| <= |rows| && forall i :: 0 <= i < |batch| ==> batch[i] == k + i
    ensures Messages(rows, batch) == Order(rows)[k..k + |batch|]
  {
    var ms := Messages(rows, batch);
    forall i | 0 <= i < |batch| ensures ms[i] == Order(rows)[k + i] {
      MessagesAt(rows, batch, i);
    }
    SameSlice(ms, Order(rows), k, |batch|);
  }

  lemma {:induction false} BatchMessages(rows: seq<Row>, limit: nat, k: nat)
    requires MarkedUpTo(rows, k)
    ensures Messages(rows, Select(rows, limit)) == Order(rows)[k..k + Min(limit, |rows| - k)]
  {
    SelectAfterMarks(rows, limit, k);
    ConsecutiveMessages(rows, Select(rows, limit), k);
  }

  lemma {:induction false} SameSlice(xs: seq<Message>, ys: seq<Message>, k: nat, n: nat)
    requires k + n <= |ys| && |xs| == n && forall i :: 0 <= i < n ==> xs[i] == ys[k + i]
    ensures xs == ys[k..k + n]
  {
  }

  lemma {:induction false} BatchMarks(rows: seq<Row>, limit: nat, k: nat)
    requires MarkedUpTo(rows, k)
    ensures MarkedUpTo(Marked(rows, Select(rows, limit)), k + Min(limit, |rows| - k))
  {
    SelectAfterMarks(rows, limit, k);
    var s := Select(rows, limit);
    forall i | 0 <= i < |rows|
      ensures Marked(rows, s)[i].published <==> i < k + |s|
    {
      MarkedAt(rows, s, i);
      if k <= i < k + |s| { assert s[i - k] == i; }
    }
  }

  lemma {:induction false} SliceSlice(ms: seq<Message>, k: nat, n: nat, m: nat)
    requires m <= n && k + n <= |ms|
    ensures ms[k..k + n][..m] == ms[k..k + m]
  {
  }

  /** A tick publishes `n` messages from the first unmarked one on, and marks none or all of them. */
  ghost predicate TickFrom(s: State, k: nat, after: State, n: nat, k': nat) {
    && k <= k' <= k + n <= |s.rows| == |after.rows|
    && after.broker == s.broker + Order(s.rows)[k..k + n]
    && Order(after.rows) == Order(s.rows) && MarkedUpTo(after.rows, k')
  }

  lemma {:induction false} FailedTick(s: State, k: nat, configured: int, published: nat) returns (n: nat)
    requires MarkedUpTo(s.rows, k)
    ensures TickFrom(s, k, Next(s, TickStep(configured, FailsAfter(published))), n, k)
  {
    BatchMessages(s.rows, BatchSize(configured), k);
    var batch := Min(BatchSize(configured), |s.rows| - k);
    n := Min(published, batch);
    SliceSlice(Order(s.rows), k, batch, n);
  }

  lemma {:induction false} BatchEffect(rows: seq<Row>, limit: nat, k: nat) returns (after: seq<Row>, ms: seq<Message>)
    requires MarkedUpTo(rows, k)
    ensures after == Marked(rows, Select(rows, limit)) && ms == Messages(rows, Select(rows, limit))
    ensures var n := Min(limit, |rows| - k);
            |after| == |rows| && ms == Order(rows)[k..k + n] && Order(after) == Order(rows) && MarkedUpTo(after, k + n)
  {
    BatchMessages(rows, limit, k);
    BatchMarks(rows, limit, k);
    OrderOfMarked(rows, Select(rows, limit));
    after, ms := Marked(rows, Select(rows, limit)), Messages(rows, Select(rows, limit));
  }

  lemma {:induction false} CommittedTick(s: State, k: nat, configured: int, o: Outcome)
    requires MarkedUpTo(s.rows, k) && !o.FailsAfter?
    ensures var n := Min(BatchSize(configured), |s.rows| - k);
            TickFrom(s, k, Next(s, TickStep(configured, o)), n, k + n)
  {
    var after, ms := BatchEffect(s.rows, BatchSize(configured), k);
    assert Next(s, TickStep(configured, o)) == State(after, s.broker + ms);
  }

  lemma {:induction false} TickFromKeepsGood(s: State, k: nat, p: nat, after: State, n: nat, k': nat)
    requires Good(s, k, p) && TickFrom(s, k, after, n, k')
    ensures Good(after, k', Max(p, k + n))
  {
    PublishRange(s.broker, Order(s.rows), p, k, n);
  }

  lemma {:induction false} TickKeepsGood(s: State, k: nat, p: nat, configured: int, o: Outcome)
    returns (after: State, k': nat, p': nat)
    requires Good(s, k, p)
    ensures after == Next(s, TickStep(configured, o)) && Good(after, k', p') && k <= k' && p <= p'
    ensures Order(after.rows) == Order(s.rows)
    ensures !o.FailsAfter? ==> k' == k + Min(BatchSize(configured), |s.rows| - k)
  {
    after := Next(s, TickStep(configured, o));
    var n: nat;
    if o.FailsAfter? {
      n := FailedTick(s, k, configured, o.published);
      k' := k;
    } else {
      CommittedTick(s, k, configured, o);
      n := Min(BatchSize(configured), |s.rows| - k);
      k' := k + n;
    }
    TickFromKeepsGood(s, k, p, after, n, k');
    p' := Max(p, k + n);
  }

  lemma {:induction false} WithKeepsUnique(rows: seq<Row>, m: Message, at: nat)
    requires Unique(Order(rows)) && Accepts(rows, m, at)
    ensures Unique(Order(With(rows, m, at)))
  {
    var after := With(rows, m, at);
    forall i: nat, j: nat | i < j < |after|
      ensures Differ(Order(after), i, j)
    {
      var i', j' := if i < at then i else i - 1, if j < at then j else j - 1;
      assert i != at ==> after[i] == rows[i'];
      assert j != at ==> after[j] == rows[j'];
      if i != at && j != at { assert Differ(Order(rows), i', j'); }
    }
  }

  /** A row that takes its place behind every published one. */
  lemma {:induction false} EnqueueKeepsGood(s: State, k: nat, p: nat, m: Message, at: nat)
    requires Good(s, k, p) && Accepts(s.rows, m, at) && p <= at
    ensures Good(s.(rows := With(s.rows, m, at)), k, p)
  {
    var after := With(s.rows, m, at);
    WithKeepsUnique(s.rows, m, at);
    assert forall i :: 0 <= i < at ==> after[i] == s.rows[i];
    assert forall i :: at < i < |after| ==> after[i] == s.rows[i - 1];
    assert Order(after)[..p] == Order(s.rows)[..p];
  }

  /** The messages ever published, without repeats, are a prefix of the outbox order. */
  ghost predicate InOrder(s: State) {
    Dedup(s.broker) <= Order(s.rows)
  }

  /** A row that takes its place before a published one breaks the order. */
  lemma {:induction false} LateRowBreaksOrder(s: State, k: nat, p: nat, m: Message, at: nat)
    requires Good(s, k, p) && Accepts(s.rows, m, at) && at < p
    ensures !InOrder(s.(rows := With(s.rows, m, at)))
  {
    var after := With(s.rows, m, at);
    assert after[at].msg == m && Order(after)[at] == m;
    assert Dedup(s.broker)[at] == s.rows[at].msg != m;
  }

  /** No accepted row ever takes its place before a published one. */
  ghost predicate Timely(steps: seq<Step>) {
    steps == [] ||
    (var front, step := steps[..|steps| - 1], steps[|steps| - 1];
     && Timely(front)
     && (step.Enqueue? && Accepts(Run(EMPTY, front).rows, step.msg, step.at) ==>
         |Dedup(Run(EMPTY, front).broker)| <= step.at))
  }

  /** The order holds at every moment of the run. */
  ghost predicate AlwaysInOrder(steps: seq<Step>) {
    InOrder(Run(EMPTY, steps)) && (steps != [] ==> AlwaysInOrder(steps[..|steps| - 1]))
  }

  // ----- Main results -----

  /** One relay, order. Over every timely run of enqueues and of ticks that may fail anywhere, the
      messages ever published are a prefix of the outbox order, the broker's log with repeats dropped is
      exactly that prefix, and the rows marked published are a shorter prefix: nothing is marked
      unpublished. */
  lemma {:induction false} PublishedInOrder(steps: seq<Step>) returns (k: nat, p: nat)
    requires Timely(steps)
    ensures var s := Run(EMPTY, steps);
            && k <= p <= |s.rows|
            && Dedup(s.broker) == Order(s.rows)[..p]
            && MarkedUpTo(s.rows, k)
            && Good(s, k, p)
  {
    if steps == [] {
      k, p := 0, 0;
    } else {
      var s, step := Run(EMPTY, steps[..|steps| - 1]), steps[|steps| - 1];
      k, p := PublishedInOrder(steps[..|steps| - 1]);
      match step
      case Enqueue(m, at) => if Accepts(s.rows, m, at) { EnqueueKeepsGood(s, k, p, m, at); }
      case TickStep(configured, o) =>
        var after;
        after, k, p := TickKeepsGood(s, k, p, configured, o);
    }
  }

  /** Exactly those: the order holds at every moment of a run if and only if the run is timely. */
  lemma {:induction false} InOrderIffTimely(steps: seq<Step>)
    ensures AlwaysInOrder(steps) <==> Timely(steps)
  {
    if Timely(steps) { var k, p := PublishedInOrder(steps); }
    if steps != [] {
      var front, step := steps[..|steps| - 1], steps[|steps| - 1];
      InOrderIffTimely(front);
      if Timely(front) && !Timely(steps) {
        var k, p := PublishedInOrder(front);
        LateRowBreaksOrder(Run(EMPTY, front), k, p, step.msg, step.at);
      }
    }
  }

  /** The condition is needed: two messages, the second with the earlier `created_at` but committed after the
      first was published. */
  lemma {:induction false} LateMessage(first: Message, second: Message) returns (steps: seq<Step>)
    requires first.id != second.id
    ensures steps == [Enqueue(first, 0), TickStep(1, Commits), Enqueue(second, 0)]
    ensures !AlwaysInOrder(steps) && !Timely(steps)
  {
    var front := [Enqueue(first, 0)];
    assert front[..0] == [] && Run(EMPTY, front).rows == [Row(first, false)];
    RunSnoc(EMPTY, front, TickStep(1, Commits));
    PublishOnly(first);
    front := front + [TickStep(1, Commits)];
    RunSnoc(EMPTY, front, Enqueue(second, 0));
    var s := Run(EMPTY, front);
    assert Dedup(s.broker) == [first] by { DedupSnoc([], first); assert [] + [first] == [first]; }
    steps := front + [Enqueue(second, 0)];
    assert Order(Run(EMPTY, steps).rows)[0] == second;
    InOrderIffTimely(steps);
  }

  lemma {:induction false} PublishOnly(m: Message)
    ensures Tick([Row(m, false)], [], BatchSize(1), Commits) == ([Row(m, true)], [m], false)
  {
    var rows := [Row(m, false)];
    assert rows[..0] == [] && Select(rows, 1) == [0];
    var batch: seq<nat> := [0];
    assert batch[..0] == [];
    assert Messages(rows, batch) == [m] && Marked(rows, batch) == [Row(m, true)];
  }

  /** `t` ticks that commit. */
  function Ticks(configured: int, t: nat): seq<Step> {
    if t == 0 then [] else Ticks(configured, t - 1) + [TickStep(configured, Commits)]
  }

  lemma {:induction false} RunSnoc(s: State, steps: seq<Step>, step: Step)
    ensures Run(s, steps + [step]) == Next(Run(s, steps), step)
  {
    assert (steps + [step])[..|steps|] == steps;
  }

  /** How far `t` such ticks get from `k` in a table of `n` rows. */
  function Reached(k: nat, n: nat, batch: nat, t: nat): (r: nat)
    requires k <= n
    ensures k <= r <= n
  {
    if t == 0 then k else var r := Reached(k, n, batch, t - 1); r + Min(batch, n - r)
  }

  lemma {:induction false} ReachedIsProduct(k: nat, n: nat, batch: nat, t: nat)
    requires k <= n
    ensures Reached(k, n, batch, t) == k + Min(n - k, t * batch)
  {
    if t > 0 {
      ReachedIsProduct(k, n, batch, t - 1);
      assert t * batch == (t - 1) * batch + batch;
    }
  }

  lemma {:induction false} OneMoreTick(s: State, configured: int, t: nat, mid: State, k: nat, p: nat)
    returns (after: State, p': nat)
    requires t > 0 && mid == Run(s, Ticks(configured, t - 1)) && Good(mid, k, p)
    ensures after == Run(s, Ticks(configured, t)) && Order(after.rows) == Order(mid.rows)
    ensures Good(after, k + Min(BatchSize(configured), |mid.rows| - k), p')
  {
    RunSnoc(s, Ticks(configured, t - 1), TickStep(configured, Commits));
    var k';
    after, k', p' := TickKeepsGood(mid, k, p, configured, Commits);
  }

  lemma {:induction false} TicksReach(s: State, k: nat, p: nat, configured: int, t: nat) returns (after: State, q: nat)
    requires Good(s, k, p)
    ensures after == Run(s, Ticks(configured, t)) && Order(after.rows) == Order(s.rows)
    ensures Good(after, Reached(k, |s.rows|, BatchSize(configured), t), q)
    decreases t
  {
    if t == 0 {
      after, q := s, p;
    } else {
      after, q := TicksReach(s, k, p, configured, t - 1);
      assert |after.rows| == |Order(after.rows)| == |s.rows|;
      after, q := OneMoreTick(s, configured, t, after, Reached(k, |s.rows|, BatchSize(configured), t - 1), q);
    }
  }

  /** One relay, drain in order. From any state of a timely run, `t` ticks that commit, with no new
      message meanwhile, mark the first `min(n, t * batch)` of the `n` waiting messages. */
  lemma {:induction false} OrderedDrain(s: State, k: nat, p: nat, configured: int, t: nat) returns (q: nat)
    requires Good(s, k, p)
    ensures Order(Run(s, Ticks(configured, t)).rows) == Order(s.rows)
    ensures Good(Run(s, Ticks(configured, t)), k + Min(|s.rows| - k, t * BatchSize(configured)), q)
  {
    var after;
    after, q := TicksReach(s, k, p, configured, t);
    ReachedIsProduct(k, |s.rows|, BatchSize(configured), t);
  }

  // ----- Drain from any table -----

  /** How many of the first `n` rows are not published. */
  function WaitingTo(rows: seq<Row>, n: nat): nat
    requires n <= |rows|
  {
    if n == 0 then 0 else WaitingTo(rows, n - 1) + if rows[n - 1].published then 0 else 1
  }

  function Waiting(rows: seq<Row>): nat {
    WaitingTo(rows, |rows|)
  }

  /** The query returns unpublished rows. */
  lemma {:induction false} SelectIsFree(rows: seq<Row>, limit: nat, k: nat)
    requires k < |Select(rows, limit)|
    ensures !rows[Select(rows, limit)[k]].published
  {
    var n := |rows| - 1;
    var s := Select(rows[..n], limit);
    if k < |s| {
      SelectIsFree(rows[..n], limit, k);
      assert s[k] < n;
    }
  }

  /** It returns them in order, each once. */
  lemma {:induction false} SelectIncreases(rows: seq<Row>, limit: nat, j: nat, k: nat)
    requires j < k < |Select(rows, limit)|
    ensures Select(rows, limit)[j] < Select(rows, limit)[k]
  {
    var n := |rows| - 1;
    var s := Select(rows[..n], limit);
    if k < |s| {
      SelectIncreases(rows[..n], limit, j, k);
    } else {
      assert s[j] < n;
    }
  }

  lemma {:induction false} WaitingPrefix(rows: seq<Row>, m: nat, n: nat)
    requires n <= m <= |rows|
    ensures WaitingTo(rows[..m], n) == WaitingTo(rows, n)
  {
    if n > 0 { WaitingPrefix(rows, m, n - 1); }
  }

  lemma {:induction false} WaitingSnoc(rows: seq<Row>)
    requires rows != []
    ensures Waiting(rows) == Waiting(rows[..|rows| - 1]) + if rows[|rows| - 1].published then 0 else 1
  {
    WaitingPrefix(rows, |rows| - 1, |rows| - 1);
  }

  lemma {:induction false} SelectSize(rows: seq<Row>, limit: nat)
    ensures |Select(rows, limit)| == Min(limit, Waiting(rows))
  {
    if rows != [] {
      SelectSize(rows[..|rows| - 1], limit);
      WaitingSnoc(rows);
    }
  }

  /** Exactly which rows a query returns: an unpublished row with fewer than `limit` unpublished ones before it. */
  lemma {:induction false} SelectIff(rows: seq<Row>, limit: nat, i: nat)
    requires i < |rows|
    ensures i in Select(rows, limit) <==> !rows[i].published && WaitingTo(rows, i) < limit
  {
    var n := |rows| - 1;
    var front := rows[..n];
    var s := Select(front, limit);
    if i < n {
      SelectIff(front, limit, i);
      WaitingPrefix(rows, n, i);
      assert front[i] == rows[i];
    } else {
      SelectSize(front, limit);
      WaitingPrefix(rows, n, n);
      assert Positions(front, s) && n !in s;
    }
  }

  /** And in which order: the one with `k` unpublished rows before it comes as number `k`. */
  lemma {:induction false} SelectAt(rows: seq<Row>, limit: nat, k: nat)
    requires k < |Select(rows, limit)|
    ensures !rows[Select(rows, limit)[k]].published && WaitingTo(rows, Select(rows, limit)[k]) == k
  {
    var n := |rows| - 1;
    var front := rows[..n];
    var s := Select(front, limit);
    if k < |s| {
      SelectAt(front, limit, k);
      WaitingPrefix(rows, n, s[k]);
      assert front[s[k]] == rows[s[k]];
    } else {
      SelectSize(front, limit);
      WaitingPrefix(rows, n, n);
    }
  }

  /** Message `m` waits in the table behind exactly `k` others. */
  ghost predicate WaitsAt(rows: seq<Row>, k: nat, m: Message) {
    exists i :: 0 <= i < |rows| && !rows[i].published && WaitingTo(rows, i) == k && rows[i].msg == m
  }

  /** Everything that one tick does, for every table. It publishes the waiting messages in order: as many as fit
      its limit, or as many as came before the failure. Exactly those within the limit are then marked, unless it
      fails; a commit that is lost on the way back marks them too. It reports an error exactly if it does not
      commit or is not told so. */
  lemma {:induction false} TickMeans(rows: seq<Row>, broker: seq<Message>, limit: nat, o: Outcome)
    ensures var (after, log, failed) := Tick(rows, broker, limit, o);
            var n := Min(limit, Waiting(rows));
            var sent := if o.FailsAfter? then Min(o.published, n) else n;
            && |after| == |rows| && |log| == |broker| + sent && broker <= log && (failed <==> o != Commits)
            && (forall k :: |broker| <= k < |log| ==> WaitsAt(rows, k - |broker|, log[k]))
            && (forall i :: 0 <= i < |rows| ==>
                  && after[i].msg == rows[i].msg
                  && (after[i].published <==> rows[i].published || (!o.FailsAfter? && WaitingTo(rows, i) < limit)))
  {
    var batch := Select(rows, limit);
    SelectSize(rows, limit);
    forall k | 0 <= k < |batch| ensures WaitsAt(rows, k, Messages(rows, batch)[k]) {
      SelectAt(rows, limit, k);
      MessagesAt(rows, batch, k);
    }
    forall i | 0 <= i < |rows|
      ensures Marked(rows, batch)[i].msg == rows[i].msg
      ensures Marked(rows, batch)[i].published <==> rows[i].published || WaitingTo(rows, i) < limit
    {
      MarkedAt(rows, batch, i);
      SelectIff(rows, limit, i);
    }
  }

  lemma {:induction false} MarkOne(rows: seq<Row>, i: nat, n: nat)
    requires i < |rows| && n <= |rows| && !rows[i].published
    ensures WaitingTo(rows[i := rows[i].(published := true)], n) == WaitingTo(rows, n) - if i < n then 1 else 0
  {
    if n > 0 { MarkOne(rows, i, n - 1); }
  }

  /** Marking distinct unpublished rows takes exactly that many off. */
  lemma {:induction false} MarkedWaiting(rows: seq<Row>, batch: seq<nat>)
    requires Positions(rows, batch)
    requires forall k :: 0 <= k < |batch| ==> !rows[batch[k]].published
    requires forall j, k :: 0 <= j < k < |batch| ==> batch[j] < batch[k]
    ensures Waiting(Marked(rows, batch)) == Waiting(rows) - |batch|
  {
    if batch != [] {
      var n := |batch| - 1;
      MarkedWaiting(rows, batch[..n]);
      MarkedAt(rows, batch[..n], batch[n]);
      MarkOne(Marked(rows, batch[..n]), batch[n], |rows|);
    }
  }

  lemma {:induction false} CommitDrains(rows: seq<Row>, limit: nat)
    ensures Waiting(Marked(rows, Select(rows, limit))) == Waiting(rows) - Min(limit, Waiting(rows))
  {
    var batch := Select(rows, limit);
    forall k | 0 <= k < |batch| ensures !rows[batch[k]].published {
      SelectIsFree(rows, limit, k);
    }
    forall j, k | 0 <= j < k < |batch| ensures batch[j] < batch[k] {
      SelectIncreases(rows, limit, j, k);
    }
    MarkedWaiting(rows, batch);
    SelectSize(rows, limit);
  }

  /** One relay, drain. From any table, whatever order its rows came in, `t` ticks that commit with no new
      message meanwhile leave `n - min(n, t * batch)` of the `n` waiting messages. */
  lemma {:induction false} Drain(s: State, configured: int, t: nat)
    ensures Waiting(Run(s, Ticks(configured, t)).rows)
         == Waiting(s.rows) - Min(Waiting(s.rows), t * BatchSize(configured))
  {
    DrainReach(s, configured, t);
    ReachedIsProduct(0, Waiting(s.rows), BatchSize(configured), t);
  }

  lemma {:induction false} DrainReach(s: State, configured: int, t: nat)
    ensures Waiting(Run(s, Ticks(configured, t)).rows)
         == Waiting(s.rows) - Reached(0, Waiting(s.rows), BatchSize(configured), t)
  {
    if t > 0 {
      DrainReach(s, configured, t - 1);
      RunSnoc(s, Ticks(configured, t - 1), TickStep(configured, Commits));
      CommitDrains(Run(s, Ticks(configured, t - 1)).rows, BatchSize(configured));
    }
  }
}
