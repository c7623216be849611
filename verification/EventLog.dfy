/** The append-only event table of one service and the queries on it. */
module EventLog {
  import opened Common

  /** One row. `sequence` is the identity column; gaps appear when inserts are rolled back. */
  datatype Row<D> = Row(sequence: nat, id: string, aggregateId: string, aggregateType: string, version: int, data: D)

  function LastSequence<D>(rows: seq<Row<D>>): nat {
    if rows == [] then 0 else rows[|rows| - 1].sequence
  }

  ghost predicate Ascending<D>(rows: seq<Row<D>>) {
    && (forall i :: 0 <= i < |rows| ==> 0 < rows[i].sequence)
    && (forall i, j :: 0 <= i < j < |rows| ==> rows[i].sequence < rows[j].sequence)
  }

  /** The primary key on `id` and the unique index on `(aggregate_id, version)`. */
  predicate Refuses<D>(rows: seq<Row<D>>, id: string, aggregateId: string, version: int) {
    exists i :: 0 <= i < |rows| &&
      (rows[i].id == id || (rows[i].aggregateId == aggregateId && rows[i].version == version))
  }

  /** An event to insert; `gap` counts the sequence numbers lost to rolled-back inserts before it. */
  datatype NewEvent<D> = NewEvent(id: string, aggregateId: string, version: int, data: D, gap: nat)

  /** The table after one insert, or nothing if an index refuses the row. */
  function Inserted<D>(rows: seq<Row<D>>, aggregateType: string, e: NewEvent<D>): Option<seq<Row<D>>> {
    if Refuses(rows, e.id, e.aggregateId, e.version) then None
    else Some(rows + [Row(LastSequence(rows) + 1 + e.gap, e.id, e.aggregateId, aggregateType, e.version, e.data)])
  }

  /** The table after inserting `events` in order. */
  function Appended<D>(rows: seq<Row<D>>, aggregateType: string, events: seq<NewEvent<D>>): Option<seq<Row<D>>>
    decreases |events|
  {
    if events == [] then Some(rows)
    else
      match Inserted(rows, aggregateType, events[0])
      case None => None
      case Some(table) => Appended(table, aggregateType, events[1..])
  }

  /** `Store.Append`: one insert per event, stopping at the first refusal (the transaction then rolls back). */
  method Append<D>(rows: seq<Row<D>>, aggregateType: string, events: seq<NewEvent<D>>)
    returns (out: Option<seq<Row<D>>>)
    ensures out == Appended(rows, aggregateType, events)
    ensures |events| == 1 ==> out == Inserted(rows, aggregateType, events[0])
  {
    var table := rows;
    for i := 0 to |events|
      invariant Appended(table, aggregateType, events[i..]) == Appended(rows, aggregateType, events)
    {
      var e := events[i];
      assert events[i..][1..] == events[i + 1..];
      if Refuses(table, e.id, e.aggregateId, e.version) { return None; }
      table := table + [Row(LastSequence(table) + 1 + e.gap, e.id, e.aggregateId, aggregateType, e.version, e.data)];
    }
    return Some(table);
  }

  /** Two events that the indexes do not admit together. */
  predicate Clash<D>(x: NewEvent<D>, y: NewEvent<D>) {
    x.id == y.id || (x.aggregateId == y.aggregateId && x.version == y.version)
  }

  /** Event `i` repeats a row of the table or an event before it. */
  predicate Repeats<D>(rows: seq<Row<D>>, events: seq<NewEvent<D>>, i: nat)
    requires i < |events|
  {
    || Refuses(rows, events[i].id, events[i].aggregateId, events[i].version)
    || exists j :: 0 <= j < i && Clash(events[j], events[i])
  }

  ghost predicate Holds<D>(row: Row<D>, aggregateType: string, e: NewEvent<D>) {
    && row.id == e.id && row.aggregateId == e.aggregateId && row.aggregateType == aggregateType
    && row.version == e.version && row.data == e.data
  }

  lemma {:induction false} RefusesMore<D>(rows: seq<Row<D>>, row: Row<D>, id: string, a: string, version: int)
    ensures Refuses(rows + [row], id, a, version) <==>
            Refuses(rows, id, a, version) || row.id == id || (row.aggregateId == a && row.version == version)
  {
    var all := rows + [row];
    assert all[|rows|] == row && forall i :: 0 <= i < |rows| ==> all[i] == rows[i];
  }

  lemma {:induction false} RepeatsRest<D>(rows: seq<Row<D>>, row: Row<D>, aggregateType: string,
                                          events: seq<NewEvent<D>>, i: nat)
    requires i + 1 < |events| && Holds(row, aggregateType, events[0])
    ensures Repeats(rows + [row], events[1..], i) <==> Repeats(rows, events, i + 1)
  {
    var e, rest := events[i + 1], events[1..];
    RefusesMore(rows, row, e.id, e.aggregateId, e.version);
    if j :| 0 <= j < i && Clash(rest[j], e) { assert Clash(events[j + 1], e); }
    if j :| 0 <= j < i + 1 && Clash(events[j], e) {
      if j > 0 { assert Clash(rest[j - 1], e); }
    }
  }

  /** An append fails exactly if one of its events repeats an id, or an aggregate's version, of the table or
      of an event before it. */
  lemma {:induction false} AppendFailsIff<D>(rows: seq<Row<D>>, aggregateType: string, events: seq<NewEvent<D>>)
    ensures Appended(rows, aggregateType, events).None? <==> exists i :: 0 <= i < |events| && Repeats(rows, events, i)
    decreases |events|
  {
    if events != [] && !Repeats(rows, events, 0) {
      var e := events[0];
      var row := Row(LastSequence(rows) + 1 + e.gap, e.id, e.aggregateId, aggregateType, e.version, e.data);
      AppendFailsIff(rows + [row], aggregateType, events[1..]);
      forall i | 0 <= i < |events| - 1
        ensures Repeats(rows + [row], events[1..], i) <==> Repeats(rows, events, i + 1)
      {
        RepeatsRest(rows, row, aggregateType, events, i);
      }
      if i :| 0 <= i < |events| && Repeats(rows, events, i) {
        assert Repeats(rows + [row], events[1..], i - 1);
      }
    }
  }

  /** And otherwise it adds exactly one row for each event, in order, behind the table and above its sequence. */
  lemma {:induction false} AppendAdds<D>(rows: seq<Row<D>>, aggregateType: string, events: seq<NewEvent<D>>)
    requires Appended(rows, aggregateType, events).Some?
    ensures var table := Appended(rows, aggregateType, events).value;
            && |table| == |rows| + |events| && table[..|rows|] == rows
            && (forall i :: 0 <= i < |events| ==> Holds(table[|rows| + i], aggregateType, events[i]))
            && (Ascending(rows) ==> Ascending(table))
    decreases |events|
  {
    if events != [] {
      var e := events[0];
      var row := Row(LastSequence(rows) + 1 + e.gap, e.id, e.aggregateId, aggregateType, e.version, e.data);
      var table := Appended(rows, aggregateType, events).value;
      AppendAdds(rows + [row], aggregateType, events[1..]);
      if Ascending(rows) { AscendingAppend(rows, row); }
      assert table[..|rows|] == table[..|rows| + 1][..|rows|];
      forall i | 0 <= i < |events|
        ensures Holds(table[|rows| + i], aggregateType, events[i])
      {
        if i == 0 {
          assert table[|rows|] == table[..|rows| + 1][|rows|] == row;
        } else {
          assert Holds(table[|rows + [row]| + (i - 1)], aggregateType, events[1..][i - 1]);
        }
      }
    }
  }

  lemma {:induction false} AscendingAppend<D>(rows: seq<Row<D>>, r: Row<D>)
    requires Ascending(rows) && LastSequence(rows) < r.sequence
    ensures Ascending(rows + [r])
  {
  }

  /** The rows of one aggregate, in the order they were inserted. */
  function Stream<D>(rows: seq<Row<D>>, a: string): seq<Row<D>> {
    if rows == [] then []
    else
      var last := rows[|rows| - 1];
      Stream(rows[..|rows| - 1], a) + if last.aggregateId == a then [last] else []
  }

  lemma {:induction false} StreamMember<D>(rows: seq<Row<D>>, a: string, i: nat)
    requires i < |Stream(rows, a)|
    ensures Stream(rows, a)[i] in rows && Stream(rows, a)[i].aggregateId == a
  {
    if i < |Stream(rows[..|rows| - 1], a)| { StreamMember(rows[..|rows| - 1], a, i); }
  }

  lemma {:induction false} StreamAppend<D>(rows: seq<Row<D>>, r: Row<D>, a: string)
    ensures r.aggregateId == a ==> Stream(rows + [r], a) == Stream(rows, a) + [r]
    ensures r.aggregateId != a ==> Stream(rows + [r], a) == Stream(rows, a)
  {
    assert (rows + [r])[..|rows|] == rows;
  }

  lemma {:induction false} StreamConcat<D>(xs: seq<Row<D>>, ys: seq<Row<D>>, a: string)
    ensures Stream(xs + ys, a) == Stream(xs, a) + Stream(ys, a)
  {
    if ys == [] {
      assert xs + ys == xs;
    } else {
      var front, last := ys[..|ys| - 1], ys[|ys| - 1];
      assert xs + ys == (xs + front) + [last] && ys == front + [last];
      StreamConcat(xs, front, a);
      StreamAppend(xs + front, last, a);
      StreamAppend(front, last, a);
    }
  }

  lemma {:induction false} StreamHasAll<D>(rows: seq<Row<D>>, i: nat)
    requires i < |rows|
    ensures rows[i] in Stream(rows, rows[i].aggregateId)
  {
    var front, last := rows[..|rows| - 1], rows[|rows| - 1];
    if i < |front| {
      assert front[i] == rows[i];
      StreamHasAll(front, i);
    } else {
      var s := Stream(rows, last.aggregateId);
      assert s[|s| - 1] == last;
    }
  }

  /** `order by version asc`, one row at a time: the least version above `v`. */
  function SmallestAfter<D>(rows: seq<Row<D>>, a: string, v: int): Option<Row<D>> {
    if rows == [] then None
    else
      var best := SmallestAfter(rows[..|rows| - 1], a, v);
      var last := rows[|rows| - 1];
      if last.aggregateId == a && v < last.version && (best.None? || last.version < best.value.version)
      then Some(last) else best
  }

  lemma {:induction false} SmallestAfterIsLeast<D>(rows: seq<Row<D>>, a: string, v: int)
    ensures match SmallestAfter(rows, a, v)
            case None => forall x :: x in rows && x.aggregateId == a ==> x.version <= v
            case Some(r) => r in rows && r.aggregateId == a && v < r.version
                            && forall x :: x in rows && x.aggregateId == a && v < x.version ==> r.version <= x.version
  {
    if rows != [] {
      SmallestAfterIsLeast(rows[..|rows| - 1], a, v);
      assert rows == rows[..|rows| - 1] + [rows[|rows| - 1]];
    }
  }

  function ReadFrom<D>(rows: seq<Row<D>>, a: string, v: int, limit: nat): seq<Row<D>>
    decreases limit, |rows|
  {
    if limit == 0 then []
    else
      match SmallestAfter(rows, a, v)
      case None => []
      case Some(r) => [r] + ReadFrom(rows, a, r.version, limit - 1)
  }

  /** The limit both queries use when the caller passes none. */
  function EffectiveLimit(limit: int): (n: nat)
    ensures n > 0 && (n == limit || (limit <= 0 && n == 1000))
  {
    if limit <= 0 then 1000 else limit
  }

  /** `Store.Read`: a query ordered by version, whose rows are scanned into `out`. */
  method Read<D>(rows: seq<Row<D>>, a: string, fromExclusive: int, limit: int) returns (out: seq<Row<D>>)
    ensures out == ReadFrom(rows, a, fromExclusive, EffectiveLimit(limit))
  {
    var left: nat := EffectiveLimit(limit);
    ghost var want := ReadFrom(rows, a, fromExclusive, left);
    var v := fromExclusive;
    out := [];
    var next := SmallestAfter(rows, a, v);
    while left > 0 && next.Some?
      invariant next == SmallestAfter(rows, a, v)
      invariant want == out + ReadFrom(rows, a, v, left)
      decreases left
    {
      v := next.value.version;
      left := left - 1;
      assert want == out + ([next.value] + ReadFrom(rows, a, v, left));
      out := out + [next.value];
      next := SmallestAfter(rows, a, v);
    }
  }

  /** How many rows a cursor has passed. */
  function Passed<D>(rows: seq<Row<D>>, cursor: nat): (p: nat)
    ensures p <= |rows|
  {
    if rows == [] || rows[0].sequence > cursor then 0 else 1 + Passed(rows[1..], cursor)
  }

  /** In a table ordered by sequence, exactly the rows before `Passed` are at or below the cursor. */
  lemma {:induction false} PassedSplits<D>(rows: seq<Row<D>>, cursor: nat)
    requires Ascending(rows)
    ensures forall i :: 0 <= i < |rows| ==> (i < Passed(rows, cursor) <==> rows[i].sequence <= cursor)
  {
    if rows != [] && rows[0].sequence <= cursor {
      PassedSplits(rows[1..], cursor);
      forall i | 0 <= i < |rows|
        ensures i < Passed(rows, cursor) <==> rows[i].sequence <= cursor
      {
        if i > 0 { assert rows[i] == rows[1..][i - 1]; }
      }
    }
  }

  /** The end of the batch of at most `limit` rows that follows row `p`. */
  function BatchEnd<D>(rows: seq<Row<D>>, p: nat, limit: nat): nat
    requires p <= |rows|
  {
    if p + limit < |rows| then p + limit else |rows|
  }

  /** The `where sequence > cursor` scan: the position of the first row above the cursor. */
  method Seek<D>(rows: seq<Row<D>>, cursor: nat) returns (i: nat)
    requires Ascending(rows)
    ensures i == Passed(rows, cursor)
  {
    i := 0;
    while i < |rows| && rows[i].sequence <= cursor
      invariant i <= |rows|
      invariant i == 0 || rows[i - 1].sequence <= cursor
    {
      i := i + 1;
    }
    PassedSplits(rows, cursor);
    assert i == |rows| || cursor < rows[i].sequence;
  }

  /** `Store.ReadAll`: the next `limit` rows above the cursor, and the sequence of the last one read. */
  method ReadAll<D>(rows: seq<Row<D>>, fromExclusive: nat, limit: int) returns (out: seq<Row<D>>, lastSeq: nat)
    requires Ascending(rows)
    ensures var p := Passed(rows, fromExclusive);
            var q := BatchEnd(rows, p, EffectiveLimit(limit));
            && out == rows[p..q]
            && (out == [] ==> lastSeq == fromExclusive)
            && (out != [] ==> lastSeq == rows[q - 1].sequence)
            && Passed(rows, lastSeq) == q
  {
    var start := Seek(rows, fromExclusive);
    var end := BatchEnd(rows, start, EffectiveLimit(limit));
    var i := start;
    out, lastSeq := [], fromExclusive;
    while i < end
      invariant start <= i <= end
      invariant out == rows[start..i]
      invariant lastSeq == if i == start then fromExclusive else rows[i - 1].sequence
    {
      out := out + [rows[i]];
      lastSeq := rows[i].sequence;
      i := i + 1;
    }
    if start < end {
      PassedAtRow(rows, end - 1);
    }
  }

  lemma {:induction false} PassedAtRow<D>(rows: seq<Row<D>>, i: nat)
    requires Ascending(rows) && i < |rows|
    ensures Passed(rows, rows[i].sequence) == i + 1
  {
    var p := Passed(rows, rows[i].sequence);
    PassedSplits(rows, rows[i].sequence);
    assert i < p;
    assert i + 1 == |rows| || rows[i].sequence < rows[i + 1].sequence;
  }

  lemma {:induction false} PassedAppend<D>(rows: seq<Row<D>>, r: Row<D>, cursor: nat)
    requires Ascending(rows + [r])
    ensures cursor < r.sequence ==> Passed(rows + [r], cursor) == Passed(rows, cursor)
    ensures Ascending(rows)
  {
    var all := rows + [r];
    assert forall i :: 0 <= i < |rows| ==> all[i] == rows[i];
    if cursor < r.sequence {
      PassedSplits(rows, cursor);
      PassedSplits(all, cursor);
      var p := Passed(rows, cursor);
      assert all[|rows|] == r;
      assert p == 0 || all[p - 1] == rows[p - 1];
      assert cursor < all[p].sequence;
    }
  }

  /** Versions of a stream are exactly 1, 2, ..., n in insertion order. */
  ghost predicate Numbered<D>(s: seq<Row<D>>) {
    forall i :: 0 <= i < |s| ==> s[i].version == i + 1
  }

  lemma {:induction false} SmallestAfterInStream<D>(rows: seq<Row<D>>, a: string, v: nat)
    requires Numbered(Stream(rows, a))
    ensures var s := Stream(rows, a);
            SmallestAfter(rows, a, v) == if v < |s| then Some(s[v]) else None
  {
    if rows != [] {
      var front, last := rows[..|rows| - 1], rows[|rows| - 1];
      var s, t := Stream(rows, a), Stream(front, a);
      assert forall i :: 0 <= i < |t| ==> t[i] == s[i];
      SmallestAfterInStream(front, a, v);
      if last.aggregateId == a { assert s[|t|] == last; }
    }
  }

  /** Over a numbered stream a versioned read is a slice of the stream. */
  lemma {:induction false} ReadIsSlice<D>(rows: seq<Row<D>>, a: string, v: nat, limit: nat)
    requires Numbered(Stream(rows, a)) && v <= |Stream(rows, a)|
    ensures var s := Stream(rows, a);
            ReadFrom(rows, a, v, limit) == s[v..if v + limit < |s| then v + limit else |s|]
    decreases limit
  {
    SmallestAfterInStream(rows, a, v);
    var s := Stream(rows, a);
    if limit > 0 && v < |s| {
      ReadIsSlice(rows, a, v + 1, limit - 1);
      var q := if v + limit < |s| then v + limit else |s|;
      assert s[v..q] == [s[v]] + s[v + 1..q];
    }
  }

  /** The rows that one `ReadAll` returns. */
  function BatchOf<D>(rows: seq<Row<D>>, cursor: nat, limit: int): seq<Row<D>> {
    var p := Passed(rows, cursor);
    rows[p..BatchEnd(rows, p, EffectiveLimit(limit))]
  }

  /** Reading a batch moves the cursor past exactly that batch. */
  lemma {:induction false} BatchAdvances<D>(rows: seq<Row<D>>, cursor: nat, limit: int)
    requires Ascending(rows)
    ensures var batch := BatchOf(rows, cursor, limit);
            var next := if batch == [] then cursor else LastSequence(batch);
            && Passed(rows, next) == BatchEnd(rows, Passed(rows, cursor), EffectiveLimit(limit))
            && (cursor <= LastSequence(rows) ==> next <= LastSequence(rows))
  {
    var p := Passed(rows, cursor);
    var q := BatchEnd(rows, p, EffectiveLimit(limit));
    if p < q {
      PassedAtRow(rows, q - 1);
      assert BatchOf(rows, cursor, limit)[q - p - 1] == rows[q - 1];
    }
  }
}
