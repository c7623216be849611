/** The audit log's hash chain. `H` stands for SHA-256 printed in hexadecimal. */
module AuditChain {
  import opened Common

  /** `payload` is the JSON text of the payload, if there is one. */
  datatype Entry = Entry(
    userId: string, action: string, resourceType: string, resourceId: string, payload: Option<string>,
    correlationId: string, traceId: string, serviceName: string)

  /** A row of `audit_logs`; rows are kept in `sequence` order. */
  datatype Row = Row(id: string, entry: Entry, prev: string, curr: string)

  function PayloadText(e: Entry): string {
    match e.payload case None => "{}" case Some(t) => t
  }

  /** The fields a hash covers. */
  function Body(e: Entry): string {
    e.userId + "|" + (e.action + "|" + (e.resourceType + "|" + (e.resourceId + "|" + PayloadText(e))))
  }

  function Preimage(e: Entry, prev: string): string {
    Body(e) + "|" + prev
  }

  /** `CalculateHash`. */
  function CalculateHash(H: string -> string, e: Entry, prev: string): string {
    H(Preimage(e, prev))
  }

  /** The six fields between bars, the payload as its JSON text or an empty object, the previous hash last. */
  function HashedText(e: Entry, prev: string): string {
    var payload := if e.payload.Some? then e.payload.value else "{}";
    e.userId + "|" + e.action + "|" + e.resourceType + "|" + e.resourceId + "|" + payload + "|" + prev
  }

  lemma {:induction false} PreimageIsText(e: Entry, prev: string)
    ensures Preimage(e, prev) == HashedText(e, prev)
  {
    var t := PayloadText(e);
    var u, v, w, x := e.userId, e.action, e.resourceType, e.resourceId;
    assert u + "|" + (v + "|" + (w + "|" + (x + "|" + t))) == u + "|" + v + "|" + w + "|" + x + "|" + t;
  }

  // ----- Save: a fetch, then an insert -----

  /** A `Save` between its fetch and its insert; `seen` is the number of rows its fetch saw. */
  datatype Pending = Pending(entry: Entry, last: string, seen: nat)

  /** `seen[i]` is what the `Save` of row `i` saw. */
  datatype State = State(rows: seq<Row>, seen: seq<nat>, pending: map<nat, Pending>)

  datatype Step =
    | Fetch(saver: nat, entry: Entry, ok: bool)   // a failed fetch is only logged, and reads as the empty hash
    | Insert(saver: nat, id: string)
    | Fail(saver: nat)                            // the insert is refused

  function LastHash(rows: seq<Row>): string {
    if rows == [] then "" else rows[|rows| - 1].curr
  }

  function Next(H: string -> string, s: State, step: Step): State {
    match step
    case Fetch(w, e, ok) =>
      s.(pending := s.pending[w := Pending(e, if ok then LastHash(s.rows) else "", if ok then |s.rows| else 0)])
    case Insert(w, id) =>
      if w !in s.pending then s
      else
        var p := s.pending[w];
        State(s.rows + [Row(id, p.entry, p.last, CalculateHash(H, p.entry, p.last))],
              s.seen + [p.seen], s.pending - {w})
    case Fail(w) => s.(pending := s.pending - {w})
  }

  function Run(H: string -> string, steps: seq<Step>, n: nat): State
    requires n <= |steps|
  {
    if n == 0 then State([], [], map[]) else Next(H, Run(H, steps, n - 1), steps[n - 1])
  }

  class Repository {
    var rows: seq<Row>

    /** `Save` with nothing in between. */
    method Save(H: string -> string, entry: Entry, id: string, fetchOk: bool, insertOk: bool) returns (failed: bool)
      modifies this
      ensures failed == !insertOk
      ensures insertOk ==>
                var last := if fetchOk && old(rows) != [] then old(rows)[|old(rows)| - 1].curr else "";
                rows == old(rows) + [Row(id, entry, last, H(HashedText(entry, last)))]
      ensures !insertOk ==> rows == old(rows)
      ensures rows == Next(H, Next(H, State(old(rows), [], map[]), Fetch(0, entry, fetchOk)),
                           if insertOk then Insert(0, id) else Fail(0)).rows
    {
      var lastHash := "";
      if fetchOk && |rows| > 0 {
        lastHash := rows[|rows| - 1].curr;
      }
      var currentHash := CalculateHash(H, entry, lastHash);
      PreimageIsText(entry, lastHash);
      if !insertOk {
        return true;
      }
      rows := rows + [Row(id, entry, lastHash, currentHash)];
      return false;
    }
  }

  // ----- ValidateIntegrity -----

  function HashBefore(rows: seq<Row>, i: nat): string
    requires i <= |rows|
  {
    if i == 0 then "" else rows[i - 1].curr
  }

  predicate Linked(H: string -> string, rows: seq<Row>, i: nat)
    requires i < |rows|
  {
    rows[i].prev == HashBefore(rows, i) && rows[i].curr == CalculateHash(H, rows[i].entry, rows[i].prev)
  }

  predicate Validates(H: string -> string, rows: seq<Row>) {
    forall i :: 0 <= i < |rows| ==> Linked(H, rows, i)
  }

  /** Go's `int32` counter. */
  function Wrap32(n: nat): int {
    (n + 0x8000_0000) % 0x1_0000_0000 - 0x8000_0000
  }

  lemma {:induction false} Wrap32Next(n: nat)
    ensures Wrap32(n + 1) == if Wrap32(n) == 0x7fff_ffff then -0x8000_0000 else Wrap32(n) + 1
  {
  }

  datatype Report = Report(valid: bool, count: int, badId: string, failed: bool)

  /** What is reported once the first `i` rows are found to link; `unreadable` is a row whose scan fails. */
  function ReportFrom(H: string -> string, rows: seq<Row>, delivered: nat, unreadable: Option<nat>, i: nat): Report
    requires i <= delivered <= |rows|
    decreases delivered - i
  {
    if i == delivered then Report(true, Wrap32(i), "", false)
    else if unreadable == Some(i) then Report(false, Wrap32(i), "", true)
    else if !Linked(H, rows, i) then Report(false, Wrap32(i), rows[i].id, false)
    else ReportFrom(H, rows, delivered, unreadable, i + 1)
  }

  function Reported(H: string -> string, rows: seq<Row>, queryOk: bool, delivered: nat, unreadable: Option<nat>): Report
    requires delivered <= |rows|
  {
    if queryOk then ReportFrom(H, rows, delivered, unreadable, 0) else Report(false, 0, "", true)
  }

  /** What a report that ends at row `bad` says: every row before it links, and it does not link or scan. */
  ghost predicate EndsAt(H: string -> string, rows: seq<Row>, delivered: nat, unreadable: Option<nat>, r: Report,
                         bad: nat)
    requires delivered <= |rows|
  {
    && bad < delivered && (forall i :: 0 <= i < bad ==> Linked(H, rows, i)) && r.count == Wrap32(bad)
    && (r.failed <==> unreadable == Some(bad))
    && (!r.failed ==> !Linked(H, rows, bad) && r.badId == rows[bad].id)
  }

  lemma {:induction false} ReportMeans(H: string -> string, rows: seq<Row>, delivered: nat, unreadable: Option<nat>,
                                       i: nat)
    requires i <= delivered <= |rows| && (forall j :: 0 <= j < i ==> Linked(H, rows, j))
    requires unreadable.Some? ==> i <= unreadable.value
    ensures var r := ReportFrom(H, rows, delivered, unreadable, i);
            && (r.valid <==> && (forall j :: 0 <= j < delivered ==> Linked(H, rows, j))
                             && !(unreadable.Some? && unreadable.value < delivered))
            && (r.valid ==> r == Report(true, Wrap32(delivered), "", false))
            && (!r.valid ==> exists bad :: EndsAt(H, rows, delivered, unreadable, r, bad))
    decreases delivered - i
  {
    var r := ReportFrom(H, rows, delivered, unreadable, i);
    if i < delivered {
      if unreadable == Some(i) || !Linked(H, rows, i) {
        assert EndsAt(H, rows, delivered, unreadable, r, i);
      } else {
        ReportMeans(H, rows, delivered, unreadable, i + 1);
      }
    }
  }

  /** `ValidateIntegrity` over the rows the query delivers, if it succeeds. The code does not ask why the rows
      ended, so `delivered` may fall short of the table. */
  method ValidateIntegrity(H: string -> string, rows: seq<Row>, queryOk: bool, delivered: nat, unreadable: Option<nat>)
    returns (r: Report)
    requires delivered <= |rows|
    ensures r == Reported(H, rows, queryOk, delivered, unreadable)
    ensures !queryOk ==> r == Report(false, 0, "", true)
    ensures queryOk ==>
              (r.valid <==> && (forall i :: 0 <= i < delivered ==> Linked(H, rows, i))
                            && !(unreadable.Some? && unreadable.value < delivered))
    ensures r.valid ==> r == Report(true, Wrap32(delivered), "", false)
    ensures queryOk && !r.valid ==> exists bad :: EndsAt(H, rows, delivered, unreadable, r, bad)
  {
    if !queryOk { return Report(false, 0, "", true); }
    ReportMeans(H, rows, delivered, unreadable, 0);
    var count: int := 0;
    var expected := "";
    for i := 0 to delivered
      invariant ReportFrom(H, rows, delivered, unreadable, 0) == ReportFrom(H, rows, delivered, unreadable, i)
      invariant expected == HashBefore(rows, i) && count == Wrap32(i)
    {
      if unreadable == Some(i) {
        return Report(false, count, "", true);
      }
      if rows[i].prev != expected {
        return Report(false, count, rows[i].id, false);
      }
      if CalculateHash(H, rows[i].entry, rows[i].prev) != rows[i].curr {
        return Report(false, count, rows[i].id, false);
      }
      Wrap32Next(i);
      expected := rows[i].curr;
      count := if count == 0x7fff_ffff then -0x8000_0000 else count + 1;
    }
    return Report(true, count, "", false);
  }

  // ----- What is assumed of the hash -----

  predicate IsHex(c: char) {
    '0' <= c <= '9' || 'a' <= c <= 'f'
  }

  ghost predicate HexHash(H: string -> string) {
    forall s :: |H(s)| == 64 && forall i :: 0 <= i < 64 ==> IsHex(H(s)[i])
  }

  /** Collision-free on a finite set of preimages only. */
  ghost predicate CollisionFree(H: string -> string, ps: set<string>) {
    forall p, q :: p in ps && q in ps && H(p) == H(q) ==> p == q
  }

  /** What was hashed for these rows. */
  function Preimages(rows: seq<Row>): set<string> {
    set i | 0 <= i < |rows| :: Preimage(rows[i].entry, rows[i].prev)
  }

  // ----- Reading a preimage from its ends -----

  lemma {:induction false} FirstField(x: string, r: string, y: string, s: string)
    requires '|' !in x && '|' !in y && x + "|" + r == y + "|" + s
    ensures x == y && r == s
  {
    var t := x + "|" + r;
    assert t[|x|] == '|' && t[|y|] == '|';
    assert t[..|x|] == x && t[..|y|] == y;
    assert t[|x| + 1..] == r && t[|y| + 1..] == s;
  }

  /** A hash in last place can be told from an empty one, and is read off the end. */
  lemma {:induction false} LastField(a: string, p: string, b: string, q: string)
    requires a + "|" + p == b + "|" + q
    requires (p == "" || (|p| == 64 && p[63] != '|')) && (q == "" || (|q| == 64 && q[63] != '|'))
    ensures a == b && p == q
  {
    var t := a + "|" + p;
    var u := b + "|" + q;
    assert p == "" ==> t[|t| - 1] == '|';
    assert q == "" ==> u[|u| - 1] == '|';
    assert p != "" ==> t[|t| - 1] == p[63];
    assert q != "" ==> u[|u| - 1] == q[63];
    assert |p| == |q|;
    assert t[..|a|] == a && u[..|b|] == b;
    assert t[|a| + 1..] == p && u[|b| + 1..] == q;
  }

  lemma {:induction false} BodyFields(d: Entry, e: Entry)
    requires Body(d) == Body(e) && PipeFree(d) && PipeFree(e)
    ensures SameFields(d, e)
  {
    var d4, e4 := d.resourceId + "|" + PayloadText(d), e.resourceId + "|" + PayloadText(e);
    var d3, e3 := d.resourceType + "|" + d4, e.resourceType + "|" + e4;
    var d2, e2 := d.action + "|" + d3, e.action + "|" + e3;
    FirstField(d.userId, d2, e.userId, e2);
    FirstField(d.action, d3, e.action, e3);
    FirstField(d.resourceType, d4, e.resourceType, e4);
    FirstField(d.resourceId, PayloadText(d), e.resourceId, PayloadText(e));
  }

  predicate PipeFree(e: Entry) {
    '|' !in e.userId && '|' !in e.action && '|' !in e.resourceType && '|' !in e.resourceId
  }

  predicate SameFields(d: Entry, e: Entry) {
    && d.userId == e.userId && d.action == e.action && d.resourceType == e.resourceType
    && d.resourceId == e.resourceId && PayloadText(d) == PayloadText(e)
  }

  // ----- A valid chain never repeats a hash -----

  lemma {:induction false} HashShape(H: string -> string, rows: seq<Row>, i: nat)
    requires HexHash(H) && Validates(H, rows) && i <= |rows|
    ensures i == 0 ==> HashBefore(rows, i) == ""
    ensures i > 0 ==> |HashBefore(rows, i)| == 64 && HashBefore(rows, i)[63] != '|'
  {
    if i > 0 {
      assert Linked(H, rows, i - 1);
      var p := Preimage(rows[i - 1].entry, rows[i - 1].prev);
      assert IsHex(H(p)[63]);
    }
  }

  /** Equal hashes come from equal texts over equal previous hashes. */
  lemma {:induction false} SameHashSamePrevious(H: string -> string, a: seq<Row>, i: nat, b: seq<Row>, j: nat)
    requires HexHash(H) && Validates(H, a) && Validates(H, b) && i < |a| && j < |b|
    requires CollisionFree(H, Preimages(a) + Preimages(b)) && a[i].curr == b[j].curr
    ensures Body(a[i].entry) == Body(b[j].entry) && HashBefore(a, i) == HashBefore(b, j)
    ensures i == 0 <==> j == 0
  {
    assert Linked(H, a, i) && Linked(H, b, j);
    assert Preimage(a[i].entry, a[i].prev) in Preimages(a);
    assert Preimage(b[j].entry, b[j].prev) in Preimages(b);
    HashShape(H, a, i);
    HashShape(H, b, j);
    LastField(Body(a[i].entry), HashBefore(a, i), Body(b[j].entry), HashBefore(b, j));
  }

  /** The hashes of a validating log are pairwise distinct, and none is empty. */
  lemma {:induction false} HashesDistinct(H: string -> string, rows: seq<Row>, i: nat, j: nat)
    requires HexHash(H) && Validates(H, rows) && CollisionFree(H, Preimages(rows)) && i < j < |rows|
    ensures rows[i].curr != rows[j].curr && rows[i].curr != "" && rows[j].curr != ""
  {
    HashShape(H, rows, i + 1);
    HashShape(H, rows, j + 1);
    if rows[i].curr == rows[j].curr {
      assert Preimages(rows) + Preimages(rows) == Preimages(rows);
      SameHashSamePrevious(H, rows, i, rows, j);
      if i > 0 { HashesDistinct(H, rows, i - 1, j - 1); }
      assert false;
    }
  }

  // ----- Runs -----

  /** What every `Save` writes: the hash of the row it saw last, and its own. */
  ghost predicate Recorded(H: string -> string, s: State) {
    && |s.seen| == |s.rows|
    && (forall i :: 0 <= i < |s.rows| ==> Kept(H, s.rows, s.seen[i], i))
    && (forall w :: w in s.pending ==>
          s.pending[w].seen <= |s.rows| && s.pending[w].last == HashBefore(s.rows, s.pending[w].seen))
  }

  predicate Kept(H: string -> string, rows: seq<Row>, seen: nat, i: nat)
    requires i < |rows|
  {
    && seen <= i && rows[i].prev == HashBefore(rows, seen)
    && rows[i].curr == CalculateHash(H, rows[i].entry, rows[i].prev)
  }

  lemma {:induction false} NextRecords(H: string -> string, s: State, step: Step)
    requires Recorded(H, s)
    ensures Recorded(H, Next(H, s, step))
  {
    var t := Next(H, s, step);
    if step.Insert? && step.saver in s.pending {
      forall i | 0 <= i < |t.rows|
        ensures Kept(H, t.rows, t.seen[i], i)
      {
        if i < |s.rows| { assert Kept(H, s.rows, s.seen[i], i); }
      }
    }
  }

  lemma {:induction false} RunRecords(H: string -> string, steps: seq<Step>, n: nat)
    requires n <= |steps|
    ensures Recorded(H, Run(H, steps, n))
  {
    if n > 0 {
      RunRecords(H, steps, n - 1);
      NextRecords(H, Run(H, steps, n - 1), steps[n - 1]);
    }
  }

  // ----- Which inserts are disturbed, read off the steps alone -----

  /** The step at which the saver's open `Save` fetched. */
  function FetchStep(steps: seq<Step>, n: nat, w: nat): (a: Option<nat>)
    requires n <= |steps|
    ensures a.Some? ==> a.value < n && steps[a.value].Fetch?
  {
    if n == 0 then None
    else if steps[n - 1].saver != w then FetchStep(steps, n - 1, w)
    else if steps[n - 1].Fetch? then Some(n - 1)
    else None
  }

  /** Step `b` inserts a row. */
  predicate Inserts(steps: seq<Step>, b: nat)
    requires b < |steps|
  {
    steps[b].Insert? && FetchStep(steps, b, steps[b].saver).Some?
  }

  function InsertsTo(steps: seq<Step>, n: nat): nat
    requires n <= |steps|
  {
    if n == 0 then 0 else InsertsTo(steps, n - 1) + if Inserts(steps, n - 1) then 1 else 0
  }

  /** No row was inserted since the fetch; if the fetch failed, none was inserted at all. */
  ghost predicate Undisturbed(steps: seq<Step>, b: nat)
    requires b < |steps| && Inserts(steps, b)
  {
    var a := FetchStep(steps, b, steps[b].saver).value;
    if steps[a].ok then forall j :: a < j < b ==> !Inserts(steps, j) else InsertsTo(steps, b) == 0
  }

  lemma {:induction false} InsertsGrow(steps: seq<Step>, a: nat, b: nat)
    requires a <= b <= |steps|
    ensures InsertsTo(steps, a) <= InsertsTo(steps, b)
    ensures InsertsTo(steps, a) == InsertsTo(steps, b) <==> forall j :: a <= j < b ==> !Inserts(steps, j)
  {
    if a < b { InsertsGrow(steps, a, b - 1); }
  }

  /** What a saver's open `Save` saw. */
  function Saw(steps: seq<Step>, a: nat): nat
    requires a < |steps| && steps[a].Fetch?
  {
    if steps[a].ok then InsertsTo(steps, a) else 0
  }

  lemma {:induction false} PendingIsFetch(H: string -> string, steps: seq<Step>, n: nat, w: nat)
    requires n <= |steps|
    ensures |Run(H, steps, n).rows| == InsertsTo(steps, n)
    ensures w in Run(H, steps, n).pending <==> FetchStep(steps, n, w).Some?
    ensures w in Run(H, steps, n).pending ==>
              Run(H, steps, n).pending[w].seen == Saw(steps, FetchStep(steps, n, w).value)
  {
    if n > 0 {
      PendingIsFetch(H, steps, n - 1, w);
      PendingIsFetch(H, steps, n - 1, steps[n - 1].saver);
    }
  }

  /** What a saver's open `Save` holds: the entry of its fetch, and the last hash that the fetch saw. */
  lemma {:induction false} PendingHolds(H: string -> string, steps: seq<Step>, n: nat, w: nat)
    requires n <= |steps| && FetchStep(steps, n, w).Some?
    ensures var f := FetchStep(steps, n, w).value;
            && w in Run(H, steps, n).pending
            && Run(H, steps, n).pending[w].entry == steps[f].entry
            && Run(H, steps, n).pending[w].last == if steps[f].ok then LastHash(Run(H, steps, f).rows) else ""
  {
    if steps[n - 1].saver != w { PendingHolds(H, steps, n - 1, w); }
  }

  /** What every run writes: an insert adds one row behind the log, with its own id, the entry its save was called
      with, the last hash that its fetch saw and the hash of both; no other step changes the log. */
  lemma {:induction false} InsertWrites(H: string -> string, steps: seq<Step>, b: nat)
    requires b < |steps|
    ensures !Inserts(steps, b) ==> Run(H, steps, b + 1).rows == Run(H, steps, b).rows
    ensures Inserts(steps, b) ==>
              var fetch := FetchStep(steps, b, steps[b].saver).value;
              var entry := steps[fetch].entry;
              var prev := if steps[fetch].ok then LastHash(Run(H, steps, fetch).rows) else "";
              Run(H, steps, b + 1).rows == Run(H, steps, b).rows
                                           + [Row(steps[b].id, entry, prev, H(HashedText(entry, prev)))]
  {
    PendingIsFetch(H, steps, b, steps[b].saver);
    if Inserts(steps, b) {
      PendingHolds(H, steps, b, steps[b].saver);
      var p := Run(H, steps, b).pending[steps[b].saver];
      PreimageIsText(p.entry, p.last);
    }
  }

  ghost predicate AllSeen(s: State) {
    |s.seen| == |s.rows| && forall i :: 0 <= i < |s.rows| ==> s.seen[i] == i
  }

  lemma {:induction false} UndisturbedSeesAll(steps: seq<Step>, b: nat)
    requires b < |steps| && Inserts(steps, b)
    ensures Undisturbed(steps, b) <==> Saw(steps, FetchStep(steps, b, steps[b].saver).value) == InsertsTo(steps, b)
  {
    var a := FetchStep(steps, b, steps[b].saver).value;
    InsertsGrow(steps, a, b);
    assert !Inserts(steps, a);
  }

  lemma {:induction false} AllSeenSnoc(H: string -> string, s: State, step: Step)
    requires |s.seen| == |s.rows| && step.Insert? && step.saver in s.pending
    ensures AllSeen(Next(H, s, step)) <==> AllSeen(s) && s.pending[step.saver].seen == |s.rows|
  {
    var t := Next(H, s, step);
    assert t.seen[|s.rows|] == s.pending[step.saver].seen;
    assert forall i :: 0 <= i < |s.rows| ==> t.seen[i] == s.seen[i];
  }

  ghost predicate AllUndisturbed(steps: seq<Step>, n: nat)
    requires n <= |steps|
  {
    forall b :: 0 <= b < n && Inserts(steps, b) ==> Undisturbed(steps, b)
  }

  lemma {:induction false} AllUndisturbedSnoc(steps: seq<Step>, n: nat)
    requires n < |steps|
    ensures AllUndisturbed(steps, n + 1) <==> AllUndisturbed(steps, n) && (Inserts(steps, n) ==> Undisturbed(steps, n))
  {
  }

  /** One step keeps the agreement. */
  lemma {:induction false} AllSeenStep(H: string -> string, steps: seq<Step>, n: nat)
    requires n < |steps|
    ensures AllSeen(Run(H, steps, n + 1)) <==>
            AllSeen(Run(H, steps, n)) && (Inserts(steps, n) ==> Undisturbed(steps, n))
  {
    RunRecords(H, steps, n);
    PendingIsFetch(H, steps, n, steps[n].saver);
    if Inserts(steps, n) {
      UndisturbedSeesAll(steps, n);
      AllSeenSnoc(H, Run(H, steps, n), steps[n]);
    }
  }

  lemma {:induction false} AllSeenIffUndisturbed(H: string -> string, steps: seq<Step>, n: nat)
    requires n <= |steps|
    ensures AllSeen(Run(H, steps, n)) <==> AllUndisturbed(steps, n)
  {
    if n > 0 {
      AllSeenIffUndisturbed(H, steps, n - 1);
      AllSeenStep(H, steps, n - 1);
      AllUndisturbedSnoc(steps, n - 1);
    }
  }

  // ----- Main results -----

  lemma {:induction false} ValidatesIffAllSeen(H: string -> string, steps: seq<Step>)
    requires HexHash(H) && CollisionFree(H, Preimages(Run(H, steps, |steps|).rows))
    ensures Validates(H, Run(H, steps, |steps|).rows) <==> AllSeen(Run(H, steps, |steps|))
  {
    var s := Run(H, steps, |steps|);
    RunRecords(H, steps, |steps|);
    if Validates(H, s.rows) {
      forall i | 0 <= i < |s.rows|
        ensures s.seen[i] == i
      {
        assert Linked(H, s.rows, i) && Kept(H, s.rows, s.seen[i], i);
        SeenIsLast(H, s.rows, s.seen[i], i);
      }
    }
    if AllSeen(s) {
      forall i | 0 <= i < |s.rows|
        ensures Linked(H, s.rows, i)
      {
        assert Kept(H, s.rows, s.seen[i], i);
      }
    }
  }

  /** The chain under interleaving: after any run of concurrent saves the log validates if and only if no
      insert falls between a `Save`'s fetch and its insert, and a fetch fails only for the first row. */
  lemma {:induction false} ValidatesIffUndisturbed(H: string -> string, steps: seq<Step>)
    requires HexHash(H) && CollisionFree(H, Preimages(Run(H, steps, |steps|).rows))
    ensures Validates(H, Run(H, steps, |steps|).rows) <==> AllUndisturbed(steps, |steps|)
  {
    ValidatesIffAllSeen(H, steps);
    AllSeenIffUndisturbed(H, steps, |steps|);
  }

  lemma {:induction false} SeenIsLast(H: string -> string, rows: seq<Row>, seen: nat, i: nat)
    requires HexHash(H) && Validates(H, rows) && CollisionFree(H, Preimages(rows))
    requires seen <= i < |rows| && HashBefore(rows, seen) == HashBefore(rows, i)
    ensures seen == i
  {
    HashShape(H, rows, seen);
    HashShape(H, rows, i);
    if 0 < seen < i { HashesDistinct(H, rows, seen - 1, i - 1); }
  }

  ghost predicate SameText(a: seq<Row>, b: seq<Row>) {
    |a| == |b| && forall i :: 0 <= i < |a| ==> Body(a[i].entry) == Body(b[i].entry)
  }

  lemma {:induction false} SameTextSnoc(a: seq<Row>, b: seq<Row>)
    requires a != [] && b != [] && SameText(a[..|a| - 1], b[..|b| - 1])
    requires Body(a[|a| - 1].entry) == Body(b[|b| - 1].entry)
    ensures SameText(a, b)
  {
    forall i | 0 <= i < |a| - 1 ensures Body(a[i].entry) == Body(b[i].entry) {
      assert a[i] == a[..|a| - 1][i] && b[i] == b[..|b| - 1][i];
    }
  }

  /** The same texts give the same hashes. */
  lemma {:induction false} SameTextSameHash(H: string -> string, a: seq<Row>, b: seq<Row>, n: nat)
    requires Validates(H, a) && Validates(H, b) && SameText(a, b) && n <= |a|
    ensures HashBefore(a, n) == HashBefore(b, n)
  {
    if n > 0 {
      SameTextSameHash(H, a, b, n - 1);
      assert Linked(H, a, n - 1) && Linked(H, b, n - 1);
    }
  }

  lemma {:induction false} SameHashSameText(H: string -> string, a: seq<Row>, b: seq<Row>)
    requires HexHash(H) && Validates(H, a) && Validates(H, b) && CollisionFree(H, Preimages(a) + Preimages(b))
    requires LastHash(a) == LastHash(b)
    ensures SameText(a, b)
  {
    HashShape(H, a, |a|);
    HashShape(H, b, |b|);
    if a != [] && b != [] {
      var m, n := |a| - 1, |b| - 1;
      SameHashSamePrevious(H, a, m, b, n);
      PrefixValidates(H, a, m);
      PrefixValidates(H, b, n);
      SameHashSameText(H, a[..m], b[..n]);
      SameTextSnoc(a, b);
    }
  }

  /** Binding, without conditions on the fields: two validating logs have the same last hash if and only if they
      have the same length and row by row the same joined text. */
  lemma {:induction false} LastHashBindsText(H: string -> string, a: seq<Row>, b: seq<Row>)
    requires HexHash(H) && Validates(H, a) && Validates(H, b) && CollisionFree(H, Preimages(a) + Preimages(b))
    ensures LastHash(a) == LastHash(b) <==> SameText(a, b)
  {
    if LastHash(a) == LastHash(b) { SameHashSameText(H, a, b); }
    if SameText(a, b) { SameTextSameHash(H, a, b, |a|); }
  }

  lemma {:induction false} PrefixValidates(H: string -> string, rows: seq<Row>, n: nat)
    requires Validates(H, rows) && n <= |rows|
    ensures Validates(H, rows[..n]) && Preimages(rows[..n]) <= Preimages(rows)
    ensures n > 0 ==> LastHash(rows[..n]) == HashBefore(rows, n)
  {
    forall i | 0 <= i < n
      ensures Linked(H, rows[..n], i)
    {
      assert Linked(H, rows, i);
    }
  }

  ghost predicate SameFieldsEach(a: seq<Row>, b: seq<Row>) {
    |a| == |b| && forall i :: 0 <= i < |a| ==> SameFields(a[i].entry, b[i].entry)
  }

  /** Binding: if the first four fields hold no bar, the last hash is the same if and only if every row's user,
      action, resource type, resource id and payload text are, bars in the payload or not. */
  lemma {:induction false} LastHashBindsFields(H: string -> string, a: seq<Row>, b: seq<Row>)
    requires HexHash(H) && Validates(H, a) && Validates(H, b) && CollisionFree(H, Preimages(a) + Preimages(b))
    requires forall i :: 0 <= i < |a| ==> PipeFree(a[i].entry)
    requires forall i :: 0 <= i < |b| ==> PipeFree(b[i].entry)
    ensures LastHash(a) == LastHash(b) <==> SameFieldsEach(a, b)
  {
    LastHashBindsText(H, a, b);
    if SameText(a, b) {
      forall i | 0 <= i < |a|
        ensures SameFields(a[i].entry, b[i].entry)
      {
        BodyFields(a[i].entry, b[i].entry);
      }
    }
  }

  /** Two saves that overlap: both fetch, then both insert. */
  function Overlap(first: Entry, second: Entry): seq<Step> {
    [Fetch(0, first, true), Fetch(1, second, true), Insert(0, "1"), Insert(1, "2")]
  }

  /** The order is needed: two overlapping saves, of any entries and under any hash, leave a log of two rows
      whose second one does not link. */
  lemma {:induction false} OverlapForks(H: string -> string, first: Entry, second: Entry)
    requires HexHash(H)
    ensures var rows := Run(H, Overlap(first, second), 4).rows;
            |rows| == 2 && Linked(H, rows, 0) && !Linked(H, rows, 1) && !Validates(H, rows)
  {
    var steps := Overlap(first, second);
    var hash := CalculateHash(H, first, "");
    var s1, s2, s3 := Run(H, steps, 1), Run(H, steps, 2), Run(H, steps, 3);
    assert Run(H, steps, 0) == State([], [], map[]) && s1 == Next(H, Run(H, steps, 0), steps[0]);
    assert s1 == State([], [], map[0 := Pending(first, "", 0)]);
    assert s2.rows == [] && s2.pending == map[0 := Pending(first, "", 0), 1 := Pending(second, "", 0)];
    assert s3.rows == [Row("1", first, "", hash)] && 1 in s3.pending && s3.pending[1] == Pending(second, "", 0);
    var rows := Run(H, steps, 4).rows;
    assert rows == s3.rows + [Row("2", second, "", CalculateHash(H, second, ""))];
    assert |hash| == 64;
    assert !Linked(H, rows, 1);
  }

  // ----- What the chain does not cover -----

  /** The condition on bars is needed: for every hash, these one-row logs differ and both validate. */
  lemma {:induction false} BarsMoveBetweenFields(H: string -> string)
    ensures var d, e := Entry("a|b", "c", "", "", None, "", "", ""), Entry("a", "b|c", "", "", None, "", "", "");
            var x, y := Row("1", d, "", CalculateHash(H, d, "")), Row("1", e, "", CalculateHash(H, e, ""));
            Validates(H, [x]) && Validates(H, [y]) && LastHash([x]) == LastHash([y]) && !SameFields(d, e)
  {
    var d, e := Entry("a|b", "c", "", "", None, "", "", ""), Entry("a", "b|c", "", "", None, "", "", "");
    var rest := "" + "|" + ("" + "|" + "{}");
    assert "a|b" + "|" + ("c" + "|" + rest) == "a" + "|" + ("b|c" + "|" + rest);
    assert Body(d) == Body(e);
  }

  /** Correlation id, trace id and service name are not covered: changing them in any row of any log
      leaves its validity and its last hash as they were. */
  lemma {:induction false} UncoveredFields(H: string -> string, rows: seq<Row>, k: nat, correlation: string,
                                           trace: string, service: string)
    requires k < |rows|
    ensures var e := rows[k].entry.(correlationId := correlation, traceId := trace, serviceName := service);
            var other := rows[k := rows[k].(entry := e)];
            (Validates(H, other) <==> Validates(H, rows)) && LastHash(other) == LastHash(rows)
  {
    var e := rows[k].entry.(correlationId := correlation, traceId := trace, serviceName := service);
    var other := rows[k := rows[k].(entry := e)];
    forall i | 0 <= i < |rows|
      ensures Linked(H, other, i) <==> Linked(H, rows, i)
    {
    }
  }

  /** The verdict depends on the delivered rows only. */
  lemma {:induction false} ReportIgnoresRest(H: string -> string, rows: seq<Row>, rest: seq<Row>,
                                             unreadable: Option<nat>, i: nat)
    requires i <= |rows|
    ensures ReportFrom(H, rows + rest, |rows|, unreadable, i) == ReportFrom(H, rows, |rows|, unreadable, i)
    decreases |rows| - i
  {
    if i < |rows| {
      assert Linked(H, rows + rest, i) <==> Linked(H, rows, i);
      ReportIgnoresRest(H, rows, rest, unreadable, i + 1);
    }
  }

  /** Rows that all link and scan are reported valid, up to the end or up to a row that does not link. */
  lemma {:induction false} ReportOfLinked(H: string -> string, rows: seq<Row>, n: nat, delivered: nat, i: nat)
    requires i <= n <= delivered <= |rows| && forall j :: 0 <= j < n ==> Linked(H, rows, j)
    requires n < delivered ==> !Linked(H, rows, n)
    ensures ReportFrom(H, rows, delivered, None, i) ==
            if n == delivered then Report(true, Wrap32(n), "", false) else Report(false, Wrap32(n), rows[n].id, false)
    decreases n - i
  {
    if i < n { ReportOfLinked(H, rows, n, delivered, i + 1); }
  }

  /** A read that ends early is reported as a read of a shorter log, whatever follows. */
  lemma {:induction false} ShortReadIsShortLog(H: string -> string, rows: seq<Row>, rest: seq<Row>, queryOk: bool,
                                               unreadable: Option<nat>)
    ensures Reported(H, rows + rest, queryOk, |rows|, unreadable) == Reported(H, rows, queryOk, |rows|, unreadable)
  {
    if queryOk { ReportIgnoresRest(H, rows, rest, unreadable, 0); }
  }

  /** So it hides rows: any validating log, followed by any row that does not link and by anything else, is
      reported valid by a read that ends before that row, and as bad at that row by every read that reaches it. */
  lemma {:induction false} ShortReadHidesRows(H: string -> string, rows: seq<Row>, bad: Row, rest: seq<Row>,
                                              delivered: nat)
    requires Validates(H, rows) && |rows| < delivered <= |rows| + 1 + |rest|
    requires bad.prev != LastHash(rows) || bad.curr != CalculateHash(H, bad.entry, bad.prev)
    ensures var log := rows + [bad] + rest;
            && !Validates(H, log)
            && Reported(H, log, true, |rows|, None) == Report(true, Wrap32(|rows|), "", false)
            && Reported(H, log, true, delivered, None) == Report(false, Wrap32(|rows|), bad.id, false)
  {
    var log := rows + [bad] + rest;
    assert log[|rows|] == bad && HashBefore(log, |rows|) == LastHash(rows);
    assert !Linked(H, log, |rows|);
    forall i | 0 <= i < |rows| ensures Linked(H, log, i) {
      assert Linked(H, rows, i);
    }
    ReportOfLinked(H, log, |rows|, |rows|, 0);
    ReportOfLinked(H, log, |rows|, delivered, 0);
  }
}
