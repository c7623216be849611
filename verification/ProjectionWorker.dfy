/** The account projection worker: batches behind a cursor, with failures, retries and restarts. */
module ProjectionWorker {
  import opened Common
  import opened EventLog
  import opened AccountDomain
  import opened AccountService
  import opened AccountRuns

  type Table = map<string, ProjectionRow>

  // ----- One event -----

  datatype Outcome = Skip | Fail | Upsert(row: ProjectionRow)

  /** What the worker does with one event, given the row it read for its aggregate. */
  function Project(current: Option<ProjectionRow>, e: AccountRow): Outcome {
    if e.aggregateType != ACCOUNT || e.data.typ.TypeOther? then Skip
    else if e.data.typ == TypeOpened && e.data.json.Malformed? then Fail
    else
      var p := if current.Some? then current.value else ProjectionRow(e.aggregateId, "", Unset, 0);
      var changed :=
        match e.data.typ
        case TypeOpened => p.(customerId := e.data.json.customerId, status := Active)
        case TypeFrozen => p.(status := Frozen)
        case TypeClosed => p.(status := Closed)
        case _ => p;
      if changed.customerId == "" then Skip
      else Upsert(changed.(version := e.version, status := if changed.status == Unset then Active else changed.status))
  }

  function Projected(current: Option<ProjectionRow>, e: AccountRow): Option<ProjectionRow> {
    match Project(current, e)
    case Upsert(row) => Some(row)
    case _ => current
  }

  function ProjectAll(current: Option<ProjectionRow>, events: seq<AccountRow>): Option<ProjectionRow> {
    if events == [] then current
    else Projected(ProjectAll(current, events[..|events| - 1]), events[|events| - 1])
  }

  lemma {:induction false} ProjectAllConcat(x: Option<ProjectionRow>, s: seq<AccountRow>, t: seq<AccountRow>)
    ensures ProjectAll(x, s + t) == ProjectAll(ProjectAll(x, s), t)
  {
    if t == [] {
      assert s + t == s;
    } else {
      assert (s + t)[..|s + t| - 1] == s + t[..|t| - 1];
      ProjectAllConcat(x, s, t[..|t| - 1]);
    }
  }

  // ----- One batch -----

  /** The table after one event. */
  function TableAfter(table: Table, e: AccountRow): Table {
    match Project(Lookup(table, e.aggregateId), e)
    case Upsert(row) => table[row.accountId := row]
    case _ => table
  }

  /** The table after the first `k` events of a batch. */
  function TableUpTo(table: Table, batch: seq<AccountRow>, k: nat): Table
    requires k <= |batch|
  {
    if k == 0 then table else TableAfter(TableUpTo(table, batch, k - 1), batch[k - 1])
  }

  /** How many events are dealt with, from event `i` on, before the database fails at event `failAt` or
      an event does not decode. */
  function Handled(table: Table, batch: seq<AccountRow>, failAt: nat, i: nat): (n: nat)
    requires i <= |batch|
    ensures i <= n <= |batch|
    decreases |batch| - i
  {
    if i == |batch| || i == failAt
       || Project(Lookup(TableUpTo(table, batch, i), batch[i].aggregateId), batch[i]).Fail? then i
    else Handled(table, batch, failAt, i + 1)
  }

  /** The worker and the table it writes. */
  class Worker {
    var table: Table
    var lastSeq: nat

    constructor (table: Table)
      ensures this.table == table && lastSeq == 0
    {
      this.table, lastSeq := table, 0;
    }

    /** The loop of `processNextBatch`. */
    method ProcessEvents(batch: seq<AccountRow>, failAt: nat) returns (ok: bool)
      modifies this`table
      ensures var n := Handled(old(table), batch, failAt, 0);
              table == TableUpTo(old(table), batch, n) && (ok <==> n == |batch|)
    {
      for i := 0 to |batch|
        invariant table == TableUpTo(old(table), batch, i)
        invariant Handled(old(table), batch, failAt, 0) == Handled(old(table), batch, failAt, i)
      {
        if i == failAt { return false; }
        var e := batch[i];
        if e.aggregateType == ACCOUNT && !e.data.typ.TypeOther? {
          var p := ProjectionRow(e.aggregateId, "", Unset, 0);
          if e.aggregateId in table { p := table[e.aggregateId]; }
          if e.data.typ == TypeOpened {
            if e.data.json.Malformed? { return false; }
            p := p.(customerId := e.data.json.customerId, status := Active);
          } else if e.data.typ == TypeFrozen {
            p := p.(status := Frozen);
          } else if e.data.typ == TypeClosed {
            p := p.(status := Closed);
          }
          p := p.(version := e.version);
          if p.customerId != "" {
            if p.status == Unset { p := p.(status := Active); }
            table := table[p.accountId := p];
          }
        }
      }
      return true;
    }

    /** One iteration of `Start`: the cursor moves only past a batch that went through. */
    method Tick(rows: seq<AccountRow>, limit: int, failAt: nat)
      requires Ascending(rows)
      modifies this
      ensures var (t, c) := WorkerTick(rows, old(table), old(lastSeq), limit, failAt);
              table == t && lastSeq == c
    {
      var batch, nextSeq := ReadAll(rows, lastSeq, limit);
      var ok := ProcessEvents(batch, failAt);
      if ok && |batch| > 0 { lastSeq := nextSeq; }
    }
  }

  /** Table and cursor after one tick. */
  function WorkerTick(rows: seq<AccountRow>, table: Table, cursor: nat, limit: int, failAt: nat): (Table, nat) {
    var batch := BatchOf(rows, cursor, limit);
    var n := Handled(table, batch, failAt, 0);
    (TableUpTo(table, batch, n), if n < |batch| || batch == [] then cursor else LastSequence(batch))
  }

  // ----- Runs -----

  datatype State = State(rows: seq<AccountRow>, table: Table, cursor: nat)

  datatype Step =
    | Append(row: AccountRow)          // any service appends any event
    | Tick(limit: int, failAt: nat)
    | Restart                          // the cursor is not persisted

  function Next(s: State, step: Step): State {
    match step
    case Append(row) => if LastSequence(s.rows) < row.sequence then s.(rows := s.rows + [row]) else s
    case Tick(limit, failAt) =>
      var (table, cursor) := WorkerTick(s.rows, s.table, s.cursor, limit, failAt);
      State(s.rows, table, cursor)
    case Restart => s.(cursor := 0)
  }

  function Run(table: Table, steps: seq<Step>): State {
    if steps == [] then State([], table, 0) else Next(Run(table, steps[..|steps| - 1]), steps[|steps| - 1])
  }

  // ----- What a stream determines -----

  /** An event the domain can replay; an opening names its own stream and a customer. */
  ghost predicate ValidEvent(e: AccountRow, a: string) {
    && e.aggregateType == ACCOUNT && !e.data.typ.TypeOther? && e.data.json.Json?
    && (e.data.typ == TypeOpened ==> e.data.json.accountId == a && e.data.json.customerId != "")
  }

  /** A stream that begins with `AccountOpened`, in any order of any domain events after that. */
  ghost predicate ValidStream(s: seq<AccountRow>, a: string) {
    && s != [] && s[0].data.typ == TypeOpened && Numbered(s)
    && forall i :: 0 <= i < |s| ==> ValidEvent(s[i], a)
  }

  ghost predicate OfAccount(s: seq<AccountRow>, a: string) {
    forall i :: 0 <= i < |s| ==> s[i].aggregateId == a
  }

  /** The primary key of the table. */
  ghost predicate Keyed(x: Option<ProjectionRow>, a: string) {
    x.Some? ==> x.value.accountId == a
  }

  /** On a row that already has a customer and a status, the worker does what replay does. */
  lemma {:induction false} ProjectIsApply(st: AccountState, e: AccountRow, a: string)
    requires ValidEvent(e, a) && st.id == a && st.customerId != "" && st.status != Unset && e.version == st.version + 1
    ensures var after := Applied(st, Unmarshal(e.data).value).(version := st.version + 1);
            && Projected(Some(RowOf(st)), e) == Some(RowOf(after))
            && after.id == a && after.customerId != "" && after.status != Unset
  {
  }

  ghost predicate IsReplay(s: seq<AccountRow>, a: string, st: AccountState) {
    && Rehydrate(s) == Ok(st)
    && st.id == a && st.customerId != "" && st.status != Unset && st.version == |s|
  }

  lemma {:induction false} ProjectOne(x: Option<ProjectionRow>, e: AccountRow)
    ensures ProjectAll(x, [e]) == Projected(x, e)
  {
    assert [e][..0] == [];
  }

  /** An opening overwrites whatever was there. */
  lemma {:induction false} OpeningRow(x: Option<ProjectionRow>, e: AccountRow, a: string)
    requires ValidEvent(e, a) && e.data.typ == TypeOpened && e.version == 1 && e.aggregateId == a && Keyed(x, a)
    ensures Projected(x, e) == Some(RowOf(AccountState(a, e.data.json.customerId, Active, 1)))
  {
  }

  lemma {:induction false} ProjectOpening(x: Option<ProjectionRow>, e: AccountRow, a: string)
    requires ValidEvent(e, a) && e.data.typ == TypeOpened && e.version == 1 && e.aggregateId == a && Keyed(x, a)
    ensures Rehydrate([e]).Ok? && IsReplay([e], a, Rehydrate([e]).value)
    ensures ProjectAll(x, [e]) == Some(RowOf(Rehydrate([e]).value))
  {
    OpeningReplays([e], a);
    ProjectOne(x, e);
    OpeningRow(x, e, a);
  }

  lemma {:induction false} FrontIsValid(s: seq<AccountRow>, a: string)
    requires |s| > 1 && ValidStream(s, a) && OfAccount(s, a)
    ensures var n := |s| - 1;
            && ValidStream(s[..n], a) && OfAccount(s[..n], a) && ValidEvent(s[n], a) && s[n].version == n + 1
            && s == s[..n] + [s[n]]
  {
    var n := |s| - 1;
    assert forall i :: 0 <= i < n ==> s[..n][i] == s[i];
  }

  /** Projecting a whole valid stream onto any row gives the row of its replay. */
  lemma {:induction false} ProjectStream(x: Option<ProjectionRow>, s: seq<AccountRow>, a: string)
    requires ValidStream(s, a) && Keyed(x, a) && OfAccount(s, a)
    ensures Rehydrate(s).Ok? && IsReplay(s, a, Rehydrate(s).value)
    ensures ProjectAll(x, s) == Some(RowOf(Rehydrate(s).value))
  {
    if |s| == 1 {
      assert s == [s[0]];
      ProjectOpening(x, s[0], a);
    } else {
      var front, last := s[..|s| - 1], s[|s| - 1];
      FrontIsValid(s, a);
      ProjectStream(x, front, a);
      ProjectMore(x, front, Rehydrate(front).value, last, a);
    }
  }

  lemma {:induction false} ProjectMore(x: Option<ProjectionRow>, s: seq<AccountRow>, st: AccountState, e: AccountRow,
                                       a: string)
    requires IsReplay(s, a, st) && ProjectAll(x, s) == Some(RowOf(st)) && ValidEvent(e, a) && e.version == |s| + 1
    ensures Rehydrate(s + [e]).Ok? && IsReplay(s + [e], a, Rehydrate(s + [e]).value)
    ensures ProjectAll(x, s + [e]) == Some(RowOf(Rehydrate(s + [e]).value))
  {
    ReplaySnoc(BLANK, s, e, st, Unmarshal(e.data).value);
    ProjectIsApply(st, e, a);
    assert (s + [e])[..|s|] == s;
  }

  lemma {:induction false} OpeningReplays(s: seq<AccountRow>, a: string)
    requires |s| == 1 && ValidEvent(s[0], a) && s[0].data.typ == TypeOpened
    ensures Rehydrate(s) == Ok(AccountState(a, s[0].data.json.customerId, Active, 1))
  {
    assert DataOf([]) == [];
    assert s == [] + [s[0]];
    ReplaySnoc(BLANK, [], s[0], BLANK, Unmarshal(s[0].data).value);
  }

  // ----- A partial pass is absorbed by the full pass -----

  function LastCustomer(t: seq<AccountRow>, d: string): string {
    if t == [] then d
    else if t[|t| - 1].data.typ == TypeOpened && t[|t| - 1].data.json.Json? then t[|t| - 1].data.json.customerId
    else LastCustomer(t[..|t| - 1], d)
  }

  function LastStatus(t: seq<AccountRow>, d: Status): Status {
    if t == [] then d
    else
      match t[|t| - 1].data.typ
      case TypeOpened => Active
      case TypeFrozen => Frozen
      case TypeClosed => Closed
      case _ => LastStatus(t[..|t| - 1], d)
  }

  ghost predicate Set(x: Option<ProjectionRow>, a: string) {
    x.Some? && x.value.accountId == a && x.value.customerId != "" && x.value.status != Unset
  }

  /** On a row that is set, each field ends as its last writer left it. */
  lemma {:induction false} LastWriters(x: Option<ProjectionRow>, t: seq<AccountRow>, a: string)
    requires Set(x, a) && forall i :: 0 <= i < |t| ==> ValidEvent(t[i], a)
    ensures Set(ProjectAll(x, t), a)
    ensures ProjectAll(x, t).value == ProjectionRow(a, LastCustomer(t, x.value.customerId),
                                                    LastStatus(t, x.value.status),
                                                    if t == [] then x.value.version else t[|t| - 1].version)
  {
    if t != [] {
      LastWriters(x, t[..|t| - 1], a);
    }
  }

  lemma {:induction false} LastAbsorbs(t: seq<AccountRow>, m: nat, c: string, d: Status)
    requires m <= |t|
    ensures LastCustomer(t, LastCustomer(t[..m], c)) == LastCustomer(t, c)
    ensures LastStatus(t, LastStatus(t[..m], d)) == LastStatus(t, d)
    decreases |t|
  {
    if m < |t| {
      assert t[..|t| - 1][..m] == t[..m];
      LastAbsorbs(t[..|t| - 1], m, c, d);
    } else {
      assert t[..m] == t;
      LastOverwrites(t, c, LastCustomer(t, c), d, LastStatus(t, d));
    }
  }

  /** Two starting values lead to the same end, or are both kept. */
  lemma {:induction false} LastOverwrites(t: seq<AccountRow>, c: string, c': string, d: Status, d': Status)
    ensures LastCustomer(t, c) == LastCustomer(t, c') || (LastCustomer(t, c) == c && LastCustomer(t, c') == c')
    ensures LastStatus(t, d) == LastStatus(t, d') || (LastStatus(t, d) == d && LastStatus(t, d') == d')
  {
    if t != [] {
      LastOverwrites(t[..|t| - 1], c, c', d, d');
    }
  }

  /** Replaying a pass from its start after any part of it was already applied changes nothing. */
  lemma {:induction false} PassAbsorbs(x: Option<ProjectionRow>, t: seq<AccountRow>, m: nat, a: string)
    requires Set(x, a) && m <= |t| && forall i :: 0 <= i < |t| ==> ValidEvent(t[i], a)
    ensures Set(ProjectAll(x, t[..m]), a)
    ensures ProjectAll(ProjectAll(x, t[..m]), t) == ProjectAll(x, t)
  {
    LastWriters(x, t[..m], a);
    LastWriters(x, t, a);
    LastWriters(ProjectAll(x, t[..m]), t, a);
    LastAbsorbs(t, m, x.value.customerId, x.value.status);
    assert t == [] ==> t[..m] == t;
  }

  // ----- How a row relates to the rest of its stream -----

  /** `rest` is what a pass over the valid stream `all` has still to apply: it leads from the row `x` to
      the row of the replay, and once the opening has been applied the row is set. */
  ghost predicate Leads(all: seq<AccountRow>, rest: seq<AccountRow>, x: Option<ProjectionRow>, a: string) {
    ValidStream(all, a) ==>
      && Rehydrate(all).Ok?
      && ProjectAll(x, rest) == Some(RowOf(Rehydrate(all).value))
      && (|rest| < |all| ==> Set(x, a))
  }

  /** A pass that starts at the opening lands on the replay from any row. */
  lemma {:induction false} LeadsFromStart(all: seq<AccountRow>, x: Option<ProjectionRow>, a: string)
    requires OfAccount(all, a) && Keyed(x, a)
    ensures Leads(all, all, x, a)
  {
    if ValidStream(all, a) { ProjectStream(x, all, a); }
  }

  lemma {:induction false} LeadsExtend(all: seq<AccountRow>, rest: seq<AccountRow>, row: AccountRow,
                                       x: Option<ProjectionRow>, a: string)
    requires Leads(all, rest, x, a) && OfAccount(all + [row], a) && all != []
    ensures Leads(all + [row], rest + [row], x, a)
  {
    if ValidStream(all + [row], a) {
      assert forall i :: 0 <= i < |all| ==> (all + [row])[i] == all[i];
      ProjectStream(None, all, a);
      ProjectStream(None, all + [row], a);
      ProjectAllConcat(x, rest, [row]);
      ProjectAllConcat(None, all, [row]);
    }
  }

  /** The first part of what is left, whether it is a whole batch or the part before a failure. */
  lemma {:induction false} AppliedIsSet(all: seq<AccountRow>, done: seq<AccountRow>, part: seq<AccountRow>,
                                        rest: seq<AccountRow>, x: Option<ProjectionRow>, a: string)
    requires ValidStream(all, a) && OfAccount(all, a) && Keyed(x, a) && all == done + part + rest
    requires done != [] ==> Set(x, a)
    requires done != [] || part != []
    ensures Set(ProjectAll(x, part), a)
  {
    if done == [] {
      assert forall i :: 0 <= i < |part| ==> part[i] == all[i];
      ProjectStream(x, part, a);
    } else {
      assert forall i :: 0 <= i < |part| ==> part[i] == all[|done| + i];
      LastWriters(x, part, a);
    }
  }

  lemma {:induction false} LeadsAfterBatch(all: seq<AccountRow>, done: seq<AccountRow>, part: seq<AccountRow>,
                                           rest: seq<AccountRow>, x: Option<ProjectionRow>, a: string)
    requires Leads(all, part + rest, x, a) && OfAccount(all, a) && Keyed(x, a) && all == done + part + rest
    ensures Leads(all, rest, ProjectAll(x, part), a)
  {
    if ValidStream(all, a) {
      ProjectAllConcat(x, part, rest);
      if done != [] || part != [] { AppliedIsSet(all, done, part, rest, x, a); }
    }
  }

  lemma {:induction false} LeadsAfterFailure(all: seq<AccountRow>, done: seq<AccountRow>, rest: seq<AccountRow>, m: nat,
                                             x: Option<ProjectionRow>, a: string)
    requires Leads(all, rest, x, a) && all == done + rest && m <= |rest|
    requires OfAccount(all, a) && Keyed(ProjectAll(x, rest[..m]), a)
    ensures Leads(all, rest, ProjectAll(x, rest[..m]), a)
  {
    if done == [] {
      assert all == rest;
      LeadsFromStart(all, ProjectAll(x, rest[..m]), a);
    } else if ValidStream(all, a) {
      TailEvents(all, done, rest, a);
      PassAbsorbs(x, rest, m, a);
    }
  }

  lemma {:induction false} TailEvents(all: seq<AccountRow>, done: seq<AccountRow>, rest: seq<AccountRow>, a: string)
    requires ValidStream(all, a) && all == done + rest
    ensures forall i :: 0 <= i < |rest| ==> ValidEvent(rest[i], a)
  {
    assert forall i :: 0 <= i < |rest| ==> rest[i] == all[|done| + i];
  }

  // ----- Batches, one account at a time -----

  ghost predicate KeyedTable(table: Table) {
    forall a :: a in table ==> table[a].accountId == a
  }

  lemma {:induction false} EventOnAccount(table: Table, e: AccountRow, a: string)
    requires KeyedTable(table)
    ensures KeyedTable(TableAfter(table, e))
    ensures Lookup(TableAfter(table, e), a) ==
            if e.aggregateId == a then Projected(Lookup(table, a), e) else Lookup(table, a)
  {
  }

  lemma {:induction false} BatchOnAccount(table: Table, batch: seq<AccountRow>, k: nat, a: string)
    requires KeyedTable(table) && k <= |batch|
    ensures KeyedTable(TableUpTo(table, batch, k))
    ensures Lookup(TableUpTo(table, batch, k), a) == ProjectAll(Lookup(table, a), Stream(batch[..k], a))
  {
    if k == 0 {
      assert batch[..0] == [];
    } else {
      BatchOnAccount(table, batch, k - 1, a);
      EventOnAccount(TableUpTo(table, batch, k - 1), batch[k - 1], a);
      assert batch[..k] == batch[..k - 1] + [batch[k - 1]];
      StreamAppend(batch[..k - 1], batch[k - 1], a);
    }
  }

  // ----- The invariant of every run -----

  ghost predicate OnTrack(s: State, a: string) {
    OnTrackAt(s.rows, Passed(s.rows, s.cursor), Lookup(s.table, a), a)
  }

  ghost predicate Inv(s: State, a: string) {
    Ascending(s.rows) && s.cursor <= LastSequence(s.rows) && KeyedTable(s.table) && OnTrack(s, a)
  }

  lemma {:induction false} StreamIds(rows: seq<AccountRow>, a: string)
    ensures OfAccount(Stream(rows, a), a)
  {
    forall i | 0 <= i < |Stream(rows, a)|
      ensures Stream(rows, a)[i].aggregateId == a
    {
      StreamMember(rows, a, i);
    }
  }

  lemma {:induction false} StreamThree(xs: seq<AccountRow>, ys: seq<AccountRow>, zs: seq<AccountRow>, a: string)
    ensures Stream(xs + ys + zs, a) == Stream(xs, a) + Stream(ys, a) + Stream(zs, a)
    ensures Stream(ys + zs, a) == Stream(ys, a) + Stream(zs, a)
  {
    StreamConcat(xs + ys, zs, a);
    StreamConcat(xs, ys, a);
    StreamConcat(ys, zs, a);
  }

  lemma {:induction false} AppendKeepsInv(s: State, row: AccountRow, a: string)
    requires Inv(s, a) && LastSequence(s.rows) < row.sequence
    ensures Inv(s.(rows := s.rows + [row]), a)
  {
    var p := Passed(s.rows, s.cursor);
    AscendingAppend(s.rows, row);
    PassedAppend(s.rows, row, s.cursor);
    AppendOnTrack(s.rows, p, row, Lookup(s.table, a), a);
  }

  lemma {:induction false} AppendOnTrack(rows: seq<AccountRow>, p: nat, row: AccountRow, x: Option<ProjectionRow>,
                                         a: string)
    requires p <= |rows| && Leads(Stream(rows, a), Stream(rows[p..], a), x, a) && Keyed(x, a)
    ensures Leads(Stream(rows + [row], a), Stream((rows + [row])[p..], a), x, a)
  {
    var all, rest := Stream(rows, a), Stream(rows[p..], a);
    assert (rows + [row])[p..] == rows[p..] + [row] && rows == rows[..p] + rows[p..];
    StreamAppend(rows, row, a);
    StreamAppend(rows[p..], row, a);
    StreamConcat(rows[..p], rows[p..], a);
    StreamIds(rows + [row], a);
    if row.aggregateId == a {
      if all == [] {
        assert rest == [];
        LeadsFromStart(all + [row], x, a);
      } else {
        LeadsExtend(all, rest, row, x, a);
      }
    }
  }

  /** A stream, cut where a batch begins and where it ends. */
  lemma {:induction false} StreamCut(rows: seq<AccountRow>, p: nat, k: nat, a: string)
    requires p <= k <= |rows|
    ensures Stream(rows, a) == Stream(rows[..p], a) + Stream(rows[p..k], a) + Stream(rows[k..], a)
    ensures Stream(rows[p..], a) == Stream(rows[p..k], a) + Stream(rows[k..], a)
  {
    assert rows == rows[..p] + rows[p..k] + rows[k..] && rows[p..] == rows[p..k] + rows[k..];
    StreamThree(rows[..p], rows[p..k], rows[k..], a);
  }

  lemma {:induction false} BatchPassed(rows: seq<AccountRow>, p: nat, k: nat, x: Option<ProjectionRow>, a: string)
    requires p <= k <= |rows| && Keyed(x, a) && Leads(Stream(rows, a), Stream(rows[p..], a), x, a)
    ensures Leads(Stream(rows, a), Stream(rows[k..], a), ProjectAll(x, Stream(rows[p..k], a)), a)
  {
    StreamCut(rows, p, k, a);
    StreamIds(rows, a);
    LeadsAfterBatch(Stream(rows, a), Stream(rows[..p], a), Stream(rows[p..k], a), Stream(rows[k..], a), x, a);
  }

  lemma {:induction false} BatchFailed(rows: seq<AccountRow>, p: nat, k: nat, x: Option<ProjectionRow>, a: string)
    requires p <= k <= |rows| && Keyed(x, a) && Leads(Stream(rows, a), Stream(rows[p..], a), x, a)
    requires Keyed(ProjectAll(x, Stream(rows[p..k], a)), a)
    ensures Leads(Stream(rows, a), Stream(rows[p..], a), ProjectAll(x, Stream(rows[p..k], a)), a)
  {
    var done, part, rest := Stream(rows[..p], a), Stream(rows[p..k], a), Stream(rows[k..], a);
    StreamCut(rows, p, k, a);
    StreamIds(rows, a);
    Regroup(done, part, rest);
    LeadsAfterFailure(Stream(rows, a), done, part + rest, |part|, x, a);
  }

  lemma {:induction false} Regroup(x: seq<AccountRow>, y: seq<AccountRow>, z: seq<AccountRow>)
    ensures x + y + z == x + (y + z) && (y + z)[..|y|] == y
  {
  }

  lemma {:induction false} TickOnTrack(rows: seq<AccountRow>, p: nat, k: nat, q: nat,
                                       x: Option<ProjectionRow>, y: Option<ProjectionRow>, a: string)
    requires p <= k <= |rows| && (q == k || q == p) && Keyed(x, a) && Keyed(y, a)
    requires y == ProjectAll(x, Stream(rows[p..k], a))
    requires Leads(Stream(rows, a), Stream(rows[p..], a), x, a)
    ensures Leads(Stream(rows, a), Stream(rows[q..], a), y, a)
  {
    if q == k {
      BatchPassed(rows, p, k, x, a);
    } else {
      BatchFailed(rows, p, k, x, a);
    }
  }

  lemma {:induction false} BatchPrefix(rows: seq<AccountRow>, cursor: nat, limit: int, n: nat)
    requires n <= |BatchOf(rows, cursor, limit)|
    ensures var p := Passed(rows, cursor);
            p + n <= |rows| && BatchOf(rows, cursor, limit)[..n] == rows[p..p + n]
  {
    var p := Passed(rows, cursor);
    var batch := BatchOf(rows, cursor, limit);
    assert forall i :: 0 <= i < n ==> batch[..n][i] == rows[p + i];
  }

  lemma {:induction false} RangeOnAccount(rows: seq<AccountRow>, p: nat, batch: seq<AccountRow>, n: nat, table: Table,
                                          a: string)
    requires KeyedTable(table) && n <= |batch| && p + n <= |rows| && batch[..n] == rows[p..p + n]
    ensures KeyedTable(TableUpTo(table, batch, n))
    ensures Lookup(TableUpTo(table, batch, n), a) == ProjectAll(Lookup(table, a), Stream(rows[p..p + n], a))
  {
    BatchOnAccount(table, batch, n, a);
  }

  /** What a tick writes, seen from one account. */
  lemma {:induction false} TickWrites(s: State, limit: int, failAt: nat, a: string) returns (p: nat, n: nat,
                                      after: Table)
    requires KeyedTable(s.table)
    ensures p == Passed(s.rows, s.cursor) && n == Handled(s.table, BatchOf(s.rows, s.cursor, limit), failAt, 0)
    ensures after == WorkerTick(s.rows, s.table, s.cursor, limit, failAt).0
    ensures p + n <= |s.rows| && KeyedTable(after)
    ensures Lookup(after, a) == ProjectAll(Lookup(s.table, a), Stream(s.rows[p..p + n], a))
  {
    var batch := BatchOf(s.rows, s.cursor, limit);
    p, n := Passed(s.rows, s.cursor), Handled(s.table, batch, failAt, 0);
    after := TableUpTo(s.table, batch, n);
    BatchPrefix(s.rows, s.cursor, limit, n);
    RangeOnAccount(s.rows, p, batch, n, s.table, a);
  }

  /** Where a tick leaves the cursor. */
  lemma {:induction false} TickMoves(s: State, limit: int, failAt: nat, p: nat, n: nat) returns (next: nat)
    requires Ascending(s.rows) && s.cursor <= LastSequence(s.rows)
    requires p == Passed(s.rows, s.cursor) && n == Handled(s.table, BatchOf(s.rows, s.cursor, limit), failAt, 0)
    ensures next == WorkerTick(s.rows, s.table, s.cursor, limit, failAt).1
    ensures next <= LastSequence(s.rows) && (Passed(s.rows, next) == p || Passed(s.rows, next) == p + n)
  {
    BatchAdvances(s.rows, s.cursor, limit);
    next := WorkerTick(s.rows, s.table, s.cursor, limit, failAt).1;
  }

  lemma {:induction false} TickIsWorkerTick(s: State, limit: int, failAt: nat, table: Table, cursor: nat)
    requires table == WorkerTick(s.rows, s.table, s.cursor, limit, failAt).0
    requires cursor == WorkerTick(s.rows, s.table, s.cursor, limit, failAt).1
    ensures Next(s, Tick(limit, failAt)) == State(s.rows, table, cursor)
  {
  }

  /** The invariant of one account, with the position and the row named. */
  ghost predicate OnTrackAt(rows: seq<AccountRow>, position: nat, row: Option<ProjectionRow>, a: string)
    requires position <= |rows|
  {
    Leads(Stream(rows, a), Stream(rows[position..], a), row, a)
  }

  /** Seen from one account, a tick applies some rows after the cursor, and then stays or moves past them. */
  lemma {:induction false} MovedOnTrack(rows: seq<AccountRow>, p: nat, n: nat, q: nat,
                                        x: Option<ProjectionRow>, y: Option<ProjectionRow>, a: string)
    requires p + n <= |rows| && (q == p || q == p + n) && Keyed(x, a) && Keyed(y, a)
    requires y == ProjectAll(x, Stream(rows[p..p + n], a)) && OnTrackAt(rows, p, x, a)
    ensures OnTrackAt(rows, q, y, a)
  {
    TickOnTrack(rows, p, p + n, q, x, y, a);
  }

  lemma {:induction false} KeyedLookup(table: Table, a: string)
    requires KeyedTable(table)
    ensures Keyed(Lookup(table, a), a)
  {
  }

  lemma {:induction false} MovedKeepsInv(s: State, table: Table, cursor: nat, p: nat, n: nat, a: string)
    requires Inv(s, a) && KeyedTable(table) && cursor <= LastSequence(s.rows)
    requires p == Passed(s.rows, s.cursor) && p + n <= |s.rows|
    requires Passed(s.rows, cursor) == p || Passed(s.rows, cursor) == p + n
    requires Lookup(table, a) == ProjectAll(Lookup(s.table, a), Stream(s.rows[p..p + n], a))
    ensures Inv(State(s.rows, table, cursor), a)
  {
    KeyedLookup(s.table, a);
    KeyedLookup(table, a);
    MovedOnTrack(s.rows, p, n, Passed(s.rows, cursor), Lookup(s.table, a), Lookup(table, a), a);
  }

  lemma {:induction false} TickKeepsInv(s: State, limit: int, failAt: nat, a: string)
    requires Inv(s, a)
    ensures Inv(Next(s, Tick(limit, failAt)), a)
  {
    var p, n, table := TickWrites(s, limit, failAt, a);
    var cursor := TickMoves(s, limit, failAt, p, n);
    MovedKeepsInv(s, table, cursor, p, n, a);
    TickIsWorkerTick(s, limit, failAt, table, cursor);
  }

  lemma {:induction false} RestartKeepsInv(s: State, a: string)
    requires Inv(s, a)
    ensures Inv(Next(s, Restart), a)
  {
    assert Passed(s.rows, 0) == 0;
    assert s.rows[0..] == s.rows;
    StreamIds(s.rows, a);
    LeadsFromStart(Stream(s.rows, a), Lookup(s.table, a), a);
  }

  lemma {:induction false} RunKeepsInv(table: Table, steps: seq<Step>, a: string)
    requires KeyedTable(table)
    ensures Inv(Run(table, steps), a)
  {
    if steps != [] {
      var s, step := Run(table, steps[..|steps| - 1]), steps[|steps| - 1];
      RunKeepsInv(table, steps[..|steps| - 1], a);
      match step
      case Append(row) => if LastSequence(s.rows) < row.sequence { AppendKeepsInv(s, row, a); }
      case Tick(limit, failAt) => TickKeepsInv(s, limit, failAt, a);
      case Restart => RestartKeepsInv(s, a);
    }
  }

  // ----- Main result -----

  /** Projection convergence. From any initial table, with any batch sizes, failures in the middle of a
      batch, retries and restarts, and with the log growing meanwhile: whenever the cursor stands at the
      end of the log, every stream that begins with `AccountOpened` has the row of its replay. */
  lemma {:induction false} ProjectionConverges(table: Table, steps: seq<Step>, a: string)
    requires KeyedTable(table)
    requires var s := Run(table, steps);
             Passed(s.rows, s.cursor) == |s.rows| && ValidStream(Stream(s.rows, a), a)
    ensures var s := Run(table, steps);
            && Rehydrate(Stream(s.rows, a)).Ok?
            && a in s.table && s.table[a] == RowOf(Rehydrate(Stream(s.rows, a)).value)
  {
    var s := Run(table, steps);
    RunKeepsInv(table, steps, a);
    assert s.rows[|s.rows|..] == [];
  }
}
