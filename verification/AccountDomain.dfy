/** The account aggregate: its events, its replay and its stored form. */
module AccountDomain {
  import opened Common

  datatype Status = Unset | Pending | Active | Frozen | Closed

  datatype Event =
    | AccountOpened(accountId: string, customerId: string, occurredAt: int)
    | AccountFrozen(accountId: string, occurredAt: int)
    | AccountClosed(accountId: string, occurredAt: int)
    | MoneyDeposited(accountId: string, amount: Money, entryId: string, occurredAt: int)
    | MoneyWithdrawn(accountId: string, amount: Money, entryId: string, occurredAt: int)

  predicate IsMoney(e: Event) {
    e.MoneyDeposited? || e.MoneyWithdrawn?
  }

  /** The fields of the aggregate, which are also the fields of its snapshot. */
  datatype AccountState = AccountState(id: string, customerId: string, status: Status, version: int)

  const BLANK := AccountState("", "", Unset, 0)

  function Applied(a: AccountState, e: Event): AccountState {
    match e
    case AccountOpened(id, customer, _) => a.(id := id, customerId := customer, status := Active)
    case AccountFrozen(_, _) => a.(status := Frozen)
    case AccountClosed(_, _) => a.(status := Closed)
    case MoneyDeposited(_, _, _, _) => a
    case MoneyWithdrawn(_, _, _, _) => a
  }

  function Replay(a: AccountState, events: seq<Event>): AccountState {
    if events == [] then a
    else
      var before := Replay(a, events[..|events| - 1]);
      Applied(before, events[|events| - 1]).(version := before.version + 1)
  }

  lemma {:induction false} ReplayConcat(a: AccountState, xs: seq<Event>, ys: seq<Event>)
    ensures Replay(a, xs + ys) == Replay(Replay(a, xs), ys)
  {
    if ys == [] {
      assert xs + ys == xs;
    } else {
      var front := ys[..|ys| - 1];
      assert (xs + ys)[..|xs + ys| - 1] == xs + front;
      ReplayConcat(a, xs, front);
    }
  }

  // ----- The aggregate as the service updates it -----

  class Account {
    var id: string
    var customerId: string
    var status: Status
    var version: int
    var changes: seq<Event>

    function State(): AccountState
      reads this
    {
      AccountState(id, customerId, status, version)
    }

    constructor FromSnapshot(s: AccountState)
      ensures State() == s && changes == []
    {
      id, customerId, status, version := s.id, s.customerId, s.status, s.version;
      changes := [];
    }

    method Apply(e: Event)
      modifies this
      ensures State() == Applied(old(State()), e) && changes == old(changes)
    {
      match e {
        case AccountOpened(i, c, _) =>
          id := i;
          customerId := c;
          status := Active;
        case AccountFrozen(_, _) => status := Frozen;
        case AccountClosed(_, _) => status := Closed;
        case _ =>
      }
    }

    method Raise(e: Event)
      modifies this
      ensures State() == Replay(old(State()), [e]) && changes == old(changes) + [e]
    {
      changes := changes + [e];
      Apply(e);
      version := version + 1;
      assert [e][..0] == [];
    }

    method Freeze(now: int) returns (error: Option<Error>)
      modifies this
      ensures var (reply, raised) := Decide(old(State()), FreezeCommand(now));
              error == reply && changes == old(changes) + raised && State() == Replay(old(State()), raised)
    {
      if status == Closed { return Some(ClosedAccount); }
      if status != Active { return Some(AccountNotActive); }
      Raise(AccountFrozen(id, now));
      return None;
    }

    method Close(now: int) returns (error: Option<Error>)
      modifies this
      ensures var (reply, raised) := Decide(old(State()), CloseCommand(now));
              error == reply && changes == old(changes) + raised && State() == Replay(old(State()), raised)
    {
      if status == Closed { return None; }
      if status != Active { return Some(AccountNotActive); }
      Raise(AccountClosed(id, now));
      return None;
    }

    method PullChanges() returns (out: seq<Event>)
      modifies this`changes
      ensures out == old(changes) && changes == []
    {
      out := changes;
      changes := [];
    }
  }

  /** `NewAccount`: the first event of every stream. */
  method NewAccount(customerId: string, newId: string, now: int) returns (r: Result<Account>)
    ensures customerId == "" ==> r == Err(CustomerIdRequired)
    ensures customerId != "" ==>
              && r.Ok? && fresh(r.value)
              && r.value.changes == [AccountOpened(newId, customerId, now)]
              && r.value.State() == Replay(BLANK, r.value.changes) == AccountState(newId, customerId, Active, 1)
  {
    if customerId == "" { return Err(CustomerIdRequired); }
    var a := new Account.FromSnapshot(BLANK);
    a.Raise(AccountOpened(newId, customerId, now));
    return Ok(a);
  }

  /** `RehydrateFromSnapshot`; `Rehydrate` is the same loop from the blank aggregate. */
  method RehydrateFromSnapshot(s: AccountState, events: seq<Event>) returns (a: Account)
    ensures fresh(a) && a.State() == Replay(s, events) && a.changes == []
  {
    a := new Account.FromSnapshot(s);
    for i := 0 to |events|
      invariant fresh(a) && a.changes == []
      invariant a.State() == Replay(s, events[..i])
    {
      assert events[..i + 1][..i] == events[..i];
      a.Apply(events[i]);
      a.version := a.version + 1;
    }
    assert events[..|events|] == events;
  }

  // ----- Runs of the aggregate's own commands -----

  datatype Command = FreezeCommand(now: int) | CloseCommand(now: int)

  /** The reply to a command and the events it raises. */
  function Decide(a: AccountState, c: Command): (Option<Error>, seq<Event>) {
    match c
    case FreezeCommand(now) =>
      if a.status == Closed then (Some(ClosedAccount), [])
      else if a.status != Active then (Some(AccountNotActive), [])
      else (None, [AccountFrozen(a.id, now)])
    case CloseCommand(now) =>
      if a.status == Closed then (None, [])
      else if a.status != Active then (Some(AccountNotActive), [])
      else (None, [AccountClosed(a.id, now)])
  }

  /** What each command does to each status: only an active account is frozen or closed, a closed one answers a
      second close with silence and a freeze with its own error, and every other one is refused. */
  lemma {:induction false} CommandsMove(a: AccountState, c: Command)
    ensures var (error, raised) := Decide(a, c);
            var after := Replay(a, raised);
            && (a.status == Active ==>
                && error.None? && |raised| == 1 && raised[0].accountId == a.id && raised[0].occurredAt == c.now
                && after == a.(status := if c.FreezeCommand? then Frozen else Closed, version := a.version + 1))
            && (a.status != Active ==> raised == [] && after == a)
            && (a.status == Closed ==> error == if c.FreezeCommand? then Some(ClosedAccount) else None)
            && (a.status != Active && a.status != Closed ==> error == Some(AccountNotActive))
  {
    var raised := Decide(a, c).1;
    if a.status == Active { assert raised[..0] == []; }
  }

  /** All events raised by a list of commands on an account that has already raised `history`. */
  function RunCommands(history: seq<Event>, commands: seq<Command>): seq<Event>
    decreases |commands|
  {
    if commands == [] then history
    else RunCommands(history + Decide(Replay(BLANK, history), commands[0]).1, commands[1..])
  }

  /** An account's own commands raise at most one event: frozen and closed are both final. */
  lemma {:induction false} FrozenAndClosedAreFinal(first: Event, history: seq<Event>, commands: seq<Command>)
    requires first.AccountOpened?
    requires history == [first] || exists now ::
               history == [first, AccountFrozen(first.accountId, now)] ||
               history == [first, AccountClosed(first.accountId, now)]
    ensures history <= RunCommands(history, commands)
    ensures RunCommands(history, commands) == [first] || exists now ::
              RunCommands(history, commands) == [first, AccountFrozen(first.accountId, now)] ||
              RunCommands(history, commands) == [first, AccountClosed(first.accountId, now)]
    ensures |history| == 2 ==> RunCommands(history, commands) == history
    decreases |commands|
  {
    assert Replay(BLANK, [first]) == AccountState(first.accountId, first.customerId, Active, 1) by {
      assert [first][..0] == [];
    }
    assert history[..1] == [first];
    if commands != [] {
      var raised := Decide(Replay(BLANK, history), commands[0]).1;
      if |history| == 2 {
        assert raised == [];
        assert history + raised == history;
      } else {
        assert raised == [AccountFrozen(first.accountId, commands[0].now)]
            || raised == [AccountClosed(first.accountId, commands[0].now)];
      }
      FrozenAndClosedAreFinal(first, history + raised, commands[1..]);
    }
  }

  // ----- The stored form -----

  datatype EventType = TypeOpened | TypeFrozen | TypeClosed | TypeDeposited | TypeWithdrawn | TypeOther(name: string)

  /** The JSON document in the `data` column: the fields it carries, or text that does not parse. */
  datatype Json = Malformed | Json(accountId: string, customerId: string, entryId: string, occurredAt: int)

  datatype Stored = Stored(typ: EventType, json: Json)

  /** `EventType` and `json.Marshal`; the amount of a money event is not written. */
  function Marshal(e: Event): Stored {
    match e
    case AccountOpened(id, customer, at) => Stored(TypeOpened, Json(id, customer, "", at))
    case AccountFrozen(id, at) => Stored(TypeFrozen, Json(id, "", "", at))
    case AccountClosed(id, at) => Stored(TypeClosed, Json(id, "", "", at))
    case MoneyDeposited(id, _, entry, at) => Stored(TypeDeposited, Json(id, "", entry, at))
    case MoneyWithdrawn(id, _, entry, at) => Stored(TypeWithdrawn, Json(id, "", entry, at))
  }

  /** `UnmarshalAccountEvent`. */
  function Unmarshal(s: Stored): Result<Event> {
    if s.typ.TypeOther? then Err(UnknownEventType)
    else if s.json.Malformed? then Err(MalformedData)
    else
      match s.typ
      case TypeOpened => Ok(AccountOpened(s.json.accountId, s.json.customerId, s.json.occurredAt))
      case TypeFrozen => Ok(AccountFrozen(s.json.accountId, s.json.occurredAt))
      case TypeClosed => Ok(AccountClosed(s.json.accountId, s.json.occurredAt))
      case TypeDeposited => Ok(MoneyDeposited(s.json.accountId, ZERO_MONEY, s.json.entryId, s.json.occurredAt))
      case TypeWithdrawn => Ok(MoneyWithdrawn(s.json.accountId, ZERO_MONEY, s.json.entryId, s.json.occurredAt))
  }

  /** Exactly which documents decode, and why the others do not. */
  lemma {:induction false} DecodesIff(s: Stored)
    ensures Unmarshal(s) == Err(UnknownEventType) <==> s.typ.TypeOther?
    ensures Unmarshal(s) == Err(MalformedData) <==> !s.typ.TypeOther? && s.json.Malformed?
    ensures Unmarshal(s).Ok? <==> !s.typ.TypeOther? && s.json.Json?
  {
  }

  function WithoutAmount(e: Event): Event {
    if IsMoney(e) then e.(amount := ZERO_MONEY) else e
  }

  /** Storing an event loses exactly its amount, and replay cannot tell. */
  lemma {:induction false} StoredEventsReplay(a: AccountState, e: Event)
    ensures Unmarshal(Marshal(e)) == Ok(WithoutAmount(e))
    ensures Applied(a, WithoutAmount(e)) == Applied(a, e)
  {
  }

  function StoredAll(events: seq<Event>): (s: seq<Stored>)
    ensures |s| == |events|
    ensures forall i :: 0 <= i < |s| ==> s[i] == Marshal(events[i])
  {
    seq(|events|, i requires 0 <= i < |events| => Marshal(events[i]))
  }

  /** Decoding a list stops at the first document that does not decode. */
  function UnmarshalAll(stored: seq<Stored>): (r: Result<seq<Event>>)
    ensures r.Ok? ==> |r.value| == |stored| && forall i :: 0 <= i < |stored| ==> Unmarshal(stored[i]) == Ok(r.value[i])
  {
    if stored == [] then Ok([])
    else
      match UnmarshalAll(stored[..|stored| - 1])
      case Err(e) => Err(e)
      case Ok(front) =>
        match Unmarshal(stored[|stored| - 1])
        case Err(e) => Err(e)
        case Ok(last) => Ok(front + [last])
  }

  /** A whole history read back from storage rebuilds the same aggregate from any starting state. */
  lemma {:induction false} StoredHistoryReplays(a: AccountState, events: seq<Event>)
    ensures UnmarshalAll(StoredAll(events)).Ok?
    ensures Replay(a, UnmarshalAll(StoredAll(events)).value) == Replay(a, events)
  {
    if events != [] {
      var n := |events| - 1;
      StoredHistoryReplays(a, events[..n]);
      assert StoredAll(events)[..n] == StoredAll(events[..n]);
      var front := UnmarshalAll(StoredAll(events[..n])).value;
      StoredEventsReplay(Replay(a, front), events[n]);
      assert (front + [WithoutAmount(events[n])])[..n] == front;
    }
  }
}
