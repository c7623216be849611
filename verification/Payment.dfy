/** The payment aggregate and its histories. */
module Payment {
  import opened Common
  import opened Text

  datatype Status = NoStatus | Initiated | Authorized | Settled | Failed

  datatype Event =
    | PaymentInitiated(id: string, from: string, to: string, amount: Money, narration: string, at: int)
    | PaymentAuthorized(id: string, at: int)
    | PaymentSettled(id: string, at: int)
    | PaymentFailed(id: string, reason: string, at: int)
    | Other      // a value of any other type

  datatype View = View(
    id: string, from: string, to: string, amount: Money, narration: string, status: Status, version: nat)

  /** Go's zero `Payment`. */
  const BLANK := View("", "", "", ZERO_MONEY, "", NoStatus, 0)

  /** `Apply`; an unknown event is an error and changes nothing. */
  function Applied(v: View, e: Event): View {
    match e
    case PaymentInitiated(id, from, to, amount, narration, _) =>
      View(id, from, to, amount, narration, Initiated, v.version + 1)
    case PaymentAuthorized(_, _) => v.(status := Authorized, version := v.version + 1)
    case PaymentSettled(_, _) => v.(status := Settled, version := v.version + 1)
    case PaymentFailed(_, _, _) => v.(status := Failed, version := v.version + 1)
    case Other => v
  }

  function Replay(v: View, es: seq<Event>): View {
    if es == [] then v else Applied(Replay(v, es[..|es| - 1]), es[|es| - 1])
  }

  function Reason(text: string): string {
    if TrimSpace(text) == "" then "failed" else TrimSpace(text)
  }

  datatype Command =
    | Authorize(at: int)
    | Settle(at: int)
    | Fail(reason: string, at: int)
    | Pull

  /** The event a command raises; `None` if the command is refused or raises nothing. */
  function Raises(v: View, c: Command): Option<Event> {
    match c
    case Authorize(at) => if v.status == Initiated then Some(PaymentAuthorized(v.id, at)) else None
    case Settle(at) => if v.status == Authorized then Some(PaymentSettled(v.id, at)) else None
    case Fail(reason, at) => if v.status != Settled then Some(PaymentFailed(v.id, Reason(reason), at)) else None
    case Pull => None
  }

  /** State, pending events and refusal after a command that is not a pull. */
  function Done(v: View, changes: seq<Event>, c: Command): (View, seq<Event>, bool) {
    match Raises(v, c)
    case None => (v, changes, true)
    case Some(e) => (Applied(v, e), changes + [e], false)
  }

  /** `NewPayment`'s guards. */
  function Refusal(from: string, to: string, amount: Money): Option<string> {
    if TrimSpace(from) == "" then Some("from_account_id required")
    else if TrimSpace(to) == "" then Some("to_account_id required")
    else if from == to then Some("from_account_id and to_account_id must differ")
    else if amount.currency != NGN then Some("unsupported currency")
    else if amount.amountKobo <= 0 then Some("amount must be positive")
    else None
  }

  /** Which payments are refused: exactly those with a blank side, with one account on both, in another currency or
      without an amount. */
  lemma {:induction false} RefusedIff(from: string, to: string, amount: Money)
    ensures Refusal(from, to, amount).None? <==>
            && TrimSpace(from) != "" && TrimSpace(to) != "" && from != to
            && amount.currency == "NGN" && amount.amountKobo > 0
    ensures TrimSpace(from) == "" ==> Refusal(from, to, amount) == Some("from_account_id required")
    ensures TrimSpace(from) != "" && TrimSpace(to) == "" ==> Refusal(from, to, amount) == Some("to_account_id required")
  {
  }

  /** What every command answers and does in every status. */
  lemma {:induction false} CommandMeans(v: View, changes: seq<Event>, c: Command)
    requires !c.Pull?
    ensures var (after, pending, refused) := Done(v, changes, c);
            && (refused <==> match c
                             case Authorize(_) => v.status != Initiated
                             case Settle(_) => v.status != Authorized
                             case _ => v.status == Settled)
            && (refused ==> after == v && pending == changes)
            && (!refused ==>
                && after == v.(version := v.version + 1,
                               status := if c.Authorize? then Authorized else if c.Settle? then Settled else Failed)
                && |pending| == |changes| + 1 && changes <= pending
                && pending[|changes|] ==
                   match c
                   case Authorize(at) => PaymentAuthorized(v.id, at)
                   case Settle(at) => PaymentSettled(v.id, at)
                   case Fail(text, at) =>
                     PaymentFailed(v.id, if TrimSpace(text) == "" then "failed" else TrimSpace(text), at))
  {
  }

  // ----- The aggregate in place -----

  class Aggregate {
    var id: string
    var from: string
    var to: string
    var amount: Money
    var narration: string
    var status: Status
    var version: nat
    var changes: seq<Event>

    function State(): View
      reads this
    {
      View(id, from, to, amount, narration, status, version)
    }

    constructor Blank()
      ensures State() == BLANK && changes == []
    {
      id, from, to, amount, narration, status, version, changes := "", "", "", ZERO_MONEY, "", NoStatus, 0, [];
    }

    method Apply(e: Event) returns (unknown: bool)
      modifies this
      ensures State() == Applied(old(State()), e) && changes == old(changes)
      ensures unknown <==> e == Other
    {
      match e
      case PaymentInitiated(i, f, t, a, n, _) =>
        id, from, to, amount, narration := i, f, t, a, n;
        status, version := Initiated, version + 1;
        return false;
      case PaymentAuthorized(_, _) =>
        status, version := Authorized, version + 1;
        return false;
      case PaymentSettled(_, _) =>
        status, version := Settled, version + 1;
        return false;
      case PaymentFailed(_, _, _) =>
        status, version := Failed, version + 1;
        return false;
      case Other =>
        return true;
    }

    method Raise(e: Event)
      modifies this
      ensures State() == Applied(old(State()), e) && changes == old(changes) + [e]
    {
      var _ := Apply(e);
      changes := changes + [e];
    }

    method Authorize(at: int) returns (refused: bool)
      modifies this
      ensures (State(), changes, refused) == Done(old(State()), old(changes), Command.Authorize(at))
    {
      if status != Initiated { return true; }
      Raise(PaymentAuthorized(id, at));
      return false;
    }

    method Settle(at: int) returns (refused: bool)
      modifies this
      ensures (State(), changes, refused) == Done(old(State()), old(changes), Command.Settle(at))
    {
      if status != Authorized { return true; }
      Raise(PaymentSettled(id, at));
      return false;
    }

    method Fail(text: string, at: int) returns (refused: bool)
      modifies this
      ensures (State(), changes, refused) == Done(old(State()), old(changes), Command.Fail(text, at))
    {
      if status == Settled { return true; }
      var reason := TrimSpace(text);
      if reason == "" { reason := "failed"; }
      Raise(PaymentFailed(id, reason, at));
      return false;
    }

    method PullChanges() returns (out: seq<Event>)
      modifies this
      ensures out == old(changes) && changes == [] && State() == old(State())
    {
      out := changes;
      changes := [];
    }
  }

  /** `NewPayment`; `id` and `at` are what the id source and the clock return. */
  method NewPayment(from: string, to: string, amount: Money, narration: string, id: string, at: int)
    returns (p: Aggregate?, error: Option<string>)
    ensures error == Refusal(from, to, amount) && (p == null <==> error.Some?)
    ensures p != null ==>
              && fresh(p) && p.changes == [PaymentInitiated(id, from, to, amount, narration, at)]
              && p.State() == View(id, from, to, amount, narration, Initiated, 1)
  {
    if TrimSpace(from) == "" { return null, Some("from_account_id required"); }
    if TrimSpace(to) == "" { return null, Some("to_account_id required"); }
    if from == to { return null, Some("from_account_id and to_account_id must differ"); }
    if amount.currency != NGN { return null, Some("unsupported currency"); }
    if amount.amountKobo <= 0 { return null, Some("amount must be positive"); }
    var q := new Aggregate.Blank();
    q.id, q.from, q.to, q.amount, q.narration, q.status := id, from, to, amount, narration, Initiated;
    q.Raise(PaymentInitiated(id, from, to, amount, narration, at));
    return q, None;
  }

  // ----- Runs -----

  /** A payment, what was pulled from it so far, and what waits. */
  datatype Life = Life(view: View, pulled: seq<Event>, pending: seq<Event>)

  function Step(s: Life, c: Command): Life {
    if c.Pull? then Life(s.view, s.pulled + s.pending, [])
    else
      var (view, pending, _) := Done(s.view, s.pending, c);
      Life(view, s.pulled, pending)
  }

  function Run(s: Life, cs: seq<Command>): Life {
    if cs == [] then s else Step(Run(s, cs[..|cs| - 1]), cs[|cs| - 1])
  }

  /** An opening that `NewPayment` raises. */
  predicate Opening(e: Event) {
    e.PaymentInitiated? && Refusal(e.from, e.to, e.amount).None?
  }

  /** A payment that `NewPayment` has just returned. */
  function Start(e: Event): Life
    requires Opening(e)
  {
    Life(Applied(BLANK, e), [], [e])
  }

  function History(s: Life): seq<Event> {
    s.pulled + s.pending
  }

  predicate FailedFrom(h: seq<Event>, n: nat) {
    forall i :: n <= i < |h| ==> h[i].PaymentFailed?
  }

  /** What the history looks like in each status. */
  predicate Shape(h: seq<Event>, status: Status) {
    && h != [] && h[0].PaymentInitiated?
    && match status
       case NoStatus => false
       case Initiated => |h| == 1
       case Authorized => |h| == 2 && h[1].PaymentAuthorized?
       case Settled => |h| == 3 && h[1].PaymentAuthorized? && h[2].PaymentSettled?
       case Failed =>
         || (|h| > 1 && FailedFrom(h, 1))
         || (|h| > 2 && h[1].PaymentAuthorized? && FailedFrom(h, 2))
  }

  predicate OwnEvents(h: seq<Event>, id: string) {
    forall i :: 0 <= i < |h| ==> h[i] != Other && h[i].id == id
  }

  ghost predicate Good(h: seq<Event>, v: View) {
    Shape(h, v.status) && Replay(BLANK, h) == v && v.version == |h| && OwnEvents(h, v.id)
  }

  lemma {:induction false} ReplaySnoc(v: View, es: seq<Event>, e: Event)
    ensures Replay(v, es + [e]) == Applied(Replay(v, es), e)
  {
    assert (es + [e])[..|es|] == es;
  }

  lemma {:induction false} ShapeSnoc(h: seq<Event>, v: View, c: Command)
    requires Shape(h, v.status) && Raises(v, c).Some?
    ensures var e := Raises(v, c).value; Shape(h + [e], Applied(v, e).status)
  {
    var e := Raises(v, c).value;
    var k := h + [e];
    assert k[|h|] == e && k[0] == h[0];
    assert |h| > 1 ==> k[1] == h[1];
    assert FailedFrom(h, 1) && e.PaymentFailed? ==> FailedFrom(k, 1);
    assert FailedFrom(h, 2) && e.PaymentFailed? ==> FailedFrom(k, 2);
  }

  lemma {:induction false} RaiseKeepsGood(h: seq<Event>, v: View, c: Command)
    requires Good(h, v) && Raises(v, c).Some?
    ensures var e := Raises(v, c).value; Good(h + [e], Applied(v, e))
  {
    ShapeSnoc(h, v, c);
    ReplaySnoc(BLANK, h, Raises(v, c).value);
  }

  lemma {:induction false} StepHistory(s: Life, c: Command)
    ensures History(Step(s, c)) == match Raises(s.view, c) case None => History(s) case Some(e) => History(s) + [e]
  {
    if Raises(s.view, c).Some? {
      var e := Raises(s.view, c).value;
      assert s.pulled + (s.pending + [e]) == (s.pulled + s.pending) + [e];
    }
  }

  lemma {:induction false} StepKeepsGood(s: Life, c: Command)
    requires Good(History(s), s.view)
    ensures Good(History(Step(s, c)), Step(s, c).view)
  {
    StepHistory(s, c);
    if Raises(s.view, c).Some? { RaiseKeepsGood(History(s), s.view, c); }
  }

  // ----- Main results -----

  /** Payment histories: over every run of commands and pulls, the pulled batches followed by the pending
      events are Initiated Failed*, Initiated Authorized Failed* or Initiated Authorized Settled; the
      version is their number, and applying them to a blank payment rebuilds every field. */
  lemma {:induction false} Histories(e: Event, cs: seq<Command>)
    requires Opening(e)
    ensures var s := Run(Start(e), cs);
            && Shape(History(s), s.view.status)
            && Replay(BLANK, History(s)) == s.view
            && s.view.version == |History(s)|
            && OwnEvents(History(s), s.view.id)
  {
    if cs == [] {
      assert History(Start(e)) == [e];
      assert [e][..0] == [];
    } else {
      Histories(e, cs[..|cs| - 1]);
      StepKeepsGood(Run(Start(e), cs[..|cs| - 1]), cs[|cs| - 1]);
    }
  }

  /** The last event of a history, as a command. */
  function CommandOf(e: Event): Command {
    match e
    case PaymentAuthorized(_, at) => Authorize(at)
    case PaymentSettled(_, at) => Settle(at)
    case PaymentFailed(_, reason, at) => Fail(reason, at)
    case _ => Pull
  }

  function StatusOf(e: Event): Status {
    match e
    case PaymentInitiated(_, _, _, _, _, _) => Initiated
    case PaymentAuthorized(_, _) => Authorized
    case PaymentSettled(_, _) => Settled
    case PaymentFailed(_, _, _) => Failed
    case Other => NoStatus
  }

  /** Event `i` of a history comes in a status that allows it. */
  lemma {:induction false} Transition(h: seq<Event>, status: Status, i: nat)
    requires Shape(h, status) && 0 < i < |h|
    ensures h[i].PaymentAuthorized? || h[i].PaymentSettled? || h[i].PaymentFailed?
    ensures h[i].PaymentAuthorized? ==> StatusOf(h[i - 1]) == Initiated
    ensures h[i].PaymentSettled? ==> StatusOf(h[i - 1]) == Authorized
    ensures h[i].PaymentFailed? ==> StatusOf(h[i - 1]) != Settled
  {
  }

  lemma {:induction false} LastStatus(h: seq<Event>, status: Status)
    requires Shape(h, status)
    ensures StatusOf(h[|h| - 1]) == status
  {
  }

  predicate PlainReasons(h: seq<Event>) {
    forall i :: 0 <= i < |h| && h[i].PaymentFailed? ==> h[i].reason == Reason(h[i].reason)
  }

  /** The commands that raise the events after the first, up to event `n - 1`. */
  function CommandsTo(h: seq<Event>, n: nat): seq<Command>
    requires n <= |h|
  {
    if n <= 1 then [] else CommandsTo(h, n - 1) + [CommandOf(h[n - 1])]
  }

  /** A payment whose history so far is the first `n` events of `h`. */
  ghost predicate HasRaised(s: Life, h: seq<Event>, n: nat)
    requires 0 < n <= |h|
  {
    && History(s) == h[..n] && s.view.status == StatusOf(h[n - 1])
    && h[0] != Other && s.view.id == h[0].id
  }

  /** Event `last` may follow a history in this status. */
  predicate MayFollow(status: Status, last: Event) {
    && (last.PaymentAuthorized? || last.PaymentSettled? || last.PaymentFailed?)
    && (last.PaymentAuthorized? ==> status == Initiated)
    && (last.PaymentSettled? ==> status == Authorized)
    && (last.PaymentFailed? ==> status != Settled && last.reason == Reason(last.reason))
  }

  /** The command of an event that may follow raises that event. */
  lemma {:induction false} CommandRaises(v: View, last: Event)
    requires MayFollow(v.status, last) && last.id == v.id
    ensures Raises(v, CommandOf(last)) == Some(last)
    ensures Applied(v, last).status == StatusOf(last) && Applied(v, last).id == v.id
  {
  }

  lemma {:induction false} RaisesNext(s: Life, h: seq<Event>, n: nat)
    requires 0 < n < |h| && HasRaised(s, h, n) && MayFollow(StatusOf(h[n - 1]), h[n]) && h[n].id == h[0].id
    ensures HasRaised(Step(s, CommandOf(h[n])), h, n + 1)
  {
    CommandRaises(s.view, h[n]);
    StepHistory(s, CommandOf(h[n]));
    assert h[..n + 1] == h[..n] + [h[n]];
  }

  lemma {:induction false} EventMayFollow(h: seq<Event>, status: Status, i: nat)
    requires Shape(h, status) && 0 < i < |h| && OwnEvents(h, h[0].id) && PlainReasons(h)
    ensures MayFollow(StatusOf(h[i - 1]), h[i]) && h[i].id == h[0].id
  {
    Transition(h, status, i);
  }

  lemma {:induction false} CommandsRun(h: seq<Event>, status: Status, n: nat, start: Life)
    requires Shape(h, status) && OwnEvents(h, h[0].id) && PlainReasons(h) && 0 < n <= |h| && HasRaised(start, h, 1)
    ensures HasRaised(Run(start, CommandsTo(h, n)), h, n)
  {
    if n > 1 {
      CommandsRun(h, status, n - 1, start);
      EventMayFollow(h, status, n - 1);
      RaisesNext(Run(start, CommandsTo(h, n - 1)), h, n - 1);
      RunSnoc(start, CommandsTo(h, n - 1), CommandOf(h[n - 1]));
    }
  }

  lemma {:induction false} RunSnoc(s: Life, cs: seq<Command>, c: Command)
    ensures Run(s, cs + [c]) == Step(Run(s, cs), c)
  {
    assert (cs + [c])[..|cs|] == cs;
  }

  lemma {:induction false} StartHasRaised(h: seq<Event>)
    requires h != [] && Opening(h[0])
    ensures HasRaised(Start(h[0]), h, 1)
  {
    assert History(Start(h[0])) == [h[0]] == h[..1];
  }

  /** Exactly those: every history of such a shape that begins with an opening, with reasons as `Fail` writes
      them, is the history of some run. */
  lemma {:induction false} EveryShapeOccurs(h: seq<Event>, status: Status) returns (cs: seq<Command>)
    requires Shape(h, status) && Opening(h[0]) && OwnEvents(h, h[0].id) && PlainReasons(h)
    ensures History(Run(Start(h[0]), cs)) == h && Run(Start(h[0]), cs).view.status == status
  {
    cs := CommandsTo(h, |h|);
    StartHasRaised(h);
    CommandsRun(h, status, |h|, Start(h[0]));
    LastStatus(h, status);
    assert h[..|h|] == h;
  }
}
