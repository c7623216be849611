/** The gateway's rate limiting: one bucket per caller in each of two limiters, chosen by path. */
module Gateway {
  import opened Common
  import opened Text
  import opened TokenBucket

  datatype Request = Request(path: string, subject: string, remote: string)

  /** Which bucket a request draws on. */
  datatype Slot = Slot(strict: bool, key: string)

  datatype Config = Config(strictPrefixes: seq<string>, rate: real, burst: int, strictRate: real, strictBurst: int)

  /** The subject header, else the remote address, else a shared name. */
  function Key(subject: string, remote: string): (k: string)
    ensures k != "" && Trimmed(k)
    ensures TrimSpace(subject) != "" ==> k == TrimSpace(subject)
    ensures TrimSpace(subject) == "" && TrimSpace(remote) != "" ==> k == TrimSpace(remote)
    ensures TrimSpace(subject) == "" && TrimSpace(remote) == "" ==> k == "anonymous"
  {
    TrimSpaceIsTrimmed(subject);
    TrimSpaceIsTrimmed(remote);
    if TrimSpace(subject) != "" then TrimSpace(subject)
    else if TrimSpace(remote) != "" then TrimSpace(remote)
    else "anonymous"
  }

  predicate IsStrict(prefixes: seq<string>, path: string) {
    exists i :: 0 <= i < |prefixes| && prefixes[i] != "" && prefixes[i] <= path
  }

  /** The choice of limiter in `withRateLimitByPath`. */
  method Choose(prefixes: seq<string>, path: string) returns (strict: bool)
    ensures strict <==> IsStrict(prefixes, path)
  {
    strict := false;
    for i := 0 to |prefixes|
      invariant !strict && forall j :: 0 <= j < i ==> !(prefixes[j] != "" && prefixes[j] <= path)
    {
      if prefixes[i] != "" && prefixes[i] <= path {
        strict := true;
        break;
      }
    }
  }

  // ----- One limiter -----

  function Looked(buckets: map<string, Bucket>, key: string, reqPerSec: real, burst: int, now: real)
    : map<string, Bucket>
  {
    if key in buckets then buckets else buckets[key := NewBucket(reqPerSec, burst, now)]
  }

  /** The buckets and the verdict after `bucketFor` at `seen` and `allow` at `now`. */
  function Served(buckets: map<string, Bucket>, key: string, reqPerSec: real, burst: int, seen: real, now: real)
    : (map<string, Bucket>, bool)
  {
    var view := Looked(buckets, key, reqPerSec, burst, seen);
    (view[key := Allow(view[key], now).0], Allow(view[key], now).1)
  }

  class RateLimiter {
    var buckets: map<string, Guard>
    const reqPerSec: real
    const burst: int

    /** No two keys share a bucket. */
    ghost predicate Valid()
      reads this
    {
      forall k, l :: k in buckets && l in buckets && k != l ==> buckets[k] != buckets[l]
    }

    function View(): map<string, Bucket>
      reads this, buckets.Values
    {
      map k | k in buckets :: buckets[k].State()
    }

    constructor (reqPerSec: real, burst: int)
      ensures Valid() && View() == map[] && this.reqPerSec == reqPerSec && this.burst == burst
    {
      this.buckets, this.reqPerSec, this.burst := map[], reqPerSec, burst;
    }

    method BucketFor(key: string, now: real) returns (b: Guard)
      requires Valid()
      modifies this
      ensures Valid() && key in buckets && buckets[key] == b
      ensures b in old(buckets.Values) || fresh(b)
      ensures buckets.Values <= old(buckets.Values) + {b}
      ensures View() == Looked(old(View()), key, reqPerSec, burst, now)
    {
      if key !in buckets {
        b := new Guard(reqPerSec, burst, now);
        assert forall k :: k in buckets ==> buckets[k] in buckets.Values;
        buckets := buckets[key := b];
      }
      b := buckets[key];
    }

    /** `allow` on the bucket of a key. */
    method TakeFrom(key: string, now: real) returns (ok: bool)
      requires Valid() && key in buckets
      modifies buckets[key]
      ensures View() == old(View())[key := Allow(old(View())[key], now).0] && ok == Allow(old(View())[key], now).1
    {
      ok := buckets[key].TryTake(now);
    }

    /** `withRateLimit`, up to its verdict; `seen` and `now` are the clock at the two reads. */
    method Limit(subject: string, remote: string, seen: real, now: real) returns (ok: bool)
      requires Valid()
      modifies this, buckets.Values
      ensures Valid()
      ensures (View(), ok) == Served(old(View()), Key(subject, remote), reqPerSec, burst, seen, now)
    {
      var key := TrimSpace(subject);
      if key == "" {
        key := TrimSpace(remote);
      }
      if key == "" {
        key := "anonymous";
      }
      var b := BucketFor(key, seen);
      ok := TakeFrom(key, now);
    }
  }

  /** The limiter that `withRateLimitByPath` serves a path with. */
  method LimiterFor(ordinary: RateLimiter, strict: RateLimiter, prefixes: seq<string>, path: string)
    returns (lim: RateLimiter)
    ensures (exists i :: 0 <= i < |prefixes| && prefixes[i] != "" && prefixes[i] <= path) ==> lim == strict
    ensures !(exists i :: 0 <= i < |prefixes| && prefixes[i] != "" && prefixes[i] <= path) ==> lim == ordinary
  {
    lim := ordinary;
    var matches := Choose(prefixes, path);
    if matches {
      lim := strict;
    }
  }

  // ----- Both limiters, any interleaving -----

  /** Requests run concurrently: `bucketFor` and `allow` are separate steps on the slot a request draws on. */
  datatype Op =
    | Lookup(slot: Slot, now: real)
    | Take(slot: Slot, now: real)

  function Route(c: Config, r: Request): Slot {
    Slot(IsStrict(c.strictPrefixes, r.path), Key(r.subject, r.remote))
  }

  function Fresh(c: Config, slot: Slot, now: real): Bucket {
    if slot.strict then NewBucket(c.strictRate, c.strictBurst, now) else NewBucket(c.rate, c.burst, now)
  }

  /** All buckets after the first `n` operations. */
  function Buckets(c: Config, ops: seq<Op>, n: nat): map<Slot, Bucket>
    requires n <= |ops|
  {
    if n == 0 then map[]
    else
      var m, op := Buckets(c, ops, n - 1), ops[n - 1];
      match op
      case Lookup(slot, now) => if slot in m then m else m[slot := Fresh(c, slot, now)]
      case Take(slot, now) => if slot in m then m[slot := Allow(m[slot], now).0] else m
  }

  /** The buckets of one limiter. */
  function ViewOf(m: map<Slot, Bucket>, strict: bool): map<string, Bucket> {
    map slot | slot in m && slot.strict == strict :: slot.key := m[slot]
  }

  lemma {:induction false} ViewSet(m: map<Slot, Bucket>, slot: Slot, b: Bucket, strict: bool)
    ensures slot in m <==> slot.key in ViewOf(m, slot.strict)
    ensures slot in m ==> ViewOf(m, slot.strict)[slot.key] == m[slot]
    ensures ViewOf(m[slot := b], strict)
         == if slot.strict == strict then ViewOf(m, strict)[slot.key := b] else ViewOf(m, strict)
  {
    assert slot == Slot(slot.strict, slot.key);
  }

  /** Seen from each limiter, the steps are `bucketFor` and `allow` with that limiter's own settings. */
  lemma {:induction false} StepsAreLimiters(c: Config, ops: seq<Op>, n: nat, strict: bool)
    requires n < |ops|
    ensures var view, op := ViewOf(Buckets(c, ops, n), strict), ops[n];
            ViewOf(Buckets(c, ops, n + 1), strict) ==
              if op.slot.strict != strict then view
              else if op.Lookup?
              then Looked(view, op.slot.key, if strict then c.strictRate else c.rate,
                          if strict then c.strictBurst else c.burst, op.now)
              else if op.slot.key in view then view[op.slot.key := Allow(view[op.slot.key], op.now).0]
              else view
  {
    var m, op := Buckets(c, ops, n), ops[n];
    ViewSet(m, op.slot, Fresh(c, op.slot, op.now), strict);
    if op.slot in m { ViewSet(m, op.slot, Allow(m[op.slot], op.now).0, strict); }
  }

  /** The verdict on an `allow` whose bucket exists. */
  predicate Passes(c: Config, ops: seq<Op>, k: nat)
    requires k < |ops| && ops[k].Take?
  {
    var m, slot := Buckets(c, ops, k), ops[k].slot;
    slot in m && Allow(m[slot], ops[k].now).1
  }

  /** When the slot's bucket was made. */
  function Created(ops: seq<Op>, n: nat, slot: Slot): Option<real>
    requires n <= |ops|
  {
    if n == 0 then None
    else
      var made := Created(ops, n - 1, slot);
      if made.None? && ops[n - 1].Lookup? && ops[n - 1].slot == slot then Some(ops[n - 1].now) else made
  }

  /** The times of the slot's own calls. */
  function OwnCalls(ops: seq<Op>, n: nat, slot: Slot): seq<real>
    requires n <= |ops|
  {
    if n == 0 then []
    else
      var own := OwnCalls(ops, n - 1, slot);
      if ops[n - 1].Take? && ops[n - 1].slot == slot && Created(ops, n - 1, slot).Some?
      then own + [ops[n - 1].now]
      else own
  }

  lemma {:induction false} AfterPrefix(b: Bucket, times: seq<real>, now: real, n: nat)
    requires n <= |times|
    ensures After(b, times + [now], n) == After(b, times, n)
  {
    if n > 0 { AfterPrefix(b, times, now, n - 1); }
  }

  /** The bucket that a slot's own calls alone would leave. */
  function OwnBucket(c: Config, ops: seq<Op>, n: nat, slot: Slot): Option<Bucket>
    requires n <= |ops|
  {
    var own := OwnCalls(ops, n, slot);
    match Created(ops, n, slot)
    case None => None
    case Some(made) => Some(After(Fresh(c, slot, made), own, |own|))
  }

  function Find(m: map<Slot, Bucket>, slot: Slot): Option<Bucket> {
    if slot in m then Some(m[slot]) else None
  }

  lemma {:induction false} NoCallsBeforeCreation(ops: seq<Op>, n: nat, slot: Slot)
    requires n <= |ops| && Created(ops, n, slot).None?
    ensures OwnCalls(ops, n, slot) == []
  {
    if n > 0 { NoCallsBeforeCreation(ops, n - 1, slot); }
  }

  /** What one operation does to the bucket of one slot. */
  function SlotStep(c: Config, before: Option<Bucket>, op: Op, slot: Slot): Option<Bucket> {
    if op.slot != slot then before
    else if op.Lookup? then (if before.Some? then before else Some(Fresh(c, slot, op.now)))
    else if before.Some? then Some(Allow(before.value, op.now).0)
    else None
  }

  lemma {:induction false} OwnBucketStep(c: Config, ops: seq<Op>, n: nat, slot: Slot)
    requires n < |ops|
    ensures OwnBucket(c, ops, n + 1, slot) == SlotStep(c, OwnBucket(c, ops, n, slot), ops[n], slot)
  {
    var own := OwnCalls(ops, n, slot);
    if Created(ops, n, slot).None? {
      NoCallsBeforeCreation(ops, n, slot);
    } else {
      AfterPrefix(Fresh(c, slot, Created(ops, n, slot).value), own, ops[n].now, |own|);
    }
  }

  lemma {:induction false} BucketsStep(c: Config, ops: seq<Op>, n: nat, slot: Slot)
    requires n < |ops|
    ensures Find(Buckets(c, ops, n + 1), slot) == SlotStep(c, Find(Buckets(c, ops, n), slot), ops[n], slot)
  {
  }

  lemma {:induction false} BucketIsOwn(c: Config, ops: seq<Op>, n: nat, slot: Slot)
    requires n <= |ops|
    ensures Find(Buckets(c, ops, n), slot) == OwnBucket(c, ops, n, slot)
  {
    if n > 0 {
      BucketIsOwn(c, ops, n - 1, slot);
      OwnBucketStep(c, ops, n - 1, slot);
      BucketsStep(c, ops, n - 1, slot);
    }
  }

  // ----- Main results -----

  /** Isolation: in any interleaving, the verdict on a call is the one its own bucket gives when it is run
      alone on its own calls. */
  lemma {:induction false} DecisionsAreOwn(c: Config, ops: seq<Op>, k: nat)
    requires k < |ops| && ops[k].Take? && Created(ops, k, ops[k].slot).Some?
    ensures var slot := ops[k].slot;
            var own := OwnCalls(ops, k + 1, slot);
            && |own| > 0 && own[|own| - 1] == ops[k].now
            && Passes(c, ops, k) == Admitted(Fresh(c, slot, Created(ops, k, slot).value), own, |own| - 1)
  {
    var slot := ops[k].slot;
    var own := OwnCalls(ops, k, slot);
    BucketIsOwn(c, ops, k, slot);
    AfterPrefix(Fresh(c, slot, Created(ops, k, slot).value), own, ops[k].now, |own|);
  }

  /** One of the two steps of a request. */
  datatype Arrival = Arrival(req: Request, takes: bool, now: real)

  function Routed(c: Config, arrivals: seq<Arrival>): (ops: seq<Op>)
    ensures |ops| == |arrivals|
    ensures forall i :: 0 <= i < |ops| ==> ops[i] == OpOf(c, arrivals[i])
  {
    seq(|arrivals|, i requires 0 <= i < |arrivals| => OpOf(c, arrivals[i]))
  }

  function OpOf(c: Config, a: Arrival): Op {
    if a.takes then Take(Route(c, a.req), a.now) else Lookup(Route(c, a.req), a.now)
  }

  // The limits that hold for a path, in the configured numbers.

  predicate UnderStrictPrefix(c: Config, path: string) {
    exists p :: p in c.strictPrefixes && p != "" && p <= path
  }

  function RateFor(c: Config, path: string): real {
    var rate := if UnderStrictPrefix(c, path) then c.strictRate else c.rate;
    if rate > 0.0 then rate else 20.0
  }

  function BurstFor(c: Config, path: string): real {
    var burst := if UnderStrictPrefix(c, path) then c.strictBurst else c.burst;
    if burst > 0 then burst as real else 40.0
  }

  /** The bucket that a request makes is full, with the limits of its path. */
  lemma {:induction false} LimitsOfPath(c: Config, r: Request, now: real)
    ensures Fresh(c, Route(c, r), now) == Bucket(BurstFor(c, r.path), RateFor(c, r.path), BurstFor(c, r.path), now)
  {
    var strict := IsStrict(c.strictPrefixes, r.path);
    if i :| 0 <= i < |c.strictPrefixes| && c.strictPrefixes[i] != "" && c.strictPrefixes[i] <= r.path {
      assert c.strictPrefixes[i] in c.strictPrefixes;
    }
    assert strict <==> UnderStrictPrefix(c, r.path);
    NewBucketIs(if strict then c.strictRate else c.rate, if strict then c.strictBurst else c.burst, now);
  }

  /** Operation `j` is a call on the slot's bucket. */
  predicate IsCall(ops: seq<Op>, j: nat, slot: Slot)
    requires j < |ops|
  {
    ops[j].Take? && ops[j].slot == slot && Created(ops, j, slot).Some?
  }

  /** How many of the slot's calls among the operations `i`, ..., `k - 1` passed. */
  function Passed(c: Config, ops: seq<Op>, i: nat, k: nat, slot: Slot): nat
    requires k <= |ops|
  {
    if k <= i then 0
    else Passed(c, ops, i, k - 1, slot) + if IsCall(ops, k - 1, slot) && Passes(c, ops, k - 1) then 1 else 0
  }

  lemma {:induction false} AdmitsPrefix(b: Bucket, times: seq<real>, now: real, i: nat, n: nat)
    requires n <= |times|
    ensures Admits(b, times + [now], i, n) == Admits(b, times, i, n)
  {
    if i < n {
      AdmitsPrefix(b, times, now, i, n - 1);
      AfterPrefix(b, times, now, n - 1);
    }
  }

  lemma {:induction false} CallsGrow(ops: seq<Op>, i: nat, k: nat, slot: Slot)
    requires i <= k <= |ops|
    ensures OwnCalls(ops, i, slot) <= OwnCalls(ops, k, slot)
    ensures i < k && IsCall(ops, i, slot) ==> |OwnCalls(ops, i, slot)| < |OwnCalls(ops, k, slot)|
                                              && OwnCalls(ops, k, slot)[|OwnCalls(ops, i, slot)|] == ops[i].now
  {
    if i < k { CallsGrow(ops, i, k - 1, slot); }
  }

  lemma {:induction false} CreatedStays(ops: seq<Op>, i: nat, k: nat, slot: Slot)
    requires i <= k <= |ops| && Created(ops, i, slot).Some?
    ensures Created(ops, k, slot) == Created(ops, i, slot)
  {
    if i < k { CreatedStays(ops, i, k - 1, slot); }
  }

  /** Counting a slot's verdicts among the operations is counting its bucket's own. */
  lemma {:induction false} PassedIsAdmits(c: Config, ops: seq<Op>, i: nat, k: nat, slot: Slot, made: real)
    requires i <= k <= |ops| && Created(ops, k, slot) == Some(made)
    ensures var own := OwnCalls(ops, k, slot);
            Passed(c, ops, i, k, slot) == Admits(Fresh(c, slot, made), own, |OwnCalls(ops, i, slot)|, |own|)
    decreases k
  {
    var b := Fresh(c, slot, made);
    var own := OwnCalls(ops, k, slot);
    if i < k {
      CallsGrow(ops, i, k, slot);
      if Created(ops, k - 1, slot).None? {
        NothingPassed(c, ops, i, k - 1, slot);
        NoCallsBeforeCreation(ops, k - 1, slot);
        assert OwnCalls(ops, k, slot) == [];
      } else {
        CreatedStays(ops, k - 1, k, slot);
        PassedIsAdmits(c, ops, i, k - 1, slot, made);
        if IsCall(ops, k - 1, slot) {
          var before := OwnCalls(ops, k - 1, slot);
          CallsGrow(ops, i, k - 1, slot);
          DecisionsAreOwn(c, ops, k - 1);
          AdmitsPrefix(b, before, ops[k - 1].now, |OwnCalls(ops, i, slot)|, |before|);
        }
      }
    }
  }

  lemma {:induction false} NothingPassed(c: Config, ops: seq<Op>, i: nat, k: nat, slot: Slot)
    requires k <= |ops| && Created(ops, k, slot).None?
    ensures Passed(c, ops, i, k, slot) == 0
  {
    if i < k { NothingPassed(c, ops, i, k - 1, slot); }
  }

  /** Every call of the bucket's own history is one of the operations. */
  lemma {:induction false} CallIsOperation(ops: seq<Op>, n: nat, slot: Slot, i: nat) returns (j: nat)
    requires n <= |ops| && i < |OwnCalls(ops, n, slot)|
    ensures j < n && IsCall(ops, j, slot) && |OwnCalls(ops, j, slot)| == i
  {
    if i < |OwnCalls(ops, n - 1, slot)| {
      j := CallIsOperation(ops, n - 1, slot, i);
    } else {
      j := n - 1;
    }
  }

  /** Burst plus rate times elapsed. */
  function Budget(c: Config, path: string, since: real, now: real): real {
    BurstFor(c, path) + (now - since) * RateFor(c, path)
  }

  /** One more pass, counted from operation `i` at time `since`, is within burst plus rate times elapsed. */
  predicate Within(c: Config, ops: seq<Op>, i: nat, k: nat, since: real, path: string)
    requires k < |ops|
  {
    Passed(c, ops, i, k, ops[k].slot) as real + 1.0 <= Budget(c, path, since, ops[k].now)
  }

  /** So it is counted from each of the slot's own calls. */
  ghost predicate WithinCalls(c: Config, ops: seq<Op>, k: nat, path: string)
    requires k < |ops|
  {
    forall j :: 0 <= j <= k && IsCall(ops, j, ops[k].slot) ==> Within(c, ops, j, k, ops[j].now, path)
  }

  /** The bucket of the call at operation `k`, and the history that the call ends. */
  ghost predicate EndsHistory(c: Config, ops: seq<Op>, k: nat, path: string, b: Bucket, own: seq<real>)
    requires k < |ops|
  {
    var slot := ops[k].slot;
    && IsCall(ops, k, slot) && b == Fresh(c, slot, Created(ops, k, slot).value) && own == OwnCalls(ops, k + 1, slot)
    && b.capacity == BurstFor(c, path) && b.rate == RateFor(c, path) && b.tokens == b.capacity
    && b.last == Created(ops, k, slot).value
  }

  lemma {:induction false} AllowanceIsBudget(c: Config, path: string, b: Bucket, since: real, now: real)
    requires b.capacity == BurstFor(c, path) && b.rate == RateFor(c, path)
    ensures Allowance(b, since, now) == Budget(c, path, since, now)
  {
    SameProduct(now - since, b.rate, RateFor(c, path));
  }

  lemma {:induction false} SameProduct(x: real, y: real, z: real)
    requires y == z
    ensures Earned(x, y) == x * z
  {
  }

  lemma {:induction false} SameBound(x: nat, y: nat, p: real, q: real)
    requires x == y && p == q
    ensures x as real + 1.0 <= p <==> y as real + 1.0 <= q
  {
  }

  /** Both ways to count agree up to the call that ends the history. */
  lemma {:induction false} CountsAgree(c: Config, ops: seq<Op>, j: nat, k: nat, path: string, b: Bucket, own: seq<real>)
    requires j <= k < |ops| && EndsHistory(c, ops, k, path, b, own)
    ensures own != [] && own[|own| - 1] == ops[k].now
    ensures Passed(c, ops, j, k, ops[k].slot) == Admits(b, own, |OwnCalls(ops, j, ops[k].slot)|, |own| - 1)
  {
    var slot := ops[k].slot;
    var before := OwnCalls(ops, k, slot);
    assert own == before + [ops[k].now];
    PassedIsAdmits(c, ops, j, k, slot, b.last);
    AdmitsPrefix(b, before, ops[k].now, |OwnCalls(ops, j, slot)|, |before|);
  }

  /** The bound counted from one operation is the bucket's bound counted from that call, or from its creation. */
  lemma {:induction false} WithinIsFit(c: Config, ops: seq<Op>, j: nat, k: nat, path: string, b: Bucket, own: seq<real>,
                                       since: real)
    requires j <= k < |ops| && EndsHistory(c, ops, k, path, b, own) && own != []
    ensures Within(c, ops, j, k, since, path) <==>
            Admits(b, own, |OwnCalls(ops, j, ops[k].slot)|, |own| - 1) as real + 1.0
              <= Allowance(b, since, own[|own| - 1])
  {
    CountsAgree(c, ops, j, k, path, b, own);
    AllowanceIsBudget(c, path, b, since, ops[k].now);
    SameBound(Passed(c, ops, j, k, ops[k].slot), Admits(b, own, |OwnCalls(ops, j, ops[k].slot)|, |own| - 1),
              Budget(c, path, since, ops[k].now), Allowance(b, since, own[|own| - 1]));
  }

  lemma {:induction false} FitsIffWithin(c: Config, ops: seq<Op>, k: nat, path: string, b: Bucket, own: seq<real>)
    requires k < |ops| && EndsHistory(c, ops, k, path, b, own) && own != []
    ensures Fits(b, own, |own| - 1) <==>
            Within(c, ops, 0, k, b.last, path) && WithinCalls(c, ops, k, path)
  {
    var slot, n := ops[k].slot, |own| - 1;
    WithinIsFit(c, ops, 0, k, path, b, own, b.last);
    if FitsCalls(b, own, n) {
      forall j | 0 <= j <= k && IsCall(ops, j, slot) ensures Within(c, ops, j, k, ops[j].now, path) {
        CallsGrow(ops, j, k + 1, slot);
        WithinIsFit(c, ops, j, k, path, b, own, ops[j].now);
      }
    }
    if WithinCalls(c, ops, k, path) {
      forall i | 0 <= i <= n ensures Admits(b, own, i, n) as real + 1.0 <= Allowance(b, own[i], own[n]) {
        var j := CallIsOperation(ops, k + 1, slot, i);
        CallsGrow(ops, j, k + 1, slot);
        WithinIsFit(c, ops, j, k, path, b, own, ops[j].now);
      }
    }
  }

  /** The limiter as a whole, whatever the clock does: a request passes exactly if the requests of its own slot
      that passed since the bucket was made, and since each of the slot's own calls, plus this one, are at most
      burst plus rate times elapsed; burst and rate are the strict ones exactly under a strict prefix. */
  lemma {:induction false} PassesIff(c: Config, arrivals: seq<Arrival>, k: nat)
    requires k < |arrivals| && arrivals[k].takes
    requires Created(Routed(c, arrivals), k, Route(c, arrivals[k].req)).Some?
    ensures var ops, path := Routed(c, arrivals), arrivals[k].req.path;
            var slot := Route(c, arrivals[k].req);
            && ops[k] == Take(slot, arrivals[k].now)
            && (Passes(c, ops, k) <==>
                Within(c, ops, 0, k, Created(ops, k, slot).value, path) && WithinCalls(c, ops, k, path))
  {
    var ops, path := Routed(c, arrivals), arrivals[k].req.path;
    var slot := Route(c, arrivals[k].req);
    assert ops[k] == Take(slot, arrivals[k].now);
    var made := Created(ops, k, slot).value;
    var b := Fresh(c, slot, made);
    var own := OwnCalls(ops, k + 1, slot);
    LimitsOfPath(c, arrivals[k].req, made);
    DecisionsAreOwn(c, ops, k);
    AdmittedIff(b, own, |own| - 1);
    assert Passes(c, ops, k) <==> Fits(b, own, |own| - 1);
    FitsIffWithin(c, ops, k, path, b, own);
    assert b.last == made;
  }
}
