/** The gateway's token bucket, over real-valued seconds and tokens. */
module TokenBucket {

  datatype Bucket = Bucket(capacity: real, rate: real, tokens: real, last: real)

  function MinReal(a: real, b: real): real {
    if a < b then a else b
  }

  /** `newTokenBucket`, with its defaults; a new bucket is full. */
  function NewBucket(reqPerSec: real, burst: int, now: real): Bucket {
    var rate := if reqPerSec <= 0.0 then 20.0 else reqPerSec;
    var capacity := if burst <= 0 then 40.0 else burst as real;
    Bucket(capacity, rate, capacity, now)
  }

  /** A setting that is not positive is replaced: 20 a second, and a burst of 40. */
  lemma {:induction false} NewBucketIs(reqPerSec: real, burst: int, now: real)
    ensures var b := NewBucket(reqPerSec, burst, now);
            && b.rate == (if reqPerSec > 0.0 then reqPerSec else 20.0)
            && b.capacity == (if burst > 0 then burst as real else 40.0)
            && b.tokens == b.capacity && b.last == now
  {
  }

  function Earned(elapsed: real, rate: real): real {
    elapsed * rate
  }

  function Refill(b: Bucket, now: real): real {
    MinReal(b.capacity, b.tokens + Earned(now - b.last, b.rate))
  }

  /** `allow`. */
  function Allow(b: Bucket, now: real): (Bucket, bool) {
    var tokens := Refill(b, now);
    if tokens < 1.0 then (b.(tokens := tokens, last := now), false)
    else (b.(tokens := tokens - 1.0, last := now), true)
  }

  class Guard {
    var capacity: real
    var rate: real
    var tokens: real
    var last: real

    function State(): Bucket
      reads this
    {
      Bucket(capacity, rate, tokens, last)
    }

    constructor (reqPerSec: real, burst: int, now: real)
      ensures State() == NewBucket(reqPerSec, burst, now)
    {
      var r, n := reqPerSec, burst;
      if r <= 0.0 { r := 20.0; }
      if n <= 0 { n := 40; }
      capacity, rate, tokens, last := n as real, r, n as real, now;
    }

    method TryTake(now: real) returns (ok: bool)
      modifies this
      ensures (State(), ok) == Allow(old(State()), now)
    {
      var elapsed := now - last;
      last := now;
      tokens := MinReal(capacity, tokens + Earned(elapsed, rate));
      if tokens < 1.0 {
        return false;
      }
      tokens := tokens - 1.0;
      return true;
    }
  }

  // ----- A bucket over its whole history -----

  /** The bucket after the first `n` calls. */
  function After(b: Bucket, times: seq<real>, n: nat): Bucket
    requires n <= |times|
  {
    if n == 0 then b else Allow(After(b, times, n - 1), times[n - 1]).0
  }

  predicate Admitted(b: Bucket, times: seq<real>, k: nat)
    requires k < |times|
  {
    Allow(After(b, times, k), times[k]).1
  }

  /** How many of the calls `j`, ..., `k - 1` were admitted. */
  function Admits(b: Bucket, times: seq<real>, j: nat, k: nat): nat
    requires k <= |times|
  {
    if k <= j then 0 else Admits(b, times, j, k - 1) + if Admitted(b, times, k - 1) then 1 else 0
  }

  ghost predicate Nondecreasing(times: seq<real>) {
    forall i :: 0 < i < |times| ==> times[i - 1] <= times[i]
  }

  /** A bucket as `newTokenBucket` makes it, and a clock that does not run back. */
  ghost predicate Runs(b: Bucket, times: seq<real>) {
    && b.rate > 0.0 && b.capacity >= 1.0 && b.tokens == b.capacity
    && Nondecreasing(times) && (times != [] ==> b.last <= times[0])
  }

  lemma {:induction false} NewBucketRuns(reqPerSec: real, burst: int, now: real, times: seq<real>)
    requires Nondecreasing(times) && (times != [] ==> now <= times[0])
    ensures Runs(NewBucket(reqPerSec, burst, now), times)
  {
    assert burst > 0 ==> burst as real >= 1.0;
  }

  lemma {:induction false} AfterKeeps(b: Bucket, times: seq<real>, n: nat)
    requires n <= |times|
    ensures After(b, times, n).capacity == b.capacity && After(b, times, n).rate == b.rate
    ensures n > 0 ==> After(b, times, n).last == times[n - 1]
    ensures n == 0 ==> After(b, times, n) == b
  {
    if n > 0 { AfterKeeps(b, times, n - 1); }
  }

  // ----- The same history in units of tokens earned -----

  /** The tokens earned by the time of each call, counted from time zero. */
  function Meter(times: seq<real>, rate: real): (e: seq<real>)
    ensures |e| == |times| && forall i :: 0 <= i < |e| ==> e[i] == Earned(times[i], rate)
  {
    seq(|times|, i requires 0 <= i < |times| => Earned(times[i], rate))
  }

  function Taken(level: real): real {
    if level < 1.0 then 0.0 else 1.0
  }

  /** The tokens that call `k` finds, once refilled; the bucket was full when `made` had been earned. */
  function Level(capacity: real, made: real, e: seq<real>, k: nat): real
    requires k < |e|
  {
    if k == 0 then MinReal(capacity, capacity + (e[0] - made))
    else
      var before := Level(capacity, made, e, k - 1);
      MinReal(capacity, before - Taken(before) + (e[k] - e[k - 1]))
  }

  /** The tokens taken by the calls `j`, ..., `k - 1`. */
  function TakenBetween(capacity: real, made: real, e: seq<real>, j: nat, k: nat): real
    requires k <= |e|
  {
    if k <= j then 0.0 else TakenBetween(capacity, made, e, j, k - 1) + Taken(Level(capacity, made, e, k - 1))
  }

  /** What a full bucket at call `j` would leave for call `k`. */
  function Credit(capacity: real, made: real, e: seq<real>, j: nat, k: nat): real
    requires j <= k < |e|
  {
    capacity + (e[k] - e[j]) - TakenBetween(capacity, made, e, j, k)
  }

  /** What the full bucket at its creation leaves for call `k`. */
  function FirstCredit(capacity: real, made: real, e: seq<real>, k: nat): real
    requires k < |e|
  {
    capacity + (e[k] - made) - TakenBetween(capacity, made, e, 0, k)
  }

  /** The bucket never holds more than any earlier call, or its creation, leaves it. */
  lemma {:induction false} LevelWithinCredit(capacity: real, made: real, e: seq<real>, j: nat, k: nat)
    requires j <= k < |e|
    ensures Level(capacity, made, e, k) <= Credit(capacity, made, e, j, k)
  {
    if j < k { LevelWithinCredit(capacity, made, e, j, k - 1); }
  }

  lemma {:induction false} LevelWithinFirst(capacity: real, made: real, e: seq<real>, k: nat)
    requires k < |e|
    ensures Level(capacity, made, e, k) <= FirstCredit(capacity, made, e, k)
  {
    if k > 0 { LevelWithinFirst(capacity, made, e, k - 1); }
  }

  /** And it holds all that one of them leaves it. */
  lemma {:induction false} LevelIsSomeCredit(capacity: real, made: real, e: seq<real>, k: nat) returns (j: nat)
    requires k < |e|
    ensures Level(capacity, made, e, k) == FirstCredit(capacity, made, e, k)
         || (j <= k && Level(capacity, made, e, k) == Credit(capacity, made, e, j, k))
  {
    if k == 0 {
      j := 0;
    } else {
      j := LevelIsSomeCredit(capacity, made, e, k - 1);
      j := if Level(capacity, made, e, k) == capacity then k else j;
    }
  }

  lemma {:induction false} LevelNonNegative(capacity: real, made: real, e: seq<real>, k: nat)
    requires k < |e| && capacity >= 1.0 && made <= e[0] && forall i :: 0 < i < |e| ==> e[i - 1] <= e[i]
    ensures Level(capacity, made, e, k) >= 0.0
  {
    if k > 0 { LevelNonNegative(capacity, made, e, k - 1); }
  }

  lemma {:induction false} EarnedBetween(x: real, y: real, rate: real)
    ensures Earned(y - x, rate) == Earned(y, rate) - Earned(x, rate)
    ensures rate > 0.0 && x <= y ==> Earned(x, rate) <= Earned(y, rate)
  {
    assert rate > 0.0 && x <= y ==> (y - x) * rate >= 0.0;
  }

  /** The two histories agree. */
  lemma {:induction false} RefillIsLevel(b: Bucket, times: seq<real>, k: nat)
    requires b.tokens == b.capacity && k < |times|
    ensures Refill(After(b, times, k), times[k]) == Level(b.capacity, Earned(b.last, b.rate), Meter(times, b.rate), k)
  {
    var e := Meter(times, b.rate);
    AfterKeeps(b, times, k);
    if k == 0 {
      EarnedBetween(b.last, times[0], b.rate);
    } else {
      RefillIsLevel(b, times, k - 1);
      AfterKeeps(b, times, k - 1);
      EarnedBetween(times[k - 1], times[k], b.rate);
      assert e[k] - e[k - 1] == Earned(times[k] - times[k - 1], b.rate);
    }
  }

  lemma {:induction false} AdmitsAreTaken(b: Bucket, times: seq<real>, j: nat, k: nat)
    requires b.tokens == b.capacity && k <= |times|
    ensures Admits(b, times, j, k) as real
         == TakenBetween(b.capacity, Earned(b.last, b.rate), Meter(times, b.rate), j, k)
  {
    if j < k {
      AdmitsAreTaken(b, times, j, k - 1);
      RefillIsLevel(b, times, k - 1);
    }
  }

  /** Burst plus what the rate earns between two times. */
  function Allowance(b: Bucket, since: real, now: real): real {
    b.capacity + Earned(now - since, b.rate)
  }

  lemma {:induction false} CreditIsAllowance(b: Bucket, times: seq<real>, j: nat, k: nat)
    requires b.tokens == b.capacity && j <= k < |times|
    ensures Credit(b.capacity, Earned(b.last, b.rate), Meter(times, b.rate), j, k)
         == Allowance(b, times[j], times[k]) - Admits(b, times, j, k) as real
  {
    EarnedBetween(times[j], times[k], b.rate);
    AdmitsAreTaken(b, times, j, k);
  }

  lemma {:induction false} FirstCreditIsAllowance(b: Bucket, times: seq<real>, k: nat)
    requires b.tokens == b.capacity && k < |times|
    ensures FirstCredit(b.capacity, Earned(b.last, b.rate), Meter(times, b.rate), k)
         == Allowance(b, b.last, times[k]) - Admits(b, times, 0, k) as real
  {
    EarnedBetween(b.last, times[k], b.rate);
    AdmitsAreTaken(b, times, 0, k);
  }

  // ----- Main results -----

  /** Counted from the bucket's creation and from every call so far, the admits plus this one are within
      burst plus rate times elapsed. */
  ghost predicate Fits(b: Bucket, times: seq<real>, k: nat)
    requires k < |times|
  {
    && Admits(b, times, 0, k) as real + 1.0 <= Allowance(b, b.last, times[k])
    && FitsCalls(b, times, k)
  }

  /** The same, counted from the calls only. */
  ghost predicate FitsCalls(b: Bucket, times: seq<real>, k: nat)
    requires k < |times|
  {
    forall j :: 0 <= j <= k ==> Admits(b, times, j, k) as real + 1.0 <= Allowance(b, times[j], times[k])
  }

  /** The full-history specification, for any clock and any rate: a call is admitted exactly if it fits. */
  lemma {:induction false} AdmittedIff(b: Bucket, times: seq<real>, k: nat)
    requires b.tokens == b.capacity && k < |times|
    ensures Admitted(b, times, k) <==> Fits(b, times, k)
  {
    var made, e := Earned(b.last, b.rate), Meter(times, b.rate);
    RefillIsLevel(b, times, k);
    LevelWithinFirst(b.capacity, made, e, k);
    FirstCreditIsAllowance(b, times, k);
    forall j | 0 <= j <= k
      ensures Level(b.capacity, made, e, k) <= Allowance(b, times[j], times[k]) - Admits(b, times, j, k) as real
    {
      LevelWithinCredit(b.capacity, made, e, j, k);
      CreditIsAllowance(b, times, j, k);
    }
    var j := LevelIsSomeCredit(b.capacity, made, e, k);
    if j <= k { CreditIsAllowance(b, times, j, k); }
  }

  /** With a clock that does not run back, counting from the creation excludes nothing more. */
  lemma {:induction false} CreationBound(b: Bucket, times: seq<real>, k: nat)
    requires Runs(b, times) && k < |times|
    ensures Admitted(b, times, k) <==> FitsCalls(b, times, k)
  {
    AdmittedIff(b, times, k);
    if FitsCalls(b, times, k) {
      assert Admits(b, times, 0, k) as real + 1.0 <= Allowance(b, times[0], times[k]);
      EarnedBetween(b.last, times[k], b.rate);
      EarnedBetween(times[0], times[k], b.rate);
      EarnedBetween(b.last, times[0], b.rate);
    }
  }

  /** For any clock, a stretch of calls that ends with an admitted one admits at most burst plus rate times
      its length. */
  lemma {:induction false} AdmittedWindow(b: Bucket, times: seq<real>, i: nat, k: nat)
    requires b.tokens == b.capacity && i <= k < |times| && Admitted(b, times, k)
    ensures Admits(b, times, i, k + 1) as real <= Allowance(b, times[i], times[k])
  {
    AdmittedIff(b, times, k);
    assert Admits(b, times, i, k) as real + 1.0 <= Allowance(b, times[i], times[k]);
  }

  /** With a clock that does not run back, so does any stretch of calls. */
  lemma {:induction false} WindowBound(b: Bucket, times: seq<real>, i: nat, k: nat)
    requires Runs(b, times) && i <= k < |times|
    ensures Admits(b, times, i, k + 1) as real <= Allowance(b, times[i], times[k])
  {
    EarnedBetween(times[i], times[k], b.rate);
    if Admitted(b, times, k) {
      AdmittedWindow(b, times, i, k);
    } else if i < k {
      WindowBound(b, times, i, k - 1);
      EarnedBetween(times[i], times[k - 1], b.rate);
      EarnedBetween(times[k - 1], times[k], b.rate);
    }
  }

  /** What `Retry-After: 1` tells a refused caller: a call a second after the previous one is admitted
      whenever the rate is at least one per second. */
  lemma {:induction false} RetryAfterOneSecond(b: Bucket, times: seq<real>, k: nat)
    requires Runs(b, times) && 0 < k < |times| && b.rate >= 1.0 && times[k] - times[k - 1] >= 1.0
    ensures Admitted(b, times, k)
  {
    var e := Meter(times, b.rate);
    RefillIsLevel(b, times, k);
    forall i | 0 < i < |e| ensures e[i - 1] <= e[i] {
      EarnedBetween(times[i - 1], times[i], b.rate);
    }
    EarnedBetween(b.last, times[0], b.rate);
    LevelNonNegative(b.capacity, Earned(b.last, b.rate), e, k - 1);
    EarnedBetween(times[k - 1], times[k], b.rate);
    EarnedAtLeast(times[k] - times[k - 1], b.rate);
  }

  lemma {:induction false} EarnedAtLeast(elapsed: real, rate: real)
    requires elapsed >= 1.0 && rate >= 1.0
    ensures Earned(elapsed, rate) >= 1.0
  {
    assert (elapsed - 1.0) * rate >= 0.0;
  }
}
