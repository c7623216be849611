/** The pruning limiter against one that keeps every failure, over whole runs. */
module LoginRuns {
  import opened LoginLimiter

  datatype Op =
    | Ask(key: string, now: nat)        // `allow`
    | Failure(key: string, now: nat)    // `onFailure`
    | Success(key: string)              // `onSuccess`

  // ----- The limiter -----

  function States(c: Config, ops: seq<Op>, n: nat): map<string, Login>
    requires n <= |ops|
  {
    if n == 0 then map[]
    else
      var m := States(c, ops, n - 1);
      match ops[n - 1]
      case Ask(key, now) => m[key := Allow(c, StateOf(m, key), now).0]
      case Failure(key, now) => m[key := OnFailure(c, StateOf(m, key), now)]
      case Success(key) => m - {key}
  }

  /** What `allow` answers as operation `k`. */
  function Verdict(c: Config, ops: seq<Op>, k: nat): (bool, nat)
    requires k < |ops| && ops[k].Ask?
  {
    var (_, allowed, until) := Allow(c, StateOf(States(c, ops, k), ops[k].key), ops[k].now);
    (allowed, until)
  }

  // ----- The specification: one key, nothing pruned -----

  predicate Crowded(c: Config, fails: seq<nat>, now: nat) {
    |Recent(fails, now - c.window)| >= c.maxAttempts
  }

  function FullAsk(c: Config, s: Login, now: nat): Login {
    if !Locked(s.lockedUntil, now) && Crowded(c, s.fails, now) && c.lockout > 0
    then s.(lockedUntil := now + c.lockout)
    else s
  }

  function FullFailure(c: Config, s: Login, now: nat): Login {
    var fails := s.fails + [now];
    Login(fails, if Crowded(c, fails, now) && c.lockout > 0 then now + c.lockout else s.lockedUntil)
  }

  /** Every failure of the key since its last success, and the lock. */
  function Full(c: Config, ops: seq<Op>, n: nat, key: string): Login
    requires n <= |ops|
  {
    if n == 0 then BLANK
    else
      var s := Full(c, ops, n - 1, key);
      if ops[n - 1].key != key then s
      else
        match ops[n - 1]
        case Ask(_, now) => FullAsk(c, s, now)
        case Failure(_, now) => FullFailure(c, s, now)
        case Success(_) => BLANK
  }

  function FullVerdict(c: Config, s: Login, now: nat): (bool, nat) {
    if Locked(s.lockedUntil, now) then (false, s.lockedUntil)
    else if !Crowded(c, s.fails, now) then (true, 0)
    else (false, if c.lockout > 0 then now + c.lockout else 0)
  }

  /** The key's latest clock reading since its last success. */
  function Clock(ops: seq<Op>, n: nat, key: string): nat
    requires n <= |ops|
  {
    if n == 0 then 0
    else if ops[n - 1].key != key then Clock(ops, n - 1, key)
    else if ops[n - 1].Success? then 0
    else ops[n - 1].now
  }

  /** The key's clock does not run back. */
  predicate InOrder(ops: seq<Op>, n: nat, key: string)
    requires n <= |ops|
  {
    n == 0 || (InOrder(ops, n - 1, key)
               && (ops[n - 1].key == key && !ops[n - 1].Success? ==> Clock(ops, n - 1, key) <= ops[n - 1].now))
  }

  // ----- Pruning -----

  lemma {:induction false} RecentPrefix(f: seq<nat>, g: seq<nat>, n: nat, cutoff: int)
    requires n <= |f|
    ensures RecentTo(f + g, n, cutoff) == RecentTo(f, n, cutoff)
  {
    if n > 0 { RecentPrefix(f, g, n - 1, cutoff); }
  }

  lemma {:induction false} RecentSnoc(f: seq<nat>, t: nat, cutoff: int)
    ensures Recent(f + [t], cutoff) == Recent(f, cutoff) + if t > cutoff then [t] else []
  {
    RecentPrefix(f, [t], |f|, cutoff);
  }

  lemma {:induction false} NoneRecent(f: seq<nat>, n: nat, cutoff: int)
    requires n <= |f| && forall i :: 0 <= i < |f| ==> f[i] <= cutoff
    ensures RecentTo(f, n, cutoff) == []
  {
    if n > 0 { NoneRecent(f, n - 1, cutoff); }
  }

  // ----- What is kept, for any clock -----

  /** Operation `k` prunes the key's failures: an `onFailure`, or an `allow` that finds no lock. */
  predicate Prunes(c: Config, ops: seq<Op>, k: nat, key: string)
    requires k < |ops|
  {
    && ops[k].key == key
    && (ops[k].Failure? || (ops[k].Ask? && !Locked(StateOf(States(c, ops, k), key).lockedUntil, ops[k].now)))
  }

  /** The key does not succeed after operation `j` and before operation `n`. */
  predicate NoSuccess(ops: seq<Op>, j: nat, n: nat, key: string)
    requires j < n <= |ops|
  {
    j + 1 == n || (NoSuccess(ops, j, n - 1, key) && ops[n - 1] != Success(key))
  }

  /** Operation `j` is a failure of the key, with no success before operation `n`. */
  predicate Counts(ops: seq<Op>, j: nat, n: nat, key: string)
    requires j < n <= |ops|
  {
    ops[j].Failure? && ops[j].key == key && NoSuccess(ops, j, n, key)
  }

  /** It is later than the window before every pruning call since. */
  predicate Survives(c: Config, ops: seq<Op>, j: nat, n: nat, key: string)
    requires j < n <= |ops|
  {
    && Counts(ops, j, n, key)
    && forall k :: j < k < n && Prunes(c, ops, k, key) ==> ops[j].now > ops[k].now - c.window
  }

  /** The times of the failures among the first `m` operations that survive up to operation `n`. */
  function Survivors(c: Config, ops: seq<Op>, n: nat, m: nat, key: string): seq<nat>
    requires m <= n <= |ops|
  {
    if m == 0 then []
    else Survivors(c, ops, n, m - 1, key) + if Survives(c, ops, m - 1, n, key) then [ops[m - 1].now] else []
  }

  /** An operation of another key, a call that is locked out or a success. */
  lemma {:induction false} SurvivorsStay(c: Config, ops: seq<Op>, n: nat, m: nat, key: string)
    requires m <= n < |ops| && !Prunes(c, ops, n, key)
    ensures Survivors(c, ops, n + 1, m, key) == if ops[n] == Success(key) then [] else Survivors(c, ops, n, m, key)
  {
    if m > 0 {
      SurvivorsStay(c, ops, n, m - 1, key);
      SurvivesStep(c, ops, m - 1, n, key);
    }
  }

  /** A pruning call. */
  lemma {:induction false} SurvivorsPruned(c: Config, ops: seq<Op>, n: nat, m: nat, key: string)
    requires m <= n < |ops| && Prunes(c, ops, n, key)
    ensures Survivors(c, ops, n + 1, m, key) == Recent(Survivors(c, ops, n, m, key), ops[n].now - c.window)
  {
    if m > 0 {
      SurvivorsPruned(c, ops, n, m - 1, key);
      SurvivesStep(c, ops, m - 1, n, key);
      var before := Survivors(c, ops, n, m - 1, key);
      if Survives(c, ops, m - 1, n, key) {
        RecentSnoc(before, ops[m - 1].now, ops[n].now - c.window);
      } else {
        assert before + [] == before;
      }
    }
  }

  lemma {:induction false} SurvivesStep(c: Config, ops: seq<Op>, j: nat, n: nat, key: string)
    requires j < n < |ops|
    ensures Survives(c, ops, j, n + 1, key) <==>
            && Survives(c, ops, j, n, key) && ops[n] != Success(key)
            && (Prunes(c, ops, n, key) ==> ops[j].now > ops[n].now - c.window)
  {
  }

  /** What operation `n` makes of the key's failures. */
  function Changed(c: Config, ops: seq<Op>, n: nat, key: string, fails: seq<nat>): seq<nat>
    requires n < |ops|
  {
    if Prunes(c, ops, n, key)
    then Recent(fails, ops[n].now - c.window) + if ops[n].Failure? then [ops[n].now] else []
    else if ops[n] == Success(key) then [] else fails
  }

  lemma {:induction false} FailsStep(c: Config, ops: seq<Op>, n: nat, key: string)
    requires n < |ops|
    ensures StateOf(States(c, ops, n + 1), key).fails == Changed(c, ops, n, key, StateOf(States(c, ops, n), key).fails)
  {
  }

  lemma {:induction false} SurvivorsStep(c: Config, ops: seq<Op>, n: nat, key: string)
    requires n < |ops|
    ensures Survivors(c, ops, n + 1, n + 1, key) == Changed(c, ops, n, key, Survivors(c, ops, n, n, key))
  {
    if Prunes(c, ops, n, key) {
      SurvivorsPruned(c, ops, n, n, key);
    } else {
      SurvivorsStay(c, ops, n, n, key);
    }
    assert Survives(c, ops, n, n + 1, key) <==> ops[n].Failure? && ops[n].key == key;
  }

  /** Exactly what is kept, whatever the clock does: a failure since the key's last success is kept if and only
      if it is later than `now - window` of every pruning call since. */
  lemma {:induction false} KeptExactly(c: Config, ops: seq<Op>, n: nat, key: string)
    requires n <= |ops|
    ensures StateOf(States(c, ops, n), key).fails == Survivors(c, ops, n, n, key)
  {
    if n > 0 {
      KeptExactly(c, ops, n - 1, key);
      FailsStep(c, ops, n - 1, key);
      SurvivorsStep(c, ops, n - 1, key);
    }
  }

  /** And so exactly when a call is granted, whatever the clock does: it finds no lock, and fewer failures than
      the limit survive it. A refused call reports the lock it found, or the one it has just set. */
  lemma {:induction false} GrantedExactly(c: Config, ops: seq<Op>, k: nat)
    requires k < |ops| && ops[k].Ask?
    ensures var lock, now := StateOf(States(c, ops, k), ops[k].key).lockedUntil, ops[k].now;
            Verdict(c, ops, k) ==
              if lock != 0 && now < lock then (false, lock)
              else if |Survivors(c, ops, k + 1, k + 1, ops[k].key)| < c.maxAttempts then (true, 0)
              else (false, if c.lockout > 0 then now + c.lockout else 0)
  {
    KeptExactly(c, ops, k + 1, ops[k].key);
  }

  /** Exactly when a lock is set, and until when: by a call that prunes, while as many failures as the limit survive
      it and there is a lockout. A success lifts it, and nothing else moves it. */
  lemma {:induction false} LockedExactly(c: Config, ops: seq<Op>, n: nat, key: string)
    requires n < |ops|
    ensures var lock := StateOf(States(c, ops, n), key).lockedUntil;
            StateOf(States(c, ops, n + 1), key).lockedUntil ==
              if ops[n] == Success(key) then 0
              else if Prunes(c, ops, n, key) && c.lockout > 0
                      && |Survivors(c, ops, n + 1, n + 1, key)| >= c.maxAttempts
              then ops[n].now + c.lockout
              else lock
  {
    KeptExactly(c, ops, n + 1, key);
  }

  // ----- With a clock that does not run back -----

  /** The failures among the first `m` operations that have no success behind them before operation `n`. */
  function AllFailures(ops: seq<Op>, n: nat, m: nat, key: string): seq<nat>
    requires m <= n <= |ops|
  {
    if m == 0 then [] else AllFailures(ops, n, m - 1, key) + if Counts(ops, m - 1, n, key) then [ops[m - 1].now] else []
  }

  lemma {:induction false} AllFailuresStep(ops: seq<Op>, n: nat, m: nat, key: string)
    requires m <= n < |ops|
    ensures AllFailures(ops, n + 1, m, key) == if ops[n] == Success(key) then [] else AllFailures(ops, n, m, key)
  {
    if m > 0 { AllFailuresStep(ops, n, m - 1, key); }
  }

  /** What operation `n` makes of failures that are all kept. */
  function Collected(op: Op, key: string, fails: seq<nat>): seq<nat> {
    if op.key != key then fails
    else
      match op
      case Ask(_, _) => fails
      case Failure(_, now) => fails + [now]
      case Success(_) => []
  }

  lemma {:induction false} FullCollects(c: Config, ops: seq<Op>, n: nat, key: string)
    requires n < |ops|
    ensures Full(c, ops, n + 1, key).fails == Collected(ops[n], key, Full(c, ops, n, key).fails)
  {
  }

  lemma {:induction false} AllFailuresCollect(ops: seq<Op>, n: nat, key: string)
    requires n < |ops|
    ensures AllFailures(ops, n + 1, n + 1, key) == Collected(ops[n], key, AllFailures(ops, n, n, key))
  {
    AllFailuresStep(ops, n, n, key);
  }

  lemma {:induction false} FullIsAll(c: Config, ops: seq<Op>, n: nat, key: string)
    requires n <= |ops|
    ensures Full(c, ops, n, key).fails == AllFailures(ops, n, n, key)
  {
    if n > 0 {
      FullIsAll(c, ops, n - 1, key);
      FullCollects(c, ops, n - 1, key);
      AllFailuresCollect(ops, n - 1, key);
    }
  }

  lemma {:induction false} ClockIsLatest(ops: seq<Op>, k: nat, n: nat, key: string)
    requires k < n <= |ops| && InOrder(ops, n, key) && ops[k].key == key && !ops[k].Success?
    requires NoSuccess(ops, k, n, key)
    ensures ops[k].now <= Clock(ops, n, key)
  {
    if k < n - 1 { ClockIsLatest(ops, k, n - 1, key); }
  }

  lemma {:induction false} NoSuccessLater(ops: seq<Op>, j: nat, k: nat, n: nat, key: string)
    requires j <= k < n <= |ops| && NoSuccess(ops, j, n, key)
    ensures NoSuccess(ops, k, n, key)
  {
    if k + 1 < n { NoSuccessLater(ops, j, k, n - 1, key); }
  }

  /** What was pruned is out of every later window. */
  lemma {:induction false} PrunedIsOld(c: Config, ops: seq<Op>, j: nat, n: nat, key: string)
    requires j < n <= |ops| && InOrder(ops, n, key) && Counts(ops, j, n, key) && !Survives(c, ops, j, n, key)
    ensures ops[j].now <= Clock(ops, n, key) - c.window
  {
    var k :| j < k < n && Prunes(c, ops, k, key) && ops[j].now <= ops[k].now - c.window;
    NoSuccessLater(ops, j, k, n, key);
    ClockIsLatest(ops, k, n, key);
  }

  lemma {:induction false} SurvivorsSuffice(c: Config, ops: seq<Op>, n: nat, m: nat, key: string, cutoff: int)
    requires m <= n <= |ops| && InOrder(ops, n, key) && Clock(ops, n, key) - c.window <= cutoff
    ensures Recent(Survivors(c, ops, n, m, key), cutoff) == Recent(AllFailures(ops, n, m, key), cutoff)
  {
    if m > 0 {
      SurvivorsSuffice(c, ops, n, m - 1, key, cutoff);
      var kept, all := Survivors(c, ops, n, m - 1, key), AllFailures(ops, n, m - 1, key);
      assert kept + [] == kept && all + [] == all;
      if Counts(ops, m - 1, n, key) {
        RecentSnoc(kept, ops[m - 1].now, cutoff);
        RecentSnoc(all, ops[m - 1].now, cutoff);
        if !Survives(c, ops, m - 1, n, key) { PrunedIsOld(c, ops, m - 1, n, key); }
      }
    }
  }

  /** The pruned state still answers every question from `clock` on. */
  ghost predicate Agrees(c: Config, s: Login, full: Login, clock: nat) {
    && s.lockedUntil == full.lockedUntil
    && forall cutoff: int :: clock - c.window <= cutoff ==> Recent(s.fails, cutoff) == Recent(full.fails, cutoff)
  }

  lemma {:induction false} AskAgrees(c: Config, s: Login, full: Login, clock: nat, now: nat)
    requires Agrees(c, s, full, clock) && clock <= now
    ensures Allow(c, s, now).0.lockedUntil == FullAsk(c, full, now).lockedUntil
    ensures (Allow(c, s, now).1, Allow(c, s, now).2) == FullVerdict(c, full, now)
  {
    assert Recent(s.fails, now - c.window) == Recent(full.fails, now - c.window);
  }

  lemma {:induction false} FailureAgrees(c: Config, s: Login, full: Login, clock: nat, now: nat)
    requires Agrees(c, s, full, clock) && clock <= now && c.window > 0
    ensures OnFailure(c, s, now).lockedUntil == FullFailure(c, full, now).lockedUntil
  {
    assert Recent(s.fails, now - c.window) == Recent(full.fails, now - c.window);
    RecentSnoc(full.fails, now, now - c.window);
  }

  /** Refinement. For every key whose clock does not run back, the limiter's state and its answers are
      those of a limiter that keeps every failure since the key's last success and sees no other key. */
  lemma {:induction false} PruningRefines(c: Config, ops: seq<Op>, n: nat, key: string)
    requires n <= |ops| && c.window > 0 && InOrder(ops, n, key)
    ensures Agrees(c, StateOf(States(c, ops, n), key), Full(c, ops, n, key), Clock(ops, n, key))
    decreases n, 1
  {
    KeptExactly(c, ops, n, key);
    FullIsAll(c, ops, n, key);
    forall cutoff: int | Clock(ops, n, key) - c.window <= cutoff
      ensures Recent(StateOf(States(c, ops, n), key).fails, cutoff) == Recent(Full(c, ops, n, key).fails, cutoff)
    {
      SurvivorsSuffice(c, ops, n, n, key, cutoff);
    }
    LocksAgree(c, ops, n, key);
  }

  lemma {:induction false} LocksAgree(c: Config, ops: seq<Op>, n: nat, key: string)
    requires n <= |ops| && c.window > 0 && InOrder(ops, n, key)
    ensures StateOf(States(c, ops, n), key).lockedUntil == Full(c, ops, n, key).lockedUntil
    decreases n, 0
  {
    if n > 0 {
      PruningRefines(c, ops, n - 1, key);
      var s, full := StateOf(States(c, ops, n - 1), key), Full(c, ops, n - 1, key);
      if ops[n - 1].key == key {
        match ops[n - 1]
        case Ask(_, now) => AskAgrees(c, s, full, Clock(ops, n - 1, key), now);
        case Failure(_, now) => FailureAgrees(c, s, full, Clock(ops, n - 1, key), now);
        case Success(_) =>
      }
    }
  }

  lemma {:induction false} VerdictRefines(c: Config, ops: seq<Op>, k: nat)
    requires k < |ops| && ops[k].Ask? && c.window > 0 && InOrder(ops, k + 1, ops[k].key)
    ensures Verdict(c, ops, k) == FullVerdict(c, Full(c, ops, k, ops[k].key), ops[k].now)
  {
    var key := ops[k].key;
    PruningRefines(c, ops, k, key);
    AskAgrees(c, StateOf(States(c, ops, k), key), Full(c, ops, k, key), Clock(ops, k, key), ops[k].now);
  }

  // ----- Bounds -----

  /** Since the last success: no failure is later than the last one, nor that than the clock, and a lock
      ends within the lockout of the clock and within window and lockout of the last failure. */
  ghost predicate Bounded(c: Config, s: Login, clock: nat) {
    && (forall i :: 0 <= i < |s.fails| ==> s.fails[i] <= s.fails[|s.fails| - 1] <= clock)
    && (s.lockedUntil != 0 ==>
        && s.lockedUntil <= clock + c.lockout
        && s.fails != []
        && s.lockedUntil < s.fails[|s.fails| - 1] + c.window + c.lockout)
  }

  /** If the window is crowded, the last failure is in it. */
  lemma {:induction false} LastIsRecent(c: Config, s: Login, clock: nat, now: nat)
    requires Bounded(c, s, clock) && Crowded(c, s.fails, now) && c.maxAttempts > 0
    ensures s.fails != [] && now - c.window < s.fails[|s.fails| - 1]
  {
    if s.fails != [] && s.fails[|s.fails| - 1] <= now - c.window {
      NoneRecent(s.fails, |s.fails|, now - c.window);
    }
  }

  lemma {:induction false} FullIsBounded(c: Config, ops: seq<Op>, n: nat, key: string)
    requires n <= |ops| && c.window > 0 && c.maxAttempts > 0 && InOrder(ops, n, key)
    ensures Bounded(c, Full(c, ops, n, key), Clock(ops, n, key))
  {
    if n > 0 {
      FullIsBounded(c, ops, n - 1, key);
      var s := Full(c, ops, n - 1, key);
      if ops[n - 1].Ask? && ops[n - 1].key == key && Crowded(c, s.fails, ops[n - 1].now) {
        LastIsRecent(c, s, Clock(ops, n - 1, key), ops[n - 1].now);
      }
    }
  }

  /** Without a success in between, the lock never moves back. */
  lemma {:induction false} LockOnlyGrows(c: Config, ops: seq<Op>, n: nat, k: nat, key: string)
    requires n <= k <= |ops| && c.window > 0 && c.maxAttempts > 0 && InOrder(ops, k, key)
    requires forall i :: n <= i < k ==> ops[i] != Success(key)
    ensures Full(c, ops, n, key).lockedUntil <= Full(c, ops, k, key).lockedUntil
  {
    if n < k {
      LockOnlyGrows(c, ops, n, k - 1, key);
      FullIsBounded(c, ops, k - 1, key);
      assert ops[k - 1] != Success(key);
    }
  }

  /** A lock holds, whoever set it: every `allow` before its end is refused unless the key succeeds in
      between, and the lock it reports is no earlier. */
  lemma {:induction false} LockedOut(c: Config, ops: seq<Op>, n: nat, k: nat)
    requires n <= k < |ops| && ops[k].Ask? && c.window > 0 && c.maxAttempts > 0 && InOrder(ops, k + 1, ops[k].key)
    requires forall i :: n <= i < k ==> ops[i] != Success(ops[k].key)
    requires ops[k].now < Full(c, ops, n, ops[k].key).lockedUntil
    ensures !Verdict(c, ops, k).0 && Verdict(c, ops, k).1 >= Full(c, ops, n, ops[k].key).lockedUntil
  {
    VerdictRefines(c, ops, k);
    LockOnlyGrows(c, ops, n, k, ops[k].key);
  }

  /** So does a lock set by a failure that makes the window crowded, until that failure plus the lockout. */
  lemma {:induction false} FailuresLockOut(c: Config, ops: seq<Op>, n: nat, k: nat)
    requires n < k < |ops| && ops[n].Failure? && ops[k].Ask? && ops[n].key == ops[k].key
    requires c.window > 0 && c.maxAttempts > 0 && c.lockout > 0 && InOrder(ops, k + 1, ops[k].key)
    requires Crowded(c, Full(c, ops, n, ops[k].key).fails + [ops[n].now], ops[n].now)
    requires forall i :: n < i < k ==> ops[i] != Success(ops[k].key)
    requires ops[k].now < ops[n].now + c.lockout
    ensures !Verdict(c, ops, k).0 && Verdict(c, ops, k).1 >= ops[n].now + c.lockout
  {
    assert Full(c, ops, n + 1, ops[k].key).lockedUntil == ops[n].now + c.lockout;
    LockedOut(c, ops, n + 1, k);
  }

  lemma {:induction false} InOrderPrefix(ops: seq<Op>, n: nat, k: nat, key: string)
    requires n <= k <= |ops| && InOrder(ops, k, key)
    ensures InOrder(ops, n, key)
  {
    if n < k { InOrderPrefix(ops, n, k - 1, key); }
  }

  /** And so does every lock that an `allow` has reported, one that it has just renewed included. */
  lemma {:induction false} ReportedLockHolds(c: Config, ops: seq<Op>, n: nat, k: nat)
    requires n < k < |ops| && ops[n].Ask? && ops[k].Ask? && ops[n].key == ops[k].key
    requires c.window > 0 && c.maxAttempts > 0 && InOrder(ops, k + 1, ops[k].key)
    requires forall i :: n < i < k ==> ops[i] != Success(ops[k].key)
    requires ops[k].now < Verdict(c, ops, n).1
    ensures !Verdict(c, ops, k).0 && Verdict(c, ops, k).1 >= Verdict(c, ops, n).1
  {
    InOrderPrefix(ops, n + 1, k + 1, ops[k].key);
    VerdictRefines(c, ops, n);
    assert Full(c, ops, n + 1, ops[k].key) == FullAsk(c, Full(c, ops, n, ops[k].key), ops[n].now);
    LockedOut(c, ops, n + 1, k);
  }

  /** An `allow` at or after the last failure plus window plus lockout is granted, although refused calls
      in between may have renewed the lock. */
  lemma {:induction false} LockEnds(c: Config, ops: seq<Op>, k: nat)
    requires k < |ops| && ops[k].Ask? && c.window > 0 && c.maxAttempts > 0 && InOrder(ops, k + 1, ops[k].key)
    requires var fails := Full(c, ops, k, ops[k].key).fails;
             fails == [] || ops[k].now >= fails[|fails| - 1] + c.window + c.lockout
    ensures Verdict(c, ops, k) == (true, 0)
  {
    var full := Full(c, ops, k, ops[k].key);
    VerdictRefines(c, ops, k);
    FullIsBounded(c, ops, k, ops[k].key);
    NoneRecent(full.fails, |full.fails|, ops[k].now - c.window);
  }

  // ----- The conditions are needed -----

  lemma {:induction false} RecentOne(t: nat, cutoff: int)
    ensures Recent([t], cutoff) == if t > cutoff then [t] else []
  {
    assert [] + [t] == [t];
    RecentSnoc([], t, cutoff);
  }

  /** One failure, kept whole and pruned. */
  lemma {:induction false} FirstFailure(c: Config, ops: seq<Op>, key: string, t: nat)
    requires c.maxAttempts == 1 && c.window > 0 && ops != [] && ops[0] == Failure(key, t)
    ensures Full(c, ops, 1, key) == Login([t], if c.lockout > 0 then t + c.lockout else 0)
    ensures StateOf(States(c, ops, 1), key) == Full(c, ops, 1, key)
  {
    RecentOne(t, t - c.window);
    assert [] + [t] == [t];
  }

  /** A refused call does renew the lock: a failure locks until `t + lockout`, and a call at that very time
      locks once more for as long. */
  lemma {:induction false} RefusedCallRenewsLock(c: Config, key: string, t: nat) returns (ops: seq<Op>)
    requires c.maxAttempts == 1 && 0 < c.lockout < c.window
    ensures ops == [Failure(key, t), Ask(key, t + c.lockout)]
    ensures Full(c, ops, 1, key).lockedUntil == t + c.lockout
    ensures Verdict(c, ops, 1) == (false, t + c.lockout + c.lockout)
  {
    ops := [Failure(key, t), Ask(key, t + c.lockout)];
    FirstFailure(c, ops, key, t);
    AskAtLockEnd(c, t, t + c.lockout);
  }

  lemma {:induction false} AskAtLockEnd(c: Config, t: nat, now: nat)
    requires c.maxAttempts == 1 && 0 < c.lockout && now == t + c.lockout && c.lockout < c.window
    ensures Allow(c, Login([t], now), now) == (Login([t], now + c.lockout), false, now + c.lockout)
  {
    RecentOne(t, now - c.window);
  }

  /** With a clock that runs back the two differ: the call a window after the failure prunes it, and a call
      that comes later with an earlier time should still see it. */
  lemma {:induction false} ClockMustNotRunBack(c: Config, key: string, t: nat, late: nat) returns (ops: seq<Op>)
    requires c.maxAttempts == 1 && c.lockout == 0 && t <= late < t + c.window
    ensures ops == [Failure(key, t), Ask(key, t + c.window), Ask(key, late)]
    ensures Verdict(c, ops, 2) == (true, 0) && FullVerdict(c, Full(c, ops, 2, key), late) == (false, 0)
  {
    ops := [Failure(key, t), Ask(key, t + c.window), Ask(key, late)];
    FirstFailure(c, ops, key, t);
    RecentOne(t, t);
    RecentOne(t, late - c.window);
    assert StateOf(States(c, ops, 2), key) == Login([], 0) && Full(c, ops, 2, key) == Login([t], 0);
  }
}
