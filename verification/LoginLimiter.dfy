/** The login limiter: a sliding window of failures per key, pruned in place, and a lockout. Times are
    nanoseconds since Go's zero time, which is 0. */
module LoginLimiter {

  datatype Config = Config(maxAttempts: nat, window: nat, lockout: nat)

  /** `newLoginLimiter`, with its defaults; the default window is five minutes. */
  function NewConfig(maxAttempts: int, window: int, lockout: int): (c: Config)
    ensures c.maxAttempts > 0 && c.window > 0
    ensures c.maxAttempts == maxAttempts || (maxAttempts <= 0 && c.maxAttempts == 5)
    ensures c.window == window || (window <= 0 && c.window == 5 * 60 * 1_000_000_000)
    ensures c.lockout == lockout || (lockout < 0 && c.lockout == 0)
  {
    Config(if maxAttempts <= 0 then 5 else maxAttempts,
           if window <= 0 then 300_000_000_000 else window,
           if lockout < 0 then 0 else lockout)
  }

  /** What the limiter keeps for one key; an absent key is blank. */
  datatype Login = Login(fails: seq<nat>, lockedUntil: nat)

  const BLANK := Login([], 0)

  /** The failures after `cutoff` among the first `n`. */
  function RecentTo(fails: seq<nat>, n: nat, cutoff: int): (r: seq<nat>)
    requires n <= |fails|
    ensures |r| <= n
  {
    if n == 0 then []
    else RecentTo(fails, n - 1, cutoff) + if fails[n - 1] > cutoff then [fails[n - 1]] else []
  }

  function Recent(fails: seq<nat>, cutoff: int): seq<nat> {
    RecentTo(fails, |fails|, cutoff)
  }

  predicate Locked(lockedUntil: nat, now: nat) {
    lockedUntil != 0 && now < lockedUntil
  }

  /** `allow` on one key: what is kept, the verdict and the reported lock. */
  function Allow(c: Config, s: Login, now: nat): (Login, bool, nat) {
    if Locked(s.lockedUntil, now) then (s, false, s.lockedUntil)
    else
      var fails := Recent(s.fails, now - c.window);
      if |fails| < c.maxAttempts then (Login(fails, s.lockedUntil), true, 0)
      else if c.lockout > 0 then (Login(fails, now + c.lockout), false, now + c.lockout)
      else (Login(fails, s.lockedUntil), false, 0)
  }

  /** `onFailure` on one key. */
  function OnFailure(c: Config, s: Login, now: nat): Login {
    var fails := Recent(s.fails, now - c.window) + [now];
    Login(fails, if |fails| >= c.maxAttempts && c.lockout > 0 then now + c.lockout else s.lockedUntil)
  }

  function StateOf(states: map<string, Login>, key: string): Login {
    if key in states then states[key] else BLANK
  }

  // ----- The limiter in place -----

  /** The in-place compaction both operations start with: `fails[:0]` grows over the array it is read from. */
  method Compact(buf: array<nat>, cutoff: int) returns (kept: nat)
    modifies buf
    ensures kept <= buf.Length && buf[..kept] == Recent(old(buf[..]), cutoff)
  {
    ghost var fails := buf[..];
    kept := 0;
    for i := 0 to buf.Length
      invariant kept <= i
      invariant buf[..kept] == RecentTo(fails, i, cutoff)
      invariant forall j :: i <= j < buf.Length ==> buf[j] == fails[j]
    {
      var t := buf[i];
      if t > cutoff {
        buf[kept] := t;
        kept := kept + 1;
      }
    }
  }

  class LoginState {
    var fails: seq<nat>
    var lockedUntil: nat
    var lastSeen: nat

    function View(): Login
      reads this
    {
      Login(fails, lockedUntil)
    }

    constructor ()
      ensures View() == BLANK
    {
      fails, lockedUntil, lastSeen := [], 0, 0;
    }

    method Prune(cutoff: int)
      modifies this`fails
      ensures fails == Recent(old(fails), cutoff)
    {
      var buf := new nat[|fails|](i requires 0 <= i < |fails| reads this => fails[i]);
      assert buf[..] == fails;
      var kept := Compact(buf, cutoff);
      fails := buf[..kept];
    }

    /** `allow`, once the key's state is found. */
    method Check(c: Config, now: nat) returns (allowed: bool, until: nat)
      modifies this
      ensures (View(), allowed, until) == Allow(c, old(View()), now)
    {
      lastSeen := now;
      if lockedUntil != 0 && now < lockedUntil {
        return false, lockedUntil;
      }
      Prune(now - c.window);
      if |fails| >= c.maxAttempts {
        if c.lockout > 0 {
          lockedUntil := now + c.lockout;
          return false, lockedUntil;
        }
        return false, 0;
      }
      return true, 0;
    }

    /** `onFailure`, once the key's state is found. */
    method Record(c: Config, now: nat)
      modifies this
      ensures View() == OnFailure(c, old(View()), now)
    {
      lastSeen := now;
      Prune(now - c.window);
      fails := fails + [now];
      if |fails| >= c.maxAttempts && c.lockout > 0 {
        lockedUntil := now + c.lockout;
      }
    }
  }

  class Limiter {
    const config: Config
    var states: map<string, LoginState>

    /** No two keys share a state. */
    ghost predicate Valid()
      reads this
    {
      forall k, l :: k in states && l in states && k != l ==> states[k] != states[l]
    }

    function View(): map<string, Login>
      reads this, states.Values
    {
      map k | k in states :: states[k].View()
    }

    constructor (maxAttempts: int, window: int, lockout: int)
      ensures Valid() && View() == map[] && config == NewConfig(maxAttempts, window, lockout)
    {
      config := NewConfig(maxAttempts, window, lockout);
      states := map[];
    }

    /** A key's state is made blank if absent. */
    method Touch(key: string)
      requires Valid()
      modifies this
      ensures Valid() && key in states
      ensures states[key] in old(states.Values) || fresh(states[key])
      ensures View() == old(View())[key := StateOf(old(View()), key)]
    {
      if key !in states {
        var s := new LoginState();
        assert forall k :: k in states ==> states[k] in states.Values;
        states := states[key := s];
      }
    }

    method CheckAt(now: nat, key: string) returns (allowed: bool, until: nat)
      requires Valid() && key in states
      modifies states[key]
      ensures (View()[key], allowed, until) == Allow(config, old(View()[key]), now)
      ensures View() == old(View())[key := View()[key]]
    {
      allowed, until := states[key].Check(config, now);
    }

    method Allows(now: nat, key: string) returns (allowed: bool, until: nat)
      requires Valid()
      modifies this, states.Values
      ensures Valid()
      ensures var (s, a, u) := Allow(config, StateOf(old(View()), key), now);
              View() == old(View())[key := s] && allowed == a && until == u
    {
      Touch(key);
      allowed, until := CheckAt(now, key);
    }

    method RecordAt(now: nat, key: string)
      requires Valid() && key in states
      modifies states[key]
      ensures View() == old(View())[key := OnFailure(config, old(View()[key]), now)]
    {
      states[key].Record(config, now);
    }

    method Fail(now: nat, key: string)
      requires Valid()
      modifies this, states.Values
      ensures Valid()
      ensures View() == old(View())[key := OnFailure(config, StateOf(old(View()), key), now)]
    {
      Touch(key);
      RecordAt(now, key);
    }

    method Succeed(key: string)
      requires Valid()
      modifies this
      ensures Valid()
      ensures View() == old(View()) - {key}
    {
      states := states - {key};
    }
  }
}
