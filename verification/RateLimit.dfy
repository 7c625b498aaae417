/**
  backend/app/core/rate_limit.py: the fixed-window request limiter and the
  login-failure counter with its lock key.
 */
module RateLimit {
  import opened Wrappers
  import opened Redis

  datatype Verdict = Accepted | Refused(retryAfter: int)

  // ---------------------------------------------------------------------------
  // The limiter on one key
  // ---------------------------------------------------------------------------

  /** The counter behind one key; `None` when the key does not exist. */
  type Counter = Option<Timed<int>>

  predicate Running(counter: Counter, now: int) {
    counter.Some? && counter.value.LiveAt(now)
  }

  /** INCR: an expired or missing key restarts at 1, without expiry. */
  function Incr(counter: Counter, now: int): Timed<int> {
    if Running(counter, now) then counter.value.(value := counter.value.value + 1)
    else Timed(1, None)
  }

  function ExpireIn(counter: Timed<int>, seconds: int, now: int): Counter {
    if seconds <= 0 then None else Some(counter.(expires := Some(now + seconds)))
  }

  function TtlOf(counter: Counter, now: int): int {
    if !Running(counter, now) then -2
    else if counter.value.expires.None? then -1
    else counter.value.expires.value - now
  }

  function Enforce(counter: Counter, now: int, limit: int, window: int): (Counter, Verdict) {
    var counted := Incr(counter, now);
    var stored := if counted.value == 1 then ExpireIn(counted, window, now) else Some(counted);
    (stored, if counted.value > limit then Refused(Max(TtlOf(stored, now), 1)) else Accepted)
  }

  /**
    One request.  In a `crashed` one the process died after INCR and before
    EXPIRE, so it was never answered and may leave a counter without expiry.
   */
  datatype Request = Request(at: int, crashed: bool)

  function After(counter: Counter, request: Request, limit: int, window: int): Counter {
    if request.crashed then Some(Incr(counter, request.at))
    else Enforce(counter, request.at, limit, window).0
  }

  predicate Admits(counter: Counter, request: Request, limit: int, window: int) {
    !request.crashed && Enforce(counter, request.at, limit, window).1.Accepted?
  }

  ghost predicate Chronological(requests: seq<Request>, from: int) {
    && (forall i :: 0 <= i < |requests| ==> from <= requests[i].at)
    && (forall i, j :: 0 <= i < j < |requests| ==> requests[i].at <= requests[j].at)
  }

  function AfterAll(counter: Counter, requests: seq<Request>, limit: int, window: int): Counter
    decreases |requests|
  {
    if requests == [] then counter
    else AfterAll(After(counter, requests[0], limit, window), requests[1..], limit, window)
  }

  /** How many requests are admitted at an instant in [from, from + window). */
  function AdmittedWithin(counter: Counter, requests: seq<Request>, from: int, limit: int, window: int): nat
    decreases |requests|
  {
    if requests == [] then 0
    else
      (if Admits(counter, requests[0], limit, window) && from <= requests[0].at < from + window then 1 else 0)
      + AdmittedWithin(After(counter, requests[0], limit, window), requests[1..], from, limit, window)
  }

  /** The most requests any interval of one window length can see admitted. */
  function Bound(limit: nat): nat {
    if limit == 0 then 0 else 2 * limit - 1
  }

  /**
    What is known once `n` requests were admitted in [from, from + window): the
    current window is the only one that contributed; or it is the second one and
    outlives the interval; or the interval is over.
   */
  ghost predicate Progress(n: nat, counter: Counter, now: int, from: int, limit: nat, window: int) {
    if counter.None? then n == 0
    else
      var Timed(value, expires) := counter.value;
      && 1 <= value
      && (limit == 0 ==> n == 0)
      && (|| limit == 0
          || (&& n <= Min(value, limit)
              && (expires.None? || expires.value - window < from ==> n + 1 <= Min(value, limit))
              && (expires.Some? && n > 0 ==> from < expires.value))
          || ((expires.None? || from < expires.value - window) && n <= limit - 1 + Min(value, limit))
          || (from + window <= now && n <= Bound(limit)))
  }

  lemma ProgressStep(n: nat, counter: Counter, now: int, request: Request, from: int, limit: nat, window: int)
    requires window > 0 && now <= request.at
    requires Progress(n, counter, now, from, limit, window)
    ensures
      var admitted := Admits(counter, request, limit, window) && from <= request.at < from + window;
      Progress(n + (if admitted then 1 else 0), After(counter, request, limit, window), request.at, from, limit, window)
  {
  }

  lemma {:induction false} AdmittedFrom(n: nat, counter: Counter, now: int, requests: seq<Request>, from: int, limit: nat, window: int)
    requires window > 0 && Chronological(requests, now)
    requires Progress(n, counter, now, from, limit, window)
    ensures n + AdmittedWithin(counter, requests, from, limit, window) <= Bound(limit)
    decreases |requests|
  {
    if requests != [] {
      var request := requests[0];
      ProgressStep(n, counter, now, request, from, limit, window);
      var admitted := Admits(counter, request, limit, window) && from <= request.at < from + window;
      AdmittedFrom(n + (if admitted then 1 else 0), After(counter, request, limit, window), request.at,
                   requests[1..], from, limit, window);
    }
  }

  /**
    Whatever the requests and wherever the processes crash, an interval of one
    window length sees at most 2 * limit - 1 admitted requests.
   */
  lemma WindowBound(requests: seq<Request>, start: int, from: int, limit: nat, window: int)
    requires window > 0 && Chronological(requests, start)
    ensures AdmittedWithin(None, requests, from, limit, window) <= Bound(limit)
  {
    AdmittedFrom(0, None, start, requests, from, limit, window);
  }

  function Repeat(count: nat, at: int): seq<Request> {
    seq(count, i => Request(at, false))
  }

  lemma {:induction false} RepeatedCalls(counter: Counter, count: nat, at: int, rest: seq<Request>, from: int, limit: nat, window: int)
    requires Running(counter, at) && 1 <= counter.value.value && counter.value.value + count <= limit
    requires from <= at < from + window
    ensures
      var later := Some(counter.value.(value := counter.value.value + count));
      AdmittedWithin(counter, Repeat(count, at) + rest, from, limit, window)
      == count + AdmittedWithin(later, rest, from, limit, window)
    decreases count
  {
    if count == 0 {
      assert Repeat(count, at) + rest == rest;
    } else {
      var calls := Repeat(count, at) + rest;
      assert calls[1..] == Repeat(count - 1, at) + rest;
      RepeatedCalls(After(counter, calls[0], limit, window), count - 1, at, rest, from, limit, window);
    }
  }

  /** One call opens a window, a burst closes it and a second burst opens the next one. */
  function Bursts(limit: nat, window: int): seq<Request>
    requires limit > 0
  {
    [Request(0, false)] + Repeat(limit - 1, window - 1) + Repeat(limit, window)
  }

  /** The bound is attained for every limit, so no smaller one holds. */
  lemma WindowBoundAttained(limit: nat, window: int)
    requires limit > 0 && window > 1
    ensures Chronological(Bursts(limit, window), 0)
    ensures AdmittedWithin(None, Bursts(limit, window), 1, limit, window) == Bound(limit)
  {
    var tail := Repeat(limit - 1, window - 1) + Repeat(limit, window);
    var requests := Bursts(limit, window);
    assert requests[1..] == tail;
    var first := After(None, requests[0], limit, window);
    RepeatedCalls(first, limit - 1, window - 1, Repeat(limit, window), 1, limit, window);
    SecondBurst(limit, window);
  }

  /** The burst that opens the next window, when the first one is full. */
  lemma SecondBurst(limit: nat, window: int)
    requires limit > 0 && window > 1
    ensures AdmittedWithin(Some(Timed(limit, Some(window))), Repeat(limit, window), 1, limit, window) == limit
  {
    var full := Some(Timed(limit, Some(window)));
    var second := Repeat(limit, window);
    var rest := Repeat(limit - 1, window);
    assert second[0] == Request(window, false) && |second[1..]| == |rest|;
    assert second[1..] == rest && rest + [] == rest;
    RepeatedCalls(After(full, second[0], limit, window), limit - 1, window, [], 1, limit, window);
  }

  lemma PrefixTail(requests: seq<Request>, i: nat)
    requires 0 < i <= |requests|
    ensures requests[..i][1..] == requests[1..][..i - 1]
  {
  }

  /**
    A refused caller that waits for the advertised time is admitted, and no
    caller is admitted before; a counter that a crash left without expiry
    refuses for ever, although it advertises one second.
   */
  lemma {:induction false} RetryAfter(counter: Counter, now: int, limit: nat, window: int, between: seq<Request>, again: Request)
    requires limit > 0 && window > 0 && Running(counter, now) && counter.value.value >= limit
    requires Chronological(between, now) && now <= again.at && !again.crashed
    requires forall i :: 0 <= i < |between| ==> between[i].at <= again.at
    requires counter.value.expires.Some? ==> forall i :: 0 <= i < |between| ==> between[i].at < counter.value.expires.value
    ensures Enforce(counter, now, limit, window).1
         == Refused(if counter.value.expires.Some? then counter.value.expires.value - now else 1)
    ensures forall i :: 0 <= i < |between| ==> !Admits(AfterAll(counter, between[..i], limit, window), between[i], limit, window)
    ensures Admits(AfterAll(counter, between, limit, window), again, limit, window)
       <==> counter.value.expires.Some? && counter.value.expires.value <= again.at
    decreases |between|
  {
    if between != [] {
      var next := After(counter, between[0], limit, window);
      RetryAfter(next, between[0].at, limit, window, between[1..], again);
      forall i | 0 < i < |between|
        ensures !Admits(AfterAll(counter, between[..i], limit, window), between[i], limit, window)
      {
        PrefixTail(between, i);
      }
    }
  }

  // ---------------------------------------------------------------------------
  // Login failures and the account lock
  // ---------------------------------------------------------------------------

  /** The failure counter and the instant up to which the account is locked. */
  datatype Login = Login(failures: Counter, lockedUntil: Option<int>)

  const NO_FAILURES := Login(None, None)

  function LockSeconds(accountLockMinutes: int): int { Max(1, accountLockMinutes * 60) }

  function MaxFailures(maxLoginAttempts: int): int { Max(1, maxLoginAttempts) }

  function RecordFailure(login: Login, now: int, lockSeconds: int, maxFailures: int): Login {
    var counted := Incr(login.failures, now);
    Login(ExpireIn(counted, lockSeconds, now),
          if counted.value >= maxFailures then Some(now + lockSeconds) else login.lockedUntil)
  }

  predicate Locked(login: Login, now: int) {
    login.lockedUntil.Some? && now < login.lockedUntil.value
  }

  datatype LoginEvent = Failure(at: int) | Clear(at: int)

  function Replay(log: seq<LoginEvent>, lockSeconds: int, maxFailures: int): Login {
    if log == [] then NO_FAILURES
    else
      var before := Replay(log[..|log| - 1], lockSeconds, maxFailures);
      match log[|log| - 1]
      case Failure(at) => RecordFailure(before, at, lockSeconds, maxFailures)
      case Clear(_) => NO_FAILURES
  }

  ghost predicate Ordered(log: seq<LoginEvent>) {
    forall i, j :: 0 <= i < j < |log| ==> log[i].at <= log[j].at
  }

  /** The failures log[first..last] follow each other within the lock time and nothing was cleared since. */
  ghost predicate FailureChain(log: seq<LoginEvent>, first: nat, last: nat, lockSeconds: int) {
    && first <= last < |log|
    && (forall i :: first <= i < |log| ==> log[i].Failure?)
    && (forall i :: first < i <= last ==> log[i].at - log[i - 1].at < lockSeconds)
  }

  /** Length of the chain of failures that ends the log. */
  function Streak(log: seq<LoginEvent>, lockSeconds: int): nat {
    if log == [] || log[|log| - 1].Clear? then 0
    else if |log| > 1 && log[|log| - 1].at - log[|log| - 2].at < lockSeconds
    then 1 + Streak(log[..|log| - 1], lockSeconds)
    else 1
  }

  /** The last failure that completed a long enough chain and was not cleared. */
  function LockingFailure(log: seq<LoginEvent>, lockSeconds: int, maxFailures: int): Option<nat> {
    if log == [] || log[|log| - 1].Clear? then None
    else if Streak(log, lockSeconds) >= maxFailures then Some(|log| - 1)
    else LockingFailure(log[..|log| - 1], lockSeconds, maxFailures)
  }

  lemma {:induction false} ReplaySummary(log: seq<LoginEvent>, lockSeconds: int, maxFailures: int)
    requires Ordered(log) && lockSeconds > 0 && maxFailures > 0
    ensures
      var login := Replay(log, lockSeconds, maxFailures);
      var locking := LockingFailure(log, lockSeconds, maxFailures);
      && (login.failures.None? <==> Streak(log, lockSeconds) == 0)
      && (login.failures.Some? ==>
            login.failures.value == Timed(Streak(log, lockSeconds), Some(log[|log| - 1].at + lockSeconds)))
      && (locking.Some? ==> locking.value < |log|)
      && login.lockedUntil == (if locking.Some? then Some(log[locking.value].at + lockSeconds) else None)
  {
    if log != [] {
      ReplaySummary(log[..|log| - 1], lockSeconds, maxFailures);
    }
  }

  lemma {:induction false} StreakIsChain(log: seq<LoginEvent>, lockSeconds: int)
    requires Streak(log, lockSeconds) > 0
    ensures Streak(log, lockSeconds) <= |log|
    ensures FailureChain(log, |log| - Streak(log, lockSeconds), |log| - 1, lockSeconds)
  {
    var shorter := log[..|log| - 1];
    if Streak(log, lockSeconds) > 1 {
      StreakIsChain(shorter, lockSeconds);
    }
  }

  lemma {:induction false} LockingFailureIsChain(log: seq<LoginEvent>, lockSeconds: int, maxFailures: int) returns (first: nat, last: nat)
    requires maxFailures > 0 && LockingFailure(log, lockSeconds, maxFailures).Some?
    ensures last == LockingFailure(log, lockSeconds, maxFailures).value
    ensures FailureChain(log, first, last, lockSeconds) && last - first + 1 >= maxFailures
  {
    if Streak(log, lockSeconds) >= maxFailures {
      StreakIsChain(log, lockSeconds);
      first, last := |log| - Streak(log, lockSeconds), |log| - 1;
    } else {
      first, last := LockingFailureIsChain(log[..|log| - 1], lockSeconds, maxFailures);
    }
  }

  lemma {:induction false} ChainIsStreak(log: seq<LoginEvent>, first: nat, lockSeconds: int)
    requires log != [] && FailureChain(log, first, |log| - 1, lockSeconds)
    ensures Streak(log, lockSeconds) >= |log| - first
  {
    if first < |log| - 1 {
      ChainIsStreak(log[..|log| - 1], first, lockSeconds);
    }
  }

  lemma {:induction false} ChainLocks(log: seq<LoginEvent>, first: nat, last: nat, lockSeconds: int, maxFailures: int)
    requires FailureChain(log, first, last, lockSeconds) && last - first + 1 >= maxFailures
    ensures LockingFailure(log, lockSeconds, maxFailures).Some?
    ensures last <= LockingFailure(log, lockSeconds, maxFailures).value < |log|
  {
    if Streak(log, lockSeconds) < maxFailures {
      if last == |log| - 1 {
        ChainIsStreak(log, first, lockSeconds);
      } else {
        ChainLocks(log[..|log| - 1], first, last, lockSeconds, maxFailures);
      }
    }
  }

  /**
    The counter and the lock key together remember exactly this about the whole
    log: an uncleared chain of enough failures ended less than the lock time ago.
   */
  lemma LockoutMeaning(log: seq<LoginEvent>, now: int, lockSeconds: int, maxFailures: int)
    requires Ordered(log) && lockSeconds > 0 && maxFailures > 0
    ensures Locked(Replay(log, lockSeconds, maxFailures), now)
       <==> exists first: nat, last: nat ::
              && FailureChain(log, first, last, lockSeconds)
              && last - first + 1 >= maxFailures
              && now < log[last].at + lockSeconds
  {
    ReplaySummary(log, lockSeconds, maxFailures);
    if Locked(Replay(log, lockSeconds, maxFailures), now) {
      var first, last := LockingFailureIsChain(log, lockSeconds, maxFailures);
    }
    forall first: nat, last: nat
      | && FailureChain(log, first, last, lockSeconds)
        && last - first + 1 >= maxFailures
        && now < log[last].at + lockSeconds
      ensures Locked(Replay(log, lockSeconds, maxFailures), now)
    {
      ChainLocks(log, first, last, lockSeconds, maxFailures);
    }
  }

  /** An uncleared chain of `attempts` failures, each less than `seconds` after the one before, that ended less than `seconds` ago. */
  ghost predicate FailedTooOften(log: seq<LoginEvent>, now: int, seconds: int, attempts: int) {
    exists first: nat, last: nat ::
      FailureChain(log, first, last, seconds) && last - first + 1 >= attempts && now < log[last].at + seconds
  }

  /**
    The lockout in the terms of the settings: with L minutes and M attempts, an
    account is locked exactly when M failures in a row, less than L minutes apart,
    ended less than L minutes ago.  Settings below one lock the first failure, or
    lock for one second.
   */
  lemma LockoutInSettings(log: seq<LoginEvent>, now: int, accountLockMinutes: int, maxLoginAttempts: int)
    requires Ordered(log)
    ensures Locked(Replay(log, LockSeconds(accountLockMinutes), MaxFailures(maxLoginAttempts)), now)
       <==> FailedTooOften(log, now, if accountLockMinutes < 1 then 1 else 60 * accountLockMinutes,
                           if maxLoginAttempts < 1 then 1 else maxLoginAttempts)
  {
    LockoutMeaning(log, now, LockSeconds(accountLockMinutes), MaxFailures(maxLoginAttempts));
  }

  // ---------------------------------------------------------------------------
  // The module as it runs: counters and locks kept in Redis
  // ---------------------------------------------------------------------------

  class RateLimits {
    var now: int
    var counters: map<string, Timed<int>>
    var locks: map<string, int>

    constructor ()
      ensures counters == map[] && locks == map[]
    {
      now, counters, locks := 0, map[], map[];
    }

    ghost function CounterAt(key: string): Counter
      reads this
    {
      if key in counters then Some(counters[key]) else None
    }

    ghost function LoginOf(email: string): Login
      reads this
    {
      Login(CounterAt("auth:failure:" + email),
            if "auth:locked:" + email in locks then Some(locks["auth:locked:" + email]) else None)
    }

    /** INCR. */
    method Increment(key: string) returns (value: int)
      modifies this`counters
      ensures counters == old(counters)[key := Incr(old(CounterAt(key)), now)]
      ensures value == counters[key].value
    {
      var counter := if key in counters && counters[key].LiveAt(now)
                     then counters[key].(value := counters[key].value + 1)
                     else Timed(1, None);
      counters := counters[key := counter];
      value := counter.value;
    }

    /** EXPIRE on a key that was just written. */
    method SetExpiry(key: string, seconds: int)
      requires key in counters && counters[key].LiveAt(now)
      modifies this`counters
      ensures CounterAt(key) == ExpireIn(old(counters[key]), seconds, now)
      ensures counters - {key} == old(counters) - {key}
    {
      if seconds <= 0 {
        counters := counters - {key};
      } else {
        counters := counters[key := counters[key].(expires := Some(now + seconds))];
      }
    }

    /** `enforce_rate_limit`: the verdict and the stored counter are those of `Enforce`. */
    method EnforceRateLimit(key: string, limit: int, windowSeconds: int) returns (verdict: Verdict)
      modifies this`counters
      ensures (CounterAt(key), verdict) == Enforce(old(CounterAt(key)), now, limit, windowSeconds)
      ensures counters - {key} == old(counters) - {key}
    {
      var value := Increment(key);
      if value == 1 {
        SetExpiry(key, windowSeconds);
      }
      if value > limit {
        var ttl := if !(key in counters && counters[key].LiveAt(now)) then -2
                   else if counters[key].expires.None? then -1
                   else counters[key].expires.value - now;
        return Refused(Max(ttl, 1));
      }
      return Accepted;
    }

    /** `record_login_failure` for the hashed e-mail. */
    method RecordLoginFailure(email: string, accountLockMinutes: int, maxLoginAttempts: int)
      modifies this`counters, this`locks
      ensures LoginOf(email)
           == RecordFailure(old(LoginOf(email)), now, LockSeconds(accountLockMinutes), MaxFailures(maxLoginAttempts))
      ensures
        var seconds := if accountLockMinutes < 1 then 1 else 60 * accountLockMinutes;
        var failures := if Running(old(LoginOf(email)).failures, now) then old(LoginOf(email)).failures.value.value + 1 else 1;
        && LoginOf(email).failures == Some(Timed(failures, Some(now + seconds)))
        && LoginOf(email).lockedUntil
           == (if failures >= maxLoginAttempts && failures >= 1 then Some(now + seconds) else old(LoginOf(email)).lockedUntil)
      ensures counters - {"auth:failure:" + email} == old(counters) - {"auth:failure:" + email}
      ensures locks - {"auth:locked:" + email} == old(locks) - {"auth:locked:" + email}
    {
      var lockSeconds := Max(1, accountLockMinutes * 60);
      var maxFailures := Max(1, maxLoginAttempts);
      var key := "auth:failure:" + email;
      var value := Increment(key);
      SetExpiry(key, lockSeconds);
      if value >= maxFailures {
        locks := locks["auth:locked:" + email := now + lockSeconds];
      }
    }

    /** `clear_login_failures`. */
    method ClearLoginFailures(email: string)
      modifies this`counters, this`locks
      ensures LoginOf(email) == NO_FAILURES
      ensures counters == old(counters) - {"auth:failure:" + email}
      ensures locks == old(locks) - {"auth:locked:" + email}
    {
      counters := counters - {"auth:failure:" + email};
      locks := locks - {"auth:locked:" + email};
    }

    /** `ensure_not_locked`. */
    method EnsureNotLocked(email: string) returns (verdict: Verdict)
      ensures verdict.Refused? <==> Locked(LoginOf(email), now)
      ensures verdict.Refused? ==> verdict.retryAfter == LoginOf(email).lockedUntil.value - now
    {
      var key := "auth:locked:" + email;
      if key in locks && now < locks[key] {
        return Refused(Max(locks[key] - now, 1));
      }
      return Accepted;
    }
  }
}
