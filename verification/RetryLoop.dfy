/** The Amadeus request loop: bounded retries with back-off against an arbitrary script of vendor outcomes. */
module RetryLoop {
  import opened Wrappers

  const BASE_BACKOFF := 0.5
  const MAX_BACKOFF := 10.0

  /** What one attempt meets. */
  datatype Outcome =
    | Success
    | Unauthorised                            // 401 on a data call
    | Busy(retryAfter: Option<real>)          // 429, 503, 504
    | Unreachable                             // timeout or network error
    | Fatal                                   // any other error, or a body that is not JSON
    | NoToken                                 // the token manager raised

  /** Outcome of each attempt, counted from 1. */
  type Script = nat -> Outcome

  /** The attempt does not end the call. */
  predicate Continues(o: Outcome, attempt: nat, maxRetries: nat) {
    match o
    case Unauthorised => attempt == 1
    case Busy(_) => attempt <= maxRetries
    case Unreachable => attempt <= maxRetries
    case _ => false
  }

  function Min(a: real, b: real): real {
    if a <= b then a else b
  }

  function Pow2(n: nat): (p: real)
    ensures p >= 1.0
  {
    if n == 0 then 1.0 else 2.0 * Pow2(n - 1)
  }

  /** Longest back-off after an attempt without Retry-After. */
  function Cap(attempt: nat): (c: real)
    requires attempt >= 1
    ensures 0.0 <= c <= MAX_BACKOFF
  {
    Min(BASE_BACKOFF * Pow2(attempt - 1), MAX_BACKOFF)
  }

  /** Seconds slept after an outcome; `drawn` is the jittered back-off, and a negative Retry-After does not sleep. */
  function Delay(o: Outcome, drawn: real): real {
    if o.Busy? && o.retryAfter.Some? then
      var d := Min(o.retryAfter.value, MAX_BACKOFF);
      if d < 0.0 then 0.0 else d
    else drawn
  }

  /** Full jitter: the draw after each attempt lies between zero and that attempt's cap. */
  ghost predicate Jittered(draw: nat -> real) {
    forall k: nat :: k >= 1 ==> 0.0 <= draw(k) <= Cap(k)
  }

  function MaxAttempts(maxRetries: nat): nat {
    if maxRetries + 1 >= 2 then maxRetries + 1 else 2
  }

  /** The attempt that ends the call, looking from attempt `k` on. */
  function StopFrom(script: Script, maxRetries: nat, k: nat): (n: nat)
    ensures n >= k
    decreases MaxAttempts(maxRetries) - k
  {
    if Continues(script(k), k, maxRetries) then StopFrom(script, maxRetries, k + 1) else k
  }

  /** The sleeps taken after the attempts before `n`. */
  function SleepsBefore(script: Script, draw: nat -> real, n: nat): seq<real>
    requires n >= 1
  {
    if n == 1 then []
    else
      SleepsBefore(script, draw, n - 1)
      + if script(n - 1).Unauthorised? then [] else [Delay(script(n - 1), draw(n - 1))]
  }

  /** Token invalidations asked for by the attempts before `n`: one for each 401 that was retried. */
  function InvalidationsBefore(script: Script, n: nat): nat
    requires n >= 1
  {
    if n == 1 then 0 else InvalidationsBefore(script, n - 1) + if script(n - 1).Unauthorised? then 1 else 0
  }

  method Request(script: Script, maxRetries: nat, draw: nat -> real)
    returns (last: Outcome, attempts: nat, sleeps: seq<real>, invalidations: nat)
    ensures attempts == StopFrom(script, maxRetries, 1) >= 1
    ensures last == script(attempts)
    ensures sleeps == SleepsBefore(script, draw, attempts)
    ensures invalidations == InvalidationsBefore(script, attempts)
  {
    attempts, sleeps, invalidations := 0, [], 0;
    while true
      invariant StopFrom(script, maxRetries, 1) == StopFrom(script, maxRetries, attempts + 1)
      invariant sleeps == SleepsBefore(script, draw, attempts + 1)
      invariant invalidations == InvalidationsBefore(script, attempts + 1)
      decreases MaxAttempts(maxRetries) - attempts
    {
      attempts := attempts + 1;
      last := script(attempts);
      if last.Unreachable? {
        if attempts <= maxRetries {
          sleeps := sleeps + [Delay(last, draw(attempts))];
          continue;
        }
        return;
      }
      if last.Unauthorised? && attempts == 1 {
        invalidations := invalidations + 1;
        continue;
      }
      if last.Busy? && attempts <= maxRetries {
        sleeps := sleeps + [Delay(last, draw(attempts))];
        continue;
      }
      return;
    }
  }

  // ---- bounds, for every script ----

  /** The call ends with the first terminal outcome, after at most max(2, maxRetries + 1) attempts. */
  lemma {:induction false} StopsAtFirstTerminal(script: Script, maxRetries: nat, k: nat)
    requires 1 <= k <= MaxAttempts(maxRetries)
    ensures var n := StopFrom(script, maxRetries, k);
            && k <= n <= MaxAttempts(maxRetries)
            && !Continues(script(n), n, maxRetries)
            && forall j :: k <= j < n ==> Continues(script(j), j, maxRetries)
    decreases MaxAttempts(maxRetries) - k
  {
    if Continues(script(k), k, maxRetries) {
      StopsAtFirstTerminal(script, maxRetries, k + 1);
    }
  }

  lemma {:induction false} SleepsAreBounded(script: Script, draw: nat -> real, maxRetries: nat, n: nat)
    requires n >= 1 && forall j :: 1 <= j < n ==> Continues(script(j), j, maxRetries)
    requires Jittered(draw)
    ensures var sleeps := SleepsBefore(script, draw, n);
            && |sleeps| <= n - 1 && |sleeps| <= maxRetries
            && forall i :: 0 <= i < |sleeps| ==> 0.0 <= sleeps[i] <= MAX_BACKOFF
  {
    if n > 1 {
      SleepsAreBounded(script, draw, maxRetries, n - 1);
    }
  }

  lemma {:induction false} OneInvalidation(script: Script, maxRetries: nat, n: nat)
    requires n >= 1 && forall j :: 1 <= j < n ==> Continues(script(j), j, maxRetries)
    ensures InvalidationsBefore(script, n) == if n > 1 && script(1).Unauthorised? then 1 else 0
  {
    if n > 1 {
      OneInvalidation(script, maxRetries, n - 1);
    }
  }

  function Sum(xs: seq<real>): real {
    if xs == [] then 0.0 else Sum(xs[..|xs| - 1]) + xs[|xs| - 1]
  }

  /** Sum of the caps of the first `m` attempts. */
  function SumCaps(m: nat): real {
    if m == 0 then 0.0 else SumCaps(m - 1) + Cap(m)
  }

  lemma {:induction false} CapsGrow(m: nat, n: nat)
    requires m <= n
    ensures SumCaps(m) <= SumCaps(n)
  {
    if m < n {
      CapsGrow(m, n - 1);
    }
  }

  lemma {:induction false} TotalSleep(script: Script, draw: nat -> real, n: nat)
    requires n >= 1 && Jittered(draw)
    requires forall j :: 1 <= j < n && script(j).Busy? ==> script(j).retryAfter.None?
    ensures Sum(SleepsBefore(script, draw, n)) <= SumCaps(n - 1)
  {
    if n > 1 {
      TotalSleep(script, draw, n - 1);
      var before := SleepsBefore(script, draw, n - 1);
      if script(n - 1).Unauthorised? {
        assert SleepsBefore(script, draw, n) == before;
      } else {
        assert SleepsBefore(script, draw, n)[..|before|] == before;
      }
    }
  }

  lemma TotalWithinCaps(script: Script, draw: nat -> real, maxRetries: nat, n: nat)
    requires 1 <= n <= MaxAttempts(maxRetries) && Jittered(draw)
    requires forall j :: 1 <= j < n ==> Continues(script(j), j, maxRetries)
    requires forall j :: 1 <= j < n && script(j).Busy? ==> script(j).retryAfter.None?
    ensures Sum(SleepsBefore(script, draw, n)) <= SumCaps(maxRetries)
  {
    if n <= maxRetries + 1 {
      TotalSleep(script, draw, n);
      CapsGrow(n - 1, maxRetries);
    } else {
      assert Continues(script(1), 1, maxRetries);
      assert SleepsBefore(script, draw, 2) == SleepsBefore(script, draw, 1);
    }
  }

  /** Half a second, doubled four times, then ten seconds each: 0.5, 1, 2, 4, 8, 10, 10, ... */
  function LongestWait(m: nat): real {
    if m == 0 then 0.0 else if m == 1 then 0.5 else if m == 2 then 1.5 else if m == 3 then 3.5
    else if m == 4 then 7.5 else 15.5 + 10.0 * (m - 5) as real
  }

  lemma LargePowers(n: nat)
    requires n >= 5
    ensures Pow2(n) >= 32.0
  {
    if n == 5 {
      SmallPowers();
    } else {
      LargePowers(n - 1);
    }
  }

  lemma SmallPowers()
    ensures Pow2(0) == 1.0 && Pow2(1) == 2.0 && Pow2(2) == 4.0 && Pow2(3) == 8.0 && Pow2(4) == 16.0 && Pow2(5) == 32.0
  {
  }

  lemma {:induction false} CapsInTotal(m: nat)
    ensures SumCaps(m) == LongestWait(m)
  {
    if m > 0 {
      CapsInTotal(m - 1);
      SmallPowers();
      if m >= 6 {
        LargePowers(m - 1);
      }
    }
  }

  /**
   All promises of the loop at once: bounded attempts, at most `maxRetries` sleeps of at most ten seconds each,
   at most one token invalidation, and, without Retry-After, a total sleep within the exponential caps.
   */
  lemma RequestIsBounded(script: Script, draw: nat -> real, maxRetries: nat)
    requires Jittered(draw)
    ensures var n := StopFrom(script, maxRetries, 1);
            var sleeps := SleepsBefore(script, draw, n);
            && 1 <= n <= MaxAttempts(maxRetries)
            && !Continues(script(n), n, maxRetries)
            && (forall j :: 1 <= j < n ==> Continues(script(j), j, maxRetries))
            && |sleeps| <= maxRetries
            && (forall i :: 0 <= i < |sleeps| ==> 0.0 <= sleeps[i] <= 10.0)
            && InvalidationsBefore(script, n) <= 1
            && ((forall j :: 1 <= j < n && script(j).Busy? ==> script(j).retryAfter.None?) ==>
                  Sum(sleeps) <= LongestWait(maxRetries))
  {
    var n := StopFrom(script, maxRetries, 1);
    StopsAtFirstTerminal(script, maxRetries, 1);
    SleepsAreBounded(script, draw, maxRetries, n);
    OneInvalidation(script, maxRetries, n);
    if forall j :: 1 <= j < n && script(j).Busy? ==> script(j).retryAfter.None? {
      TotalWithinCaps(script, draw, maxRetries, n);
      CapsInTotal(maxRetries);
    }
  }

  /** The attempt bound is reached: a vendor that is never available is asked exactly `maxRetries + 1` times. */
  lemma {:induction false} UnreachableVendor(script: Script, maxRetries: nat, k: nat)
    requires 1 <= k <= maxRetries + 1 && forall j :: script(j) == Unreachable || script(j).Busy?
    ensures StopFrom(script, maxRetries, k) == maxRetries + 1
    decreases maxRetries + 1 - k
  {
    if k <= maxRetries {
      UnreachableVendor(script, maxRetries, k + 1);
    }
  }

  /** Even without retries, one revoked token is survived. */
  lemma RevokedTokenIsRetried(script: Script, maxRetries: nat)
    requires script(1) == Unauthorised && script(2) == Success
    ensures StopFrom(script, maxRetries, 1) == 2
  {
    assert StopFrom(script, maxRetries, 2) == 2;
  }

  /**
   A vendor that is busy or unreachable at most `maxRetries` times is asked again each time; success, any other error
   and a failing token manager then end the call at once.
   */
  lemma {:induction false} RecoversAfter(script: Script, maxRetries: nat, k: nat, n: nat)
    requires 1 <= k <= n + 1 && n <= maxRetries
    requires forall j :: k <= j <= n ==> script(j).Busy? || script(j).Unreachable?
    requires script(n + 1) == Success || script(n + 1) == Fatal || script(n + 1) == NoToken
    ensures StopFrom(script, maxRetries, k) == n + 1
    decreases n + 1 - k
  {
    if k <= n {
      RecoversAfter(script, maxRetries, k + 1, n);
    }
  }

  /** A second 401 in a row is final, and so is one after any retry. */
  lemma LaterUnauthorisedIsFinal(script: Script, maxRetries: nat)
    requires script(1) == Unauthorised || (maxRetries >= 1 && (script(1).Busy? || script(1).Unreachable?))
    requires script(2) == Unauthorised
    ensures StopFrom(script, maxRetries, 1) == 2
  {
    assert StopFrom(script, maxRetries, 2) == 2;
  }

  /** A vendor that asks for `seconds[j]` before each retry is given them, but at most ten and at least none. */
  lemma {:induction false} RetryAfterIsSlept(script: Script, draw: nat -> real, seconds: seq<real>)
    requires forall j :: 1 <= j <= |seconds| ==> script(j) == Busy(Some(seconds[j - 1]))
    ensures var sleeps := SleepsBefore(script, draw, |seconds| + 1);
            && |sleeps| == |seconds|
            && (forall j :: 0 <= j < |seconds| ==>
                  && (0.0 <= seconds[j] <= 10.0 ==> sleeps[j] == seconds[j])
                  && (seconds[j] > 10.0 ==> sleeps[j] == 10.0)
                  && (seconds[j] < 0.0 ==> sleeps[j] == 0.0))
  {
    if seconds != [] {
      RetryAfterIsSlept(script, draw, seconds[..|seconds| - 1]);
    }
  }

  /** Without Retry-After the drawn back-off is slept. */
  lemma {:induction false} DrawIsSlept(script: Script, draw: nat -> real, n: nat)
    requires forall j :: 1 <= j <= n ==> script(j) == Busy(None) || script(j) == Unreachable
    ensures var sleeps := SleepsBefore(script, draw, n + 1);
            |sleeps| == n && forall j :: 0 <= j < n ==> sleeps[j] == draw(j + 1)
  {
    if n > 0 {
      DrawIsSlept(script, draw, n - 1);
    }
  }
}
