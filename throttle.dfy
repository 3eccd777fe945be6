/**
 * The `throttle:N,1` route middleware: Laravel's rate limiter keeps, per request
 * signature, a hit counter and a timer that both expire one minute after the first hit
 * of a window. A request whose signature already has N live hits is refused with 429;
 * any other request counts one hit and goes on, and its response carries the limit and
 * the attempts left.
 */
module Throttle {
  import opened Text
  import opened Http

  /** `throttle:N,1`: the window lasts one minute. */
  const DecaySeconds := 60
  const TooManyMessage := "Too Many Attempts."

  /** A signature's counter and the instant its timer expires. */
  datatype Window = Window(hits: nat, resetAt: Time)

  type Windows = map<string, Window>

  /** The cache still holds the signature's timer: its window has not expired. */
  predicate Live(w: Windows, key: string, now: Time) {
    key in w && now < w[key].resetAt
  }

  /** `attempts($key)`: the live counter, 0 once the window expired. */
  function Attempts(w: Windows, key: string, now: Time): (n: nat)
    ensures !Live(w, key, now) ==> n == 0
  {
    if Live(w, key, now) then w[key].hits else 0
  }

  /**
   * `tooManyAttempts($key, $max)`: the counter has reached the maximum while the timer
   * is still there (a counter without a timer is reset instead).
   */
  predicate TooMany(w: Windows, key: string, max: nat, now: Time) {
    Attempts(w, key, now) >= max && Live(w, key, now)
  }

  /**
   * `hit($key, 60)`: a live window counts one more; otherwise a new window of one hit
   * starts now and ends a minute later.
   */
  function Hit(w: Windows, key: string, now: Time): (r: Windows)
    ensures Live(r, key, now) && Attempts(r, key, now) == Attempts(w, key, now) + 1
    ensures r[key].resetAt == if Live(w, key, now) then w[key].resetAt else now + DecaySeconds
    ensures r.Keys == w.Keys + {key}
    ensures forall k :: k in w && k != key ==> r[k] == w[k]
  {
    if Live(w, key, now) then w[key := w[key].(hits := w[key].hits + 1)]
    else w[key := Window(1, now + DecaySeconds)]
  }

  /** `availableIn($key)`: the seconds until the timer expires, never negative. */
  function AvailableIn(w: Windows, key: string, now: Time): (s: nat)
    ensures Live(w, key, now) <==> s > 0
  {
    if key in w && w[key].resetAt > now then w[key].resetAt - now else 0
  }

  /**
   * The limiter's key for a request: the client address. How the framework derives its
   * cache key is not part of this model; keying by address is an assumption.
   */
  function Signature(r: Request): string {
    r.ip
  }

  /** One pass through the middleware: whether the request goes on, and the new windows. */
  function Step(w: Windows, key: string, max: nat, now: Time): (r: (bool, Windows))
    ensures r.0 <==> !TooMany(w, key, max, now)
    ensures r.0 ==> r.1 == Hit(w, key, now)
    ensures !r.0 ==> r.1 == w
  {
    if TooMany(w, key, max, now) then (false, w) else (true, Hit(w, key, now))
  }

  /** A refused attempt changes nothing, so every later attempt in the window is refused too. */
  lemma RefusalIsStable(w: Windows, key: string, max: nat, now: Time, later: Time)
    requires !Step(w, key, max, now).0
    requires now <= later < w[key].resetAt
    ensures !Step(Step(w, key, max, now).1, key, max, later).0
  {
  }

  /** Attempts under another signature neither see nor change this one's counter. */
  lemma OtherSignaturesUnaffected(w: Windows, key: string, other: string, max: nat, now: Time, t: Time)
    requires other != key
    ensures Attempts(Step(w, key, max, now).1, other, t) == Attempts(w, other, t)
    ensures TooMany(Step(w, key, max, now).1, other, max, t) == TooMany(w, other, max, t)
  {
  }

  /** Attempts at the instants `times` under one signature: the verdicts and the final windows. */
  function Run(w: Windows, key: string, max: nat, times: seq<Time>): (r: (seq<bool>, Windows))
    ensures |r.0| == |times|
    decreases |times|
  {
    if times == [] then ([], w)
    else
      var first := Step(w, key, max, times[0]);
      var rest := Run(first.1, key, max, times[1..]);
      ([first.0] + rest.0, rest.1)
  }

  /**
   * Inside a live window that already holds `h <= max` hits, attempt `i` goes on exactly
   * when `h + i < max`.
   */
  lemma {:induction false} RunInWindow(w: Windows, key: string, max: nat, times: seq<Time>, h: nat, end: Time)
    requires key in w && w[key].resetAt == end && w[key].hits == h && h <= max
    requires forall i :: 0 <= i < |times| ==> times[i] < end
    ensures forall i :: 0 <= i < |times| ==> Run(w, key, max, times).0[i] == (h + i < max)
    decreases |times|
  {
    if times != [] {
      var first := Step(w, key, max, times[0]);
      var w1 := first.1;
      assert Live(w, key, times[0]);
      if first.0 {
        assert w1[key].hits == h + 1 && w1[key].resetAt == end;
        RunInWindow(w1, key, max, times[1..], h + 1, end);
      } else {
        RunInWindow(w1, key, max, times[1..], h, end);
      }
      forall i | 0 <= i < |times|
        ensures Run(w, key, max, times).0[i] == (h + i < max)
      {
        if i > 0 {
          assert Run(w, key, max, times).0[i] == Run(w1, key, max, times[1..]).0[i - 1];
        }
      }
    }
  }

  /**
   * A burst that starts a fresh window and stays inside its minute: exactly the first
   * `max` attempts go on (the 31st subscribe or the 11th unsubscribe is refused).
   */
  lemma BurstAllowsExactlyMax(w: Windows, key: string, max: nat, times: seq<Time>)
    requires 0 < max && times != []
    requires !Live(w, key, times[0])
    requires forall i :: 0 <= i < |times| ==> times[i] < times[0] + DecaySeconds
    ensures forall i :: 0 <= i < |times| ==> Run(w, key, max, times).0[i] == (i < max)
  {
    var w1 := Step(w, key, max, times[0]).1;
    RunInWindow(w1, key, max, times[1..], 1, times[0] + DecaySeconds);
    forall i | 0 <= i < |times|
      ensures Run(w, key, max, times).0[i] == (i < max)
    {
      if i > 0 {
        assert Run(w, key, max, times).0[i] == Run(w1, key, max, times[1..]).0[i - 1];
      }
    }
  }

  /** A window that has expired is forgotten: the next attempt goes on and starts a new window. */
  lemma ExpiredWindowRestarts(w: Windows, key: string, max: nat, now: Time)
    requires 0 < max && key in w && w[key].resetAt <= now
    ensures Step(w, key, max, now) == (true, w[key := Window(1, now + DecaySeconds)])
  {
  }

  /**
   * The headers `addHeaders` puts on a response that went through, each replacing any
   * value: the limit and the attempts left.
   */
  function LimitHeaders(max: nat, remaining: nat): Headers {
    map[RateLimitLimit := [NatText(max)], RateLimitRemaining := [NatText(remaining)]]
  }

  /**
   * The headers of the 429 answer the refusal renders to: the limit, no attempts left,
   * the seconds to wait and the instant the window ends.
   */
  function RefusalHeaders(max: nat, retryAfter: nat, now: Time): Headers {
    map[RateLimitLimit := [NatText(max)], RateLimitRemaining := [NatText(0)],
        RetryAfter := [NatText(retryAfter)], RateLimitReset := [IntText(now + retryAfter)]]
  }

  const TooManyReply := Reply(429, Message(TooManyMessage))

  /** The limiter's store: the cache entries of every signature. */
  class RateLimiter {
    var windows: Windows

    constructor ()
      ensures windows == map[]
    {
      windows := map[];
    }

    /**
     * `tooManyAttempts` then `hit`: whether the request goes on, and, when it does, the
     * attempts left after its hit.
     */
    method Attempt(key: string, max: nat, now: Time) returns (allowed: bool, remaining: int)
      modifies this
      ensures allowed <==> !TooMany(old(windows), key, max, now)
      ensures windows == Step(old(windows), key, max, now).1
      ensures allowed ==> remaining == max - Attempts(windows, key, now)
      ensures allowed && 0 < max ==> 0 <= remaining < max
    {
      if TooMany(windows, key, max, now) {
        return false, 0;
      }
      windows := Hit(windows, key, now);
      remaining := max - Attempts(windows, key, now);
      allowed := true;
    }
  }
}
