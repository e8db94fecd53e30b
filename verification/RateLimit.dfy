/** The fixed-window rate limiter, packages/redis/src/rateLimit.ts. */
module RateLimit {
  import opened Arithmetic
  import opened Options
  import opened Redis

  /** The counter after calls at these times. */
  function State(times: seq<int>, ttl: int): Option<Counter> {
    if times == [] then None
    else Some(Hit(State(times[..|times| - 1], ttl), times[|times| - 1], ttl))
  }

  /** Whether the last of these calls is allowed. */
  predicate LastAllowed(times: seq<int>, limit: int, ttl: int)
    requires times != []
  {
    State(times, ttl).value.count <= limit
  }

  /** How many of the calls in the half-open interval of length `ttl` from `a` are allowed. */
  function AllowedFrom(times: seq<int>, limit: int, ttl: int, a: int): nat {
    if times == [] then 0
    else
      var last := times[|times| - 1];
      AllowedFrom(times[..|times| - 1], limit, ttl, a)
      + if a <= last < a + ttl && LastAllowed(times, limit, ttl) then 1 else 0
  }

  ghost predicate Monotone(times: seq<int>) {
    forall i, j :: 0 <= i < j < |times| ==> times[i] <= times[j]
  }

  /** What is known of the calls allowed in the interval so far, given the window the last call fell in. A window
      that began before the interval has spent its first call outside it; one that began inside it
      follows at most one such window. */
  ghost predicate Tally(times: seq<int>, limit: int, ttl: int, a: int) {
    var n := AllowedFrom(times, limit, ttl, a);
    times != [] ==>
      var c, last := State(times, ttl).value, times[|times| - 1];
      var begin := c.expiry - ttl;
      && c.count >= 1 && begin <= last
      && (last < a ==> n == 0)
      && (a <= last < a + ttl ==>
           n <= if begin < a then Min(c.count, limit) - 1 else limit - 1 + Min(c.count, limit))
      && n <= 2 * limit - 1
  }

  lemma {:induction false} TallyHolds(times: seq<int>, limit: int, ttl: int, a: int)
    requires Monotone(times) && limit >= 1
    ensures Tally(times, limit, ttl, a)
  {
    if times != [] {
      TallyHolds(times[..|times| - 1], limit, ttl, a);
    }
  }

  /** Main result: any half-open interval as long as the window holds at most 2 * limit - 1 allowed calls. */
  lemma AtMostTwoWindowsLessOne(times: seq<int>, limit: int, ttl: int, a: int)
    requires Monotone(times) && limit >= 1
    ensures AllowedFrom(times, limit, ttl, a) <= 2 * limit - 1
  {
    TallyHolds(times, limit, ttl, a);
  }

  /** How many of the calls fall into the half-open interval of length `ttl` that ends with `now`. */
  function CallsWithin(times: seq<int>, ttl: int, now: int): nat {
    if times == [] then 0
    else
      var last := times[|times| - 1];
      CallsWithin(times[..|times| - 1], ttl, now) + if now - ttl < last then 1 else 0
  }

  lemma {:induction false} WindowHasBegun(times: seq<int>, ttl: int)
    requires Monotone(times) && times != []
    ensures State(times, ttl).value.expiry - ttl <= times[|times| - 1]
  {
    if |times| > 1 { WindowHasBegun(times[..|times| - 1], ttl); }
  }

  lemma {:induction false} CounterCountsRecent(times: seq<int>, ttl: int, now: int)
    requires Monotone(times) && times != [] && times[|times| - 1] <= now && now < State(times, ttl).value.expiry
    ensures State(times, ttl).value.count <= CallsWithin(times, ttl, now)
  {
    var before := times[..|times| - 1];
    WindowHasBegun(times, ttl);
    if before != [] && times[|times| - 1] < State(before, ttl).value.expiry {
      CounterCountsRecent(before, ttl, now);
    }
  }

  /** Main result: a call is never refused while no more than `limit` calls, this one included, were made within the last
      `ttl`. */
  lemma FewCallsAreAllowed(times: seq<int>, limit: int, ttl: int)
    requires Monotone(times) && times != [] && ttl >= 1
    requires CallsWithin(times, ttl, times[|times| - 1]) <= limit
    ensures LastAllowed(times, limit, ttl)
  {
    StillCounting(times, ttl);
    CounterCountsRecent(times, ttl, times[|times| - 1]);
  }

  lemma StillCounting(times: seq<int>, ttl: int)
    requires times != [] && ttl >= 1
    ensures times[|times| - 1] < State(times, ttl).value.expiry
  {
  }

  function Copies(t: int, n: nat): seq<int> {
    seq(n, _ => t)
  }

  lemma {:induction false} SameInstant(times: seq<int>, t: int, n: nat, limit: int, ttl: int, a: int)
    requires times != [] && a <= t < a + ttl
    requires t < State(times, ttl).value.expiry && State(times, ttl).value.count + n <= limit
    ensures State(times + Copies(t, n), ttl) == Some(State(times, ttl).value.(count := State(times, ttl).value.count + n))
    ensures AllowedFrom(times + Copies(t, n), limit, ttl, a) == AllowedFrom(times, limit, ttl, a) + n
  {
    var more := times + Copies(t, n);
    if n == 0 {
      assert more == times;
    } else {
      SameInstant(times, t, n - 1, limit, ttl, a);
      assert more[..|more| - 1] == times + Copies(t, n - 1);
    }
  }

  /** The bound is tight: a call, limit - 1 more just inside the interval, and limit as the next window opens. */
  lemma BoundIsAttained(limit: int, ttl: int) returns (times: seq<int>)
    requires limit >= 1 && ttl >= 2
    ensures Monotone(times) && AllowedFrom(times, limit, ttl, 1) == 2 * limit - 1
  {
    var first := [0];
    assert first[..0] == [];
    SameInstant(first, 1, limit - 1, limit, ttl, 1);
    var window := first + Copies(1, limit - 1);
    var next := window + [ttl];
    assert next[..|window|] == window;
    SameInstant(next, ttl, limit - 1, limit, ttl, 1);
    times := next + Copies(ttl, limit - 1);
  }

  /** The calls are numbered by their times; `redis` holds the counter of one key. */
  method CheckRateLimit(redis: Client, key: string, limit: int, ttl: int, now: int, ghost earlier: seq<int>)
    returns (allowed: bool, remaining: int)
    requires HoldsCounter(redis.entries, key) && CounterAt(redis.entries, key) == State(earlier, ttl)
    modifies redis
    ensures HoldsCounter(redis.entries, key) && CounterAt(redis.entries, key) == State(earlier + [now], ttl)
    ensures allowed <==> LastAllowed(earlier + [now], limit, ttl)
    ensures remaining >= 0 && (remaining > 0 ==> allowed)
    ensures allowed ==> CounterAt(redis.entries, key).value.count + remaining == limit
    ensures redis.entries - {key} == old(redis.entries) - {key}
  {
    var current := redis.HitCounter(key, ttl, now);
    assert (earlier + [now])[..|earlier|] == earlier;
    allowed := current <= limit;
    remaining := if limit - current > 0 then limit - current else 0;
  }

  /** `getRemainingAttempts` agrees with what `checkRateLimit` has left. */
  method GetRemainingAttempts(redis: Client, key: string, limit: int, now: int) returns (remaining: int)
    requires HoldsCounter(redis.entries, key)
    ensures var used := if Running(CounterAt(redis.entries, key), now)
                        then CounterAt(redis.entries, key).value.count else 0;
            remaining == if limit > used then limit - used else 0
  {
    var current := redis.Get(key, now);
    var count := if current.Some? && current.value.Number? then current.value.n else 0;
    remaining := if limit - count > 0 then limit - count else 0;
  }
}
