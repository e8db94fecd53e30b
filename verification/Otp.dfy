/** The OTP lockout machine: packages/redis/src/otp.ts as driven by
    apps/auth-service/src/services/login.service.ts. One (scope, identifier); requests and verifications are
    atomic. Times are in seconds.
  */
module Otp {
  import opened Arithmetic
  import opened Options
  import opened Redis

  // RedisTTL, packages/redis/src/keys.ts
  const LOCK_TTL := 1800
  const SPAM_LOCK_TTL := 1800
  const COOLDOWN_TTL := 60
  const LOGIN_OTP_TTL := 300
  const REQUEST_WINDOW := 600
  const FAILURE_WINDOW := 600

  /** The five keys of one (scope, identifier); the locks by the time they expire. */
  datatype Tracking = Tracking(
    failures: Option<Counter>,
    requests: Option<Counter>,
    lock: Option<int>,
    spamLock: Option<int>,
    cooldown: Option<int>)

  const UNTRACKED := Tracking(None, None, None, None, None)

  predicate Set(expiry: Option<int>, now: int) {
    expiry.Some? && now < expiry.value
  }

  datatype Event =
    | Request(now: int)
    | Verify(now: int, pending: bool, correct: bool)   // is a login OTP pending, is the given one right

  datatype Reply =
    | Locked | SpamLocked | CoolingDown | Granted      // replies to a request
    | NoOtpPending | Accepted | Wrong(remaining: int) | AttemptsExceeded

  function TrackRequest(s: Tracking, now: int, maxRequests: int): Tracking {
    var c := Hit(s.requests, now, REQUEST_WINDOW);
    if c.count > maxRequests then s.(requests := Some(c), spamLock := Some(now + SPAM_LOCK_TTL))
    else s.(requests := Some(c), cooldown := Some(now + COOLDOWN_TTL))
  }

  function TrackFailure(s: Tracking, now: int, maxAttempts: int): Tracking {
    var c := Hit(s.failures, now, FAILURE_WINDOW);
    s.(failures := Some(c), lock := if c.count >= maxAttempts then Some(now + LOCK_TTL) else s.lock)
  }

  function Next(s: Tracking, e: Event, maxRequests: int, maxAttempts: int): (Tracking, Reply) {
    match e
    case Request(now) =>
      if Set(s.lock, now) then (s, Locked)
      else if Set(s.spamLock, now) then (s, SpamLocked)
      else if Set(s.cooldown, now) then (s, CoolingDown)
      else
        var s' := TrackRequest(s, now, maxRequests);
        (s', if s'.requests.value.count > maxRequests then SpamLocked else Granted)
    case Verify(now, pending, correct) =>
      if Set(s.lock, now) then (s, Locked)
      else if !pending then (s, NoOtpPending)
      else if correct then (UNTRACKED, Accepted)
      else
        var s' := TrackFailure(s, now, maxAttempts);
        var attempts := s'.failures.value.count;
        (s', if attempts >= maxAttempts then AttemptsExceeded else Wrong(maxAttempts - attempts))
  }

  function Run(events: seq<Event>, maxRequests: int, maxAttempts: int): Tracking {
    if events == [] then UNTRACKED
    else Next(Run(events[..|events| - 1], maxRequests, maxAttempts), events[|events| - 1], maxRequests, maxAttempts).0
  }

  function ReplyAt(events: seq<Event>, i: nat, maxRequests: int, maxAttempts: int): Reply
    requires i < |events|
  {
    Next(Run(events[..i], maxRequests, maxAttempts), events[i], maxRequests, maxAttempts).1
  }

  ghost predicate Monotone(events: seq<Event>) {
    forall i, j :: 0 <= i < j < |events| ==> events[i].now <= events[j].now
  }

  predicate Failed(r: Reply) {
    r.Wrong? || r.AttemptsExceeded?
  }

  // ---------------------------------------------------------------------------------------------
  // The lock
  // ---------------------------------------------------------------------------------------------

  lemma RunOneMore(events: seq<Event>, i: nat, maxRequests: int, maxAttempts: int)
    requires i < |events|
    ensures Run(events[..i + 1], maxRequests, maxAttempts)
         == Next(Run(events[..i], maxRequests, maxAttempts), events[i], maxRequests, maxAttempts).0
  {
    assert events[..i + 1][..i] == events[..i];
  }

  lemma LockStays(s: Tracking, e: Event, until: int, maxRequests: int, maxAttempts: int)
    requires s.lock == Some(until) && e.now < until
    ensures Next(s, e, maxRequests, maxAttempts).0.lock == s.lock
    ensures Next(s, e, maxRequests, maxAttempts).0.failures == s.failures
  {
  }

  lemma LockBegins(s: Tracking, e: Event, last: int, maxRequests: int, maxAttempts: int)
    requires Next(s, e, maxRequests, maxAttempts).1 == AttemptsExceeded && last <= e.now
    requires s.failures.Some? ==> s.failures.value.expiry <= last + FAILURE_WINDOW
    ensures var s' := Next(s, e, maxRequests, maxAttempts).0;
            && s'.lock == Some(e.now + LOCK_TTL)
            && s'.failures.Some? && s'.failures.value.expiry <= e.now + FAILURE_WINDOW
  {
  }

  /** The failure counter is gone at least twenty minutes before the lock. */
  lemma {:induction false} LockHolds(events: seq<Event>, i: nat, j: nat, maxRequests: int, maxAttempts: int)
    requires i < j <= |events| && Monotone(events)
    requires ReplyAt(events, i, maxRequests, maxAttempts) == AttemptsExceeded
    requires forall k :: i < k < j ==> events[k].now < events[i].now + LOCK_TTL
    ensures var s := Run(events[..j], maxRequests, maxAttempts);
            && s.lock == Some(events[i].now + LOCK_TTL)
            && s.failures.Some? && s.failures.value.expiry <= events[i].now + FAILURE_WINDOW
    decreases j
  {
    var last := j - 1;
    var before := Run(events[..last], maxRequests, maxAttempts);
    RunOneMore(events, last, maxRequests, maxAttempts);
    if i < last {
      LockHolds(events, i, last, maxRequests, maxAttempts);
      LockStays(before, events[last], events[i].now + LOCK_TTL, maxRequests, maxAttempts);
    } else {
      CountersEndInTime(events, i, maxRequests, maxAttempts);
      LockBegins(before, events[i], if i > 0 then events[i - 1].now else events[i].now, maxRequests, maxAttempts);
    }
  }

  lemma {:induction false} CountersEndInTime(events: seq<Event>, i: nat, maxRequests: int, maxAttempts: int)
    requires i <= |events| && Monotone(events)
    ensures var s := Run(events[..i], maxRequests, maxAttempts);
            s.failures.Some? ==> i > 0 && s.failures.value.expiry <= events[i - 1].now + FAILURE_WINDOW
    decreases i
  {
    if i > 0 {
      RunOneMore(events, i - 1, maxRequests, maxAttempts);
      CountersEndInTime(events, i - 1, maxRequests, maxAttempts);
    }
  }

  /** Main result: the attempt that exceeds the limit locks out every request and every comparison for thirty
      minutes, nothing clears the lock early, and when it ends counting starts at zero. */
  lemma LockoutLastsThirtyMinutes(events: seq<Event>, i: nat, j: nat, maxRequests: int, maxAttempts: int)
    requires i < j < |events| && Monotone(events)
    requires ReplyAt(events, i, maxRequests, maxAttempts) == AttemptsExceeded
    requires forall k :: i < k < j ==> events[k].now < events[i].now + 1800
    ensures var s := Run(events[..j], maxRequests, maxAttempts);
            && (ReplyAt(events, j, maxRequests, maxAttempts) == Locked <==> events[j].now < events[i].now + 1800)
            && (events[j].now >= events[i].now + 1800 ==> !Running(s.failures, events[j].now))
  {
    LockHolds(events, i, j, maxRequests, maxAttempts);
  }

  // ---------------------------------------------------------------------------------------------
  // The spam lock
  // ---------------------------------------------------------------------------------------------

  /** Request `i` is one too many: it is refused although no spam lock was set. */
  ghost predicate IsOneTooMany(events: seq<Event>, i: nat, maxRequests: int, maxAttempts: int)
    requires i < |events|
  {
    && events[i].Request? && ReplyAt(events, i, maxRequests, maxAttempts) == SpamLocked
    && !Set(Run(events[..i], maxRequests, maxAttempts).spamLock, events[i].now)
  }

  /** What a spam lock until this time keeps: nothing else about requests outlives its first ten minutes. */
  ghost predicate Spammed(s: Tracking, since: int) {
    && s.spamLock == Some(since + 1800)
    && (s.requests.Some? ==> s.requests.value.expiry <= since + 600)
    && (s.cooldown.Some? ==> s.cooldown.value <= since + 60)
  }

  ghost predicate RequestsEndInTime(s: Tracking, last: int) {
    && (s.requests.Some? ==> s.requests.value.expiry <= last + 600)
    && (s.cooldown.Some? ==> s.cooldown.value <= last + 60)
  }

  lemma {:induction false} RequestCountersEnd(events: seq<Event>, i: nat, now: int, maxRequests: int, maxAttempts: int)
    requires i <= |events| && Monotone(events) && (i > 0 ==> events[i - 1].now <= now)
    ensures RequestsEndInTime(Run(events[..i], maxRequests, maxAttempts), now)
    decreases i
  {
    if i > 0 {
      RunOneMore(events, i - 1, maxRequests, maxAttempts);
      RequestCountersEnd(events, i - 1, events[i - 1].now, maxRequests, maxAttempts);
    }
  }

  lemma SpamLockBegins(s: Tracking, e: Event, maxRequests: int, maxAttempts: int)
    requires e.Request? && RequestsEndInTime(s, e.now) && !Set(s.spamLock, e.now)
    requires Next(s, e, maxRequests, maxAttempts).1 == SpamLocked
    ensures Spammed(Next(s, e, maxRequests, maxAttempts).0, e.now)
  {
  }

  lemma SpamLockStays(s: Tracking, e: Event, since: int, maxRequests: int, maxAttempts: int)
    requires Spammed(s, since) && e.now < since + 1800 && Next(s, e, maxRequests, maxAttempts).1 != Accepted
    ensures Spammed(Next(s, e, maxRequests, maxAttempts).0, since)
  {
  }

  lemma {:induction false} SpamLockHolds(events: seq<Event>, i: nat, j: nat, maxRequests: int, maxAttempts: int)
    requires i < j <= |events| && Monotone(events) && IsOneTooMany(events, i, maxRequests, maxAttempts)
    requires forall k :: i < k < j ==> events[k].now < events[i].now + 1800
    requires forall k :: i < k < j ==> ReplyAt(events, k, maxRequests, maxAttempts) != Accepted
    ensures Spammed(Run(events[..j], maxRequests, maxAttempts), events[i].now)
    decreases j
  {
    var last := j - 1;
    RunOneMore(events, last, maxRequests, maxAttempts);
    if i < last {
      SpamLockHolds(events, i, last, maxRequests, maxAttempts);
      assert ReplyAt(events, last, maxRequests, maxAttempts) != Accepted;
      SpamLockStays(Run(events[..last], maxRequests, maxAttempts), events[last], events[i].now, maxRequests, maxAttempts);
    } else {
      RequestCountersEnd(events, i, events[i].now, maxRequests, maxAttempts);
      SpamLockBegins(Run(events[..i], maxRequests, maxAttempts), events[i], maxRequests, maxAttempts);
    }
  }

  /** Main result: one request too many refuses every request for thirty minutes, unless an OTP is accepted; the first
      one after that is granted again, if any is allowed and there is no lock for wrong guesses. */
  lemma SpamLockLastsThirtyMinutes(events: seq<Event>, i: nat, j: nat, maxRequests: int, maxAttempts: int)
    requires i < j < |events| && Monotone(events) && IsOneTooMany(events, i, maxRequests, maxAttempts)
    requires forall k :: i < k < j ==> events[k].now < events[i].now + 1800
    requires forall k :: i < k < j ==> ReplyAt(events, k, maxRequests, maxAttempts) != Accepted
    requires events[j].Request?
    ensures var r := ReplyAt(events, j, maxRequests, maxAttempts);
            && (events[j].now < events[i].now + 1800 ==> r == Locked || r == SpamLocked)
            && (events[j].now >= events[i].now + 1800 ==> r == Locked || r == if maxRequests >= 1 then Granted else SpamLocked)
  {
    SpamLockHolds(events, i, j, maxRequests, maxAttempts);
  }

  /** Granted requests among the first `n` events in the half-open ten minutes from `a`. */
  function GrantsFrom(events: seq<Event>, n: nat, a: int, maxRequests: int, maxAttempts: int): nat
    requires n <= |events|
  {
    if n == 0 then 0
    else
      GrantsFrom(events, n - 1, a, maxRequests, maxAttempts)
      + if a <= events[n - 1].now < a + 600 && ReplyAt(events, n - 1, maxRequests, maxAttempts) == Granted then 1 else 0
  }

  /** As for the rate limiter: a window that began before the interval has spent its first request outside it. */
  ghost predicate RequestTally(s: Tracking, grants: nat, last: int, a: int, k: nat) {
    && (s.requests.Some? ==>
         var c := s.requests.value;
         var begin := c.expiry - 600;
         && c.count >= 1 && begin <= last
         && (a <= last < a + 600 ==>
              && (begin < a ==> grants <= Min(c.count, k) - 1)
              && (begin >= a ==> grants <= k - 1 + Min(c.count, k))))
    && (last < a || s.requests.None? ==> grants == 0)
    && grants <= 2 * k - 1
  }

  lemma RequestTallyStep(s: Tracking, e: Event, grants: nat, last: int, a: int, maxRequests: int, maxAttempts: int)
    requires maxRequests >= 1 && RequestTally(s, grants, last, a, maxRequests) && last <= e.now < a + 600
    requires a <= e.now ==> Next(s, e, maxRequests, maxAttempts).1 != Accepted
    ensures var (s', r) := Next(s, e, maxRequests, maxAttempts);
            RequestTally(s', grants + (if a <= e.now && r == Granted then 1 else 0), e.now, a, maxRequests)
  {
  }

  lemma {:induction false} RequestTallyHolds(events: seq<Event>, n: nat, a: int, maxRequests: int, maxAttempts: int)
    requires 0 < n <= |events| && Monotone(events) && NoSuccess(events, a, maxRequests, maxAttempts)
    requires events[n - 1].now < a + 600 && maxRequests >= 1
    ensures RequestTally(Run(events[..n], maxRequests, maxAttempts),
                         GrantsFrom(events, n, a, maxRequests, maxAttempts), events[n - 1].now, a, maxRequests)
    decreases n
  {
    RunOneMore(events, n - 1, maxRequests, maxAttempts);
    if n > 1 {
      RequestTallyHolds(events, n - 1, a, maxRequests, maxAttempts);
    }
    RequestTallyStep(Run(events[..n - 1], maxRequests, maxAttempts), events[n - 1],
                     GrantsFrom(events, n - 1, a, maxRequests, maxAttempts),
                     if n > 1 then events[n - 2].now else events[0].now, a, maxRequests, maxAttempts);
  }

  lemma {:induction false} NoGrants(events: seq<Event>, n: nat, a: int, maxRequests: int, maxAttempts: int)
    requires n <= |events| && maxRequests < 1
    ensures GrantsFrom(events, n, a, maxRequests, maxAttempts) == 0
    decreases n
  {
    if n > 0 {
      NoGrants(events, n - 1, a, maxRequests, maxAttempts);
      NoRequestIsGranted(events[..n - 1], maxRequests, maxAttempts);
    }
  }

  lemma {:induction false} SomeGrantsAreBounded(events: seq<Event>, n: nat, a: int, maxRequests: int, maxAttempts: int)
    requires n <= |events| && Monotone(events) && NoSuccess(events, a, maxRequests, maxAttempts) && maxRequests >= 1
    ensures GrantsFrom(events, n, a, maxRequests, maxAttempts) <= 2 * maxRequests - 1
    decreases n
  {
    if n > 0 {
      if events[n - 1].now < a + 600 {
        RequestTallyHolds(events, n, a, maxRequests, maxAttempts);
      } else {
        SomeGrantsAreBounded(events, n - 1, a, maxRequests, maxAttempts);
      }
    }
  }

  /** Main result: unless an OTP is accepted, any half-open ten minutes see at most 2 * maxRequests - 1 OTPs granted. */
  lemma GrantsAreBounded(events: seq<Event>, n: nat, a: int, maxRequests: int, maxAttempts: int)
    requires n <= |events| && Monotone(events) && NoSuccess(events, a, maxRequests, maxAttempts)
    ensures GrantsFrom(events, n, a, maxRequests, maxAttempts) <= if maxRequests >= 1 then 2 * maxRequests - 1 else 0
  {
    if maxRequests >= 1 {
      SomeGrantsAreBounded(events, n, a, maxRequests, maxAttempts);
    } else {
      NoGrants(events, n, a, maxRequests, maxAttempts);
    }
  }

  function Requests(times: seq<int>): seq<Event> {
    seq(|times|, i requires 0 <= i < |times| => Request(times[i]))
  }

  /** At least a minute apart, and all within ten minutes of the first. */
  ghost predicate Unhurried(times: seq<int>) {
    && (forall i :: 0 < i < |times| ==> times[i - 1] + 60 <= times[i])
    && (forall i :: 0 <= i < |times| ==> times[i] < times[0] + 600)
  }

  /** After `n` such requests and nothing else. */
  ghost predicate Requested(s: Tracking, times: seq<int>, n: nat, maxRequests: int)
    requires 0 < n <= |times|
  {
    && s.lock.None? && s.requests.Some? && times[0] <= times[n - 1]
    && (n <= maxRequests ==>
         && s.requests.value == Counter(n, times[0] + 600) && s.spamLock.None?
         && s.cooldown == Some(times[n - 1] + 60))
    && (n > maxRequests ==> s.spamLock.Some? && s.spamLock.value >= times[0] + 1800)
  }

  lemma OneMoreRequested(s: Tracking, times: seq<int>, n: nat, maxRequests: int, maxAttempts: int)
    requires 0 < n < |times| && times[n - 1] + 60 <= times[n] < times[0] + 600 && Requested(s, times, n, maxRequests)
    ensures Requested(Next(s, Request(times[n]), maxRequests, maxAttempts).0, times, n + 1, maxRequests)
  {
  }

  lemma {:induction false} RequestsCount(times: seq<int>, n: nat, maxRequests: int, maxAttempts: int)
    requires Unhurried(times) && 0 < n <= |times|
    ensures Requested(Run(Requests(times)[..n], maxRequests, maxAttempts), times, n, maxRequests)
    decreases n
  {
    RunOneMore(Requests(times), n - 1, maxRequests, maxAttempts);
    if n > 1 {
      RequestsCount(times, n - 1, maxRequests, maxAttempts);
      OneMoreRequested(Run(Requests(times)[..n - 1], maxRequests, maxAttempts), times, n - 1, maxRequests, maxAttempts);
    } else {
      assert Requests(times)[..0] == [];
    }
  }

  /** Main result: of unhurried requests exactly the first maxRequests are granted; the others are refused as spam. */
  lemma FirstRequestsAreGranted(times: seq<int>, k: nat, maxRequests: int, maxAttempts: int)
    requires Unhurried(times) && k < |times|
    ensures ReplyAt(Requests(times), k, maxRequests, maxAttempts) == if k < maxRequests then Granted else SpamLocked
  {
    if k > 0 {
      RequestsCount(times, k, maxRequests, maxAttempts);
      assert times[k - 1] + 60 <= times[k] < times[0] + 600;
    } else {
      assert Requests(times)[..0] == [];
    }
  }

  // ---------------------------------------------------------------------------------------------
  // What a right and a wrong guess do
  // ---------------------------------------------------------------------------------------------

  lemma {:induction false} RunAfresh(before: seq<Event>, after: seq<Event>, maxRequests: int, maxAttempts: int)
    requires Run(before, maxRequests, maxAttempts) == UNTRACKED
    ensures Run(before + after, maxRequests, maxAttempts) == Run(after, maxRequests, maxAttempts)
    decreases |after|
  {
    if after == [] {
      assert before + after == before;
    } else {
      assert (before + after)[..|before + after| - 1] == before + after[..|after| - 1];
      RunAfresh(before, after[..|after| - 1], maxRequests, maxAttempts);
    }
  }

  lemma RepliesAfresh(before: seq<Event>, after: seq<Event>, k: nat, maxRequests: int, maxAttempts: int)
    requires Run(before, maxRequests, maxAttempts) == UNTRACKED && k < |after|
    ensures ReplyAt(before + after, |before| + k, maxRequests, maxAttempts) == ReplyAt(after, k, maxRequests, maxAttempts)
  {
    RunAfresh(before, after[..k], maxRequests, maxAttempts);
    assert (before + after)[..|before| + k] == before + after[..k];
  }

  lemma RightGuess(before: seq<Event>, now: int, maxRequests: int, maxAttempts: int)
    ensures var events := before + [Verify(now, true, true)];
            var locked := Set(Run(before, maxRequests, maxAttempts).lock, now);
            && ReplyAt(events, |before|, maxRequests, maxAttempts) == (if locked then Locked else Accepted)
            && (!locked ==> Run(events, maxRequests, maxAttempts) == UNTRACKED)
  {
    assert (before + [Verify(now, true, true)])[..|before|] == before;
  }

  /** A right guess at a pending OTP is accepted unless there is a lock, and then everything is as at the very
      beginning: whatever comes later is answered as if nothing had happened before. */
  lemma AcceptedStartsAfresh(before: seq<Event>, now: int, after: seq<Event>, k: nat, maxRequests: int, maxAttempts: int)
    requires k < |after|
    ensures var events := before + [Verify(now, true, true)];
            var locked := Set(Run(before, maxRequests, maxAttempts).lock, now);
            && ReplyAt(events, |before|, maxRequests, maxAttempts) == (if locked then Locked else Accepted)
            && (!locked ==>
                 ReplyAt(events + after, |events| + k, maxRequests, maxAttempts)
                 == ReplyAt(after, k, maxRequests, maxAttempts))
  {
    RightGuess(before, now, maxRequests, maxAttempts);
    if !Set(Run(before, maxRequests, maxAttempts).lock, now) {
      RepliesAfresh(before + [Verify(now, true, true)], after, k, maxRequests, maxAttempts);
    }
  }

  /** The event is refused without being counted. */
  predicate IsRefused(s: Tracking, e: Event, r: Reply) {
    r == Locked || r == NoOtpPending || r == CoolingDown || (r == SpamLocked && Set(s.spamLock, e.now))
  }

  /** Refusals leave no trace: what comes later is answered as if they had not happened. */
  lemma {:induction false} RefusalsLeaveNoTrace(before: seq<Event>, e: Event, after: seq<Event>, maxRequests: int, maxAttempts: int)
    requires IsRefused(Run(before, maxRequests, maxAttempts), e,
                       Next(Run(before, maxRequests, maxAttempts), e, maxRequests, maxAttempts).1)
    ensures Run(before + [e] + after, maxRequests, maxAttempts) == Run(before + after, maxRequests, maxAttempts)
    decreases |after|
  {
    var with, without := before + [e] + after, before + after;
    if after == [] {
      assert with[..|before|] == before && without == before;
    } else {
      assert with[..|with| - 1] == before + [e] + after[..|after| - 1];
      assert without[..|without| - 1] == before + after[..|after| - 1];
      RefusalsLeaveNoTrace(before, e, after[..|after| - 1], maxRequests, maxAttempts);
    }
  }

  /** The number of attempts that remain is the truth: a wrong guess at once leaves one less, and the last of them
      locks. */
  lemma RemainingCountsDown(events: seq<Event>, maxRequests: int, maxAttempts: int)
    requires events != [] && ReplyAt(events, |events| - 1, maxRequests, maxAttempts).Wrong?
    ensures var now := events[|events| - 1].now;
            var r := ReplyAt(events, |events| - 1, maxRequests, maxAttempts).remaining;
            && 1 <= r
            && ReplyAt(events + [Verify(now, true, false)], |events|, maxRequests, maxAttempts)
               == if r > 1 then Wrong(r - 1) else AttemptsExceeded
  {
    var now := events[|events| - 1].now;
    assert (events + [Verify(now, true, false)])[..|events|] == events;
    FailuresAreCounted(events[..|events| - 1], maxRequests, maxAttempts);
  }

  lemma {:induction false} FailuresAreCounted(events: seq<Event>, maxRequests: int, maxAttempts: int)
    ensures var s := Run(events, maxRequests, maxAttempts); s.failures.Some? ==> s.failures.value.count >= 1
  {
    if events != [] {
      FailuresAreCounted(events[..|events| - 1], maxRequests, maxAttempts);
    }
  }

  /** The first wrong guess leaves all attempts but one. */
  lemma FirstGuess(now: int, maxRequests: int, maxAttempts: int)
    ensures ReplyAt([Verify(now, true, false)], 0, maxRequests, maxAttempts)
         == if maxAttempts > 1 then Wrong(maxAttempts - 1) else AttemptsExceeded
  {
  }

  // ---------------------------------------------------------------------------------------------
  // How many guesses
  // ---------------------------------------------------------------------------------------------

  /** Failed comparisons among the first `n` events in the half-open ten minutes from `a`. */
  function FailuresFrom(events: seq<Event>, n: nat, a: int, maxRequests: int, maxAttempts: int): nat
    requires n <= |events|
  {
    if n == 0 then 0
    else
      FailuresFrom(events, n - 1, a, maxRequests, maxAttempts)
      + if a <= events[n - 1].now < a + 600 && Failed(ReplyAt(events, n - 1, maxRequests, maxAttempts))
        then 1 else 0
  }

  /** As for the rate limiter, with the lock: a window that used up its attempts inside the interval has
      locked everything beyond it. */
  ghost predicate Tally(s: Tracking, failures: nat, last: int, a: int, k: nat) {
    && (s.failures.Some? ==>
         var c := s.failures.value;
         var begin := c.expiry - FAILURE_WINDOW;
         && 1 <= c.count <= k && begin <= last
         && (c.count == k ==> s.lock.Some? && s.lock.value >= begin + LOCK_TTL)
         && (a <= last < a + FAILURE_WINDOW ==>
              && (begin < a ==> failures <= c.count - 1
                                && (failures > 0 && c.count == k ==> s.lock.value >= a + LOCK_TTL))
              && (begin >= a ==> failures <= c.count + if k >= 2 then k - 2 else 0)))
    && (last < a || s.failures.None? ==> failures == 0)
    && failures <= if k >= 2 then 2 * k - 2 else 1
  }

  /** No OTP was accepted in the ten minutes from `a`. */
  ghost predicate NoSuccess(events: seq<Event>, a: int, maxRequests: int, maxAttempts: int) {
    forall i :: 0 <= i < |events| && a <= events[i].now < a + 600 ==>
      ReplyAt(events, i, maxRequests, maxAttempts) != Accepted
  }

  lemma TallyStep(s: Tracking, e: Event, failures: nat, last: int, a: int, maxRequests: int, maxAttempts: int)
    requires Tally(s, failures, last, a, AtLeastOne(maxAttempts)) && last <= e.now < a + FAILURE_WINDOW
    requires s.failures.None? ==> failures == 0
    requires a <= e.now ==> Next(s, e, maxRequests, maxAttempts).1 != Accepted
    ensures var (s', r) := Next(s, e, maxRequests, maxAttempts);
            Tally(s', failures + (if a <= e.now && Failed(r) then 1 else 0), e.now, a, AtLeastOne(maxAttempts))
  {
  }

  lemma {:induction false} TallyHolds(events: seq<Event>, n: nat, a: int, maxRequests: int, maxAttempts: int)
    requires 0 < n <= |events| && Monotone(events) && NoSuccess(events, a, maxRequests, maxAttempts)
    requires events[n - 1].now < a + FAILURE_WINDOW
    ensures Tally(Run(events[..n], maxRequests, maxAttempts), FailuresFrom(events, n, a, maxRequests, maxAttempts),
                  events[n - 1].now, a, AtLeastOne(maxAttempts))
    decreases n
  {
    RunOneMore(events, n - 1, maxRequests, maxAttempts);
    if n > 1 {
      TallyHolds(events, n - 1, a, maxRequests, maxAttempts);
    }
    TallyStep(Run(events[..n - 1], maxRequests, maxAttempts), events[n - 1],
              FailuresFrom(events, n - 1, a, maxRequests, maxAttempts),
              if n > 1 then events[n - 2].now else events[0].now, a, maxRequests, maxAttempts);
  }

  /** Main result: unless an OTP is accepted, any half-open ten minutes see at most 2 * maxAttempts - 2 wrong
      guesses (one, if a single attempt is allowed). */
  lemma {:induction false} GuessesAreBounded(events: seq<Event>, n: nat, a: int, maxRequests: int, maxAttempts: int)
    requires n <= |events| && Monotone(events) && NoSuccess(events, a, maxRequests, maxAttempts)
    ensures FailuresFrom(events, n, a, maxRequests, maxAttempts)
         <= if maxAttempts >= 2 then 2 * maxAttempts - 2 else 1
    decreases n
  {
    if n > 0 {
      if events[n - 1].now < a + FAILURE_WINDOW {
        TallyHolds(events, n, a, maxRequests, maxAttempts);
      } else {
        GuessesAreBounded(events, n - 1, a, maxRequests, maxAttempts);
      }
    }
  }

  lemma {:induction false} PrefixFailures(events: seq<Event>, e: Event, n: nat, a: int, maxRequests: int, maxAttempts: int)
    requires n <= |events|
    ensures FailuresFrom(events + [e], n, a, maxRequests, maxAttempts)
         == FailuresFrom(events, n, a, maxRequests, maxAttempts)
  {
    if n > 0 {
      PrefixFailures(events, e, n - 1, a, maxRequests, maxAttempts);
      assert (events + [e])[..n - 1] == events[..n - 1];
    }
  }

  /** When the last OTP that was granted and not used up expires. */
  function LiveOtp(events: seq<Event>, maxRequests: int, maxAttempts: int): Option<int> {
    if events == [] then None
    else
      var before, last := events[..|events| - 1], events[|events| - 1];
      match Next(Run(before, maxRequests, maxAttempts), last, maxRequests, maxAttempts).1
      case Granted => Some(last.now + LOGIN_OTP_TTL)
      case Accepted => None
      case AttemptsExceeded => None
      case _ => LiveOtp(before, maxRequests, maxAttempts)
  }

  /** The login service can produce these events: an OTP is pending only while one that was granted is alive. */
  ghost predicate Producible(events: seq<Event>, maxRequests: int, maxAttempts: int) {
    events != [] ==>
      var before, last := events[..|events| - 1], events[|events| - 1];
      && Producible(before, maxRequests, maxAttempts)
      && (last.Verify? && last.pending ==> Set(LiveOtp(before, maxRequests, maxAttempts), last.now))
  }

  /** What a run of requests and wrong guesses has come to: the state, the OTP that is alive, the failures in the
      interval, whether the service can produce the events, and the time. */
  datatype Scene = Scene(state: Tracking, live: Option<int>, failures: nat, producible: bool, now: int)

  function Watch(c: Scene, e: Event, a: int, maxRequests: int, maxAttempts: int): Scene {
    var (s, r) := Next(c.state, e, maxRequests, maxAttempts);
    Scene(s,
          if r.Granted? then Some(e.now + LOGIN_OTP_TTL)
          else if r.Accepted? || r.AttemptsExceeded? then None
          else c.live,
          c.failures + if a <= e.now < a + FAILURE_WINDOW && Failed(r) then 1 else 0,
          c.producible && c.now <= e.now
          && (e.Request? || (e == Verify(e.now, true, false) && Set(c.live, e.now))),
          e.now)
  }

  function SceneAfter(events: seq<Event>, a: int, maxRequests: int, maxAttempts: int): Scene {
    if events == [] then Scene(UNTRACKED, None, 0, true, 0)
    else Watch(SceneAfter(events[..|events| - 1], a, maxRequests, maxAttempts), events[|events| - 1],
               a, maxRequests, maxAttempts)
  }

  lemma SceneOneMore(events: seq<Event>, e: Event, a: int, maxRequests: int, maxAttempts: int)
    ensures SceneAfter(events + [e], a, maxRequests, maxAttempts)
         == Watch(SceneAfter(events, a, maxRequests, maxAttempts), e, a, maxRequests, maxAttempts)
  {
    assert (events + [e])[..|events|] == events;
  }

  lemma {:induction false} SceneTellsState(events: seq<Event>, a: int, maxRequests: int, maxAttempts: int)
    ensures SceneAfter(events, a, maxRequests, maxAttempts).state == Run(events, maxRequests, maxAttempts)
    ensures SceneAfter(events, a, maxRequests, maxAttempts).live == LiveOtp(events, maxRequests, maxAttempts)
    decreases |events|
  {
    if events != [] {
      SceneTellsState(events[..|events| - 1], a, maxRequests, maxAttempts);
    }
  }

  lemma {:induction false} SceneTellsFailures(events: seq<Event>, n: nat, a: int, maxRequests: int, maxAttempts: int)
    requires n <= |events|
    ensures SceneAfter(events[..n], a, maxRequests, maxAttempts).failures
         == FailuresFrom(events, n, a, maxRequests, maxAttempts)
    decreases n
  {
    if n > 0 {
      SceneTellsFailures(events, n - 1, a, maxRequests, maxAttempts);
      SceneTellsState(events[..n - 1], a, maxRequests, maxAttempts);
      assert events[..n][..n - 1] == events[..n - 1];
    }
  }

  lemma {:induction false} ScenesAreProducible(events: seq<Event>, a: int, maxRequests: int, maxAttempts: int)
    requires SceneAfter(events, a, maxRequests, maxAttempts).producible
    ensures Producible(events, maxRequests, maxAttempts)
    decreases |events|
  {
    if events != [] {
      var before := events[..|events| - 1];
      ScenesAreProducible(before, a, maxRequests, maxAttempts);
      SceneTellsState(before, a, maxRequests, maxAttempts);
    }
  }

  predicate OnlyWrongGuesses(events: seq<Event>) {
    forall i :: 0 <= i < |events| ==> events[i].Request? || !events[i].correct
  }

  lemma WrongIsNotAccepted(events: seq<Event>, a: int, maxRequests: int, maxAttempts: int)
    requires OnlyWrongGuesses(events)
    ensures NoSuccess(events, a, maxRequests, maxAttempts)
  {
  }

  lemma {:induction false} ScenesAreInOrder(events: seq<Event>, a: int, maxRequests: int, maxAttempts: int)
    requires SceneAfter(events, a, maxRequests, maxAttempts).producible
    ensures Monotone(events) && OnlyWrongGuesses(events)
    ensures forall i :: 0 <= i < |events| ==> events[i].now <= SceneAfter(events, a, maxRequests, maxAttempts).now
    decreases |events|
  {
    if events != [] {
      var before := events[..|events| - 1];
      ScenesAreInOrder(before, a, maxRequests, maxAttempts);
      assert forall i :: 0 <= i < |before| ==> events[i] == before[i];
    }
  }

  /** Before the first guess of a window, or after `n` wrong ones in one that began at `begin`. */
  ghost predicate Guessed(c: Scene, begin: int, n: nat, maxAttempts: int) {
    && c.producible && begin <= c.now
    && (n == 0 ==> !Running(c.state.failures, begin) && c.now == begin)
    && (n > 0 ==> c.state.failures == Some(Counter(n, begin + FAILURE_WINDOW)))
    && (n == 0 || n < maxAttempts ==> c.state.lock.None? && c.live.Some? && begin + LOGIN_OTP_TTL <= c.live.value)
  }

  predicate SameRequests(s: Tracking, t: Tracking) {
    s.requests == t.requests && s.spamLock == t.spamLock && s.cooldown == t.cooldown
  }

  lemma WrongGuess(c: Scene, begin: int, n: nat, now: int, a: int, maxRequests: int, maxAttempts: int)
    requires Guessed(c, begin, n, maxAttempts) && (n == 0 || n < maxAttempts)
    requires c.now <= now < begin + LOGIN_OTP_TTL && (n == 0 ==> now == begin)
    ensures var c' := Watch(c, Verify(now, true, false), a, maxRequests, maxAttempts);
            && Guessed(c', begin, n + 1, maxAttempts) && SameRequests(c.state, c'.state) && c'.now == now
            && c'.failures == c.failures + if a <= now < a + FAILURE_WINDOW then 1 else 0
  {
  }

  lemma GuessOnce(events: seq<Event>, begin: int, n: nat, now: int, a: int, maxRequests: int, maxAttempts: int)
    returns (once: seq<Event>)
    requires var c := SceneAfter(events, a, maxRequests, maxAttempts);
             Guessed(c, begin, n, maxAttempts) && c.now <= now < begin + LOGIN_OTP_TTL && (n == 0 ==> now == begin)
    requires n == 0 || n < maxAttempts
    ensures var c := SceneAfter(events, a, maxRequests, maxAttempts);
            var c' := SceneAfter(once, a, maxRequests, maxAttempts);
            && Guessed(c', begin, n + 1, maxAttempts) && SameRequests(c.state, c'.state) && c'.now == now
            && c'.failures == c.failures + if a <= now < a + 600 then 1 else 0
  {
    WrongGuess(SceneAfter(events, a, maxRequests, maxAttempts), begin, n, now, a, maxRequests, maxAttempts);
    SceneOneMore(events, Verify(now, true, false), a, maxRequests, maxAttempts);
    once := events + [Verify(now, true, false)];
  }

  /** `more` wrong guesses at the same instant. */
  lemma {:induction false} KeepGuessing(events: seq<Event>, begin: int, n: nat, now: int, more: nat, a: int,
                                        maxRequests: int, maxAttempts: int)
    returns (guesses: seq<Event>)
    requires var c := SceneAfter(events, a, maxRequests, maxAttempts);
             Guessed(c, begin, n, maxAttempts) && c.now <= now < begin + LOGIN_OTP_TTL && (n == 0 ==> now == begin)
    requires n + more <= maxAttempts
    ensures var c := SceneAfter(events, a, maxRequests, maxAttempts);
            var c' := SceneAfter(guesses, a, maxRequests, maxAttempts);
            && Guessed(c', begin, n + more, maxAttempts) && SameRequests(c.state, c'.state) && c'.now <= now
            && c'.failures == c.failures + if a <= now < a + 600 then more else 0
    decreases more
  {
    guesses := events;
    if more > 0 {
      var once := GuessOnce(events, begin, n, now, a, maxRequests, maxAttempts);
      guesses := KeepGuessing(once, begin, n + 1, now, more - 1, a, maxRequests, maxAttempts);
    }
  }

  /** A request that is granted before the first guess of a window. */
  lemma GrantedRequest(c: Scene, now: int, a: int, maxRequests: int, maxAttempts: int)
    requires c.producible && c.now <= now && maxRequests >= 1
    requires c.state.lock.None? && c.state.spamLock.None? && !Set(c.state.cooldown, now)
    requires !Running(c.state.requests, now) && !Running(c.state.failures, now)
    ensures var c' := Watch(c, Request(now), a, maxRequests, maxAttempts);
            && Guessed(c', now, 0, maxAttempts) && c'.failures == c.failures && c'.state.spamLock.None?
            && c'.state.requests == Some(Counter(1, now + REQUEST_WINDOW))
            && c'.state.cooldown == Some(now + COOLDOWN_TTL)
  {
  }

  /** A request and all guesses but one of a window, one of them before the interval. */
  lemma FirstWindow(maxRequests: int, maxAttempts: int) returns (events: seq<Event>)
    requires maxRequests >= 1 && maxAttempts >= 2
    ensures var c := SceneAfter(events, 1, maxRequests, maxAttempts);
            && Guessed(c, 0, maxAttempts - 1, maxAttempts) && c.failures == maxAttempts - 2 && c.now <= 1
            && c.state.spamLock.None? && c.state.requests == Some(Counter(1, REQUEST_WINDOW))
            && c.state.cooldown == Some(COOLDOWN_TTL)
  {
    GrantedRequest(SceneAfter([], 1, maxRequests, maxAttempts), 0, 1, maxRequests, maxAttempts);
    SceneOneMore([], Request(0), 1, maxRequests, maxAttempts);
    var once := KeepGuessing([] + [Request(0)], 0, 0, 0, 1, 1, maxRequests, maxAttempts);
    events := KeepGuessing(once, 0, 1, 1, maxAttempts - 2, 1, maxRequests, maxAttempts);
  }

  /** As the next window opens, a request and all its guesses. */
  lemma TwoWindows(maxRequests: int, maxAttempts: int) returns (events: seq<Event>)
    requires maxRequests >= 1 && maxAttempts >= 2
    ensures var c := SceneAfter(events, 1, maxRequests, maxAttempts); c.producible && c.failures == 2 * maxAttempts - 2
  {
    var first := FirstWindow(maxRequests, maxAttempts);
    GrantedRequest(SceneAfter(first, 1, maxRequests, maxAttempts), FAILURE_WINDOW, 1, maxRequests, maxAttempts);
    SceneOneMore(first, Request(FAILURE_WINDOW), 1, maxRequests, maxAttempts);
    events := KeepGuessing(first + [Request(FAILURE_WINDOW)], FAILURE_WINDOW, 0, FAILURE_WINDOW, maxAttempts, 1,
                           maxRequests, maxAttempts);
  }

  lemma SingleGuess(maxRequests: int, maxAttempts: int) returns (events: seq<Event>)
    requires maxRequests >= 1
    ensures var c := SceneAfter(events, 1, maxRequests, maxAttempts); c.producible && c.failures == 1
  {
    GrantedRequest(SceneAfter([], 1, maxRequests, maxAttempts), 1, 1, maxRequests, maxAttempts);
    SceneOneMore([], Request(1), 1, maxRequests, maxAttempts);
    var asked := [] + [Request(1)];
    WrongGuess(SceneAfter(asked, 1, maxRequests, maxAttempts), 1, 0, 1, 1, maxRequests, maxAttempts);
    SceneOneMore(asked, Verify(1, true, false), 1, maxRequests, maxAttempts);
    events := asked + [Verify(1, true, false)];
  }

  /** The bound is tight for the login service, if it grants any request at all: a request and a guess, maxAttempts - 2
      more guesses just inside the interval, and, as the next window opens, a request and maxAttempts guesses. If
      at most one attempt is allowed, a request and a guess. */
  lemma GuessBoundIsAttained(maxRequests: int, maxAttempts: int) returns (events: seq<Event>)
    requires maxRequests >= 1
    ensures Producible(events, maxRequests, maxAttempts) && Monotone(events) && OnlyWrongGuesses(events)
    ensures NoSuccess(events, 1, maxRequests, maxAttempts)
    ensures FailuresFrom(events, |events|, 1, maxRequests, maxAttempts)
         == if maxAttempts >= 2 then 2 * maxAttempts - 2 else 1
  {
    if maxAttempts >= 2 {
      events := TwoWindows(maxRequests, maxAttempts);
    } else {
      events := SingleGuess(maxRequests, maxAttempts);
    }
    SceneTellsFailures(events, |events|, 1, maxRequests, maxAttempts);
    assert events[..|events|] == events;
    ScenesAreProducible(events, 1, maxRequests, maxAttempts);
    ScenesAreInOrder(events, 1, maxRequests, maxAttempts);
    WrongIsNotAccepted(events, 1, maxRequests, maxAttempts);
  }

  lemma {:induction false} NoRequestIsGranted(events: seq<Event>, maxRequests: int, maxAttempts: int)
    requires maxRequests < 1
    ensures LiveOtp(events, maxRequests, maxAttempts).None?
    ensures var s := Run(events, maxRequests, maxAttempts); s.requests.Some? ==> s.requests.value.count >= 1
  {
    if events != [] {
      NoRequestIsGranted(events[..|events| - 1], maxRequests, maxAttempts);
    }
  }

  lemma {:induction false} ProduciblePrefix(events: seq<Event>, n: nat, maxRequests: int, maxAttempts: int)
    requires n <= |events| && Producible(events, maxRequests, maxAttempts)
    ensures Producible(events[..n], maxRequests, maxAttempts)
  {
    if n < |events| {
      ProduciblePrefix(events[..|events| - 1], n, maxRequests, maxAttempts);
      assert events[..|events| - 1][..n] == events[..n];
    } else {
      assert events[..n] == events;
    }
  }

  /** If it grants none, there is never an OTP to guess at. */
  lemma {:induction false} NoRequestsNoGuesses(events: seq<Event>, n: nat, a: int, maxRequests: int, maxAttempts: int)
    requires n <= |events| && maxRequests < 1 && Producible(events, maxRequests, maxAttempts)
    ensures FailuresFrom(events, n, a, maxRequests, maxAttempts) == 0
    decreases n
  {
    if n > 0 {
      NoRequestsNoGuesses(events, n - 1, a, maxRequests, maxAttempts);
      ProduciblePrefix(events, n, maxRequests, maxAttempts);
      assert events[..n][..n - 1] == events[..n - 1];
      NoRequestIsGranted(events[..n - 1], maxRequests, maxAttempts);
    }
  }

  // ---------------------------------------------------------------------------------------------
  // How many OTPs
  // ---------------------------------------------------------------------------------------------

  lemma CooldownStep(s: Tracking, e: Event, since: int, maxRequests: int, maxAttempts: int)
    requires s.cooldown.Some? && s.cooldown.value >= since + COOLDOWN_TTL && e.now >= since
    requires !Next(s, e, maxRequests, maxAttempts).1.Accepted?
    ensures var s' := Next(s, e, maxRequests, maxAttempts).0;
            s'.cooldown.Some? && s'.cooldown.value >= since + COOLDOWN_TTL
  {
  }

  lemma {:induction false} CooldownHolds(events: seq<Event>, i: nat, j: nat, maxRequests: int, maxAttempts: int)
    requires i < j <= |events| && Monotone(events)
    requires ReplyAt(events, i, maxRequests, maxAttempts) == Granted
    requires forall k :: i < k < j ==> !ReplyAt(events, k, maxRequests, maxAttempts).Accepted?
    ensures var s := Run(events[..j], maxRequests, maxAttempts);
            s.cooldown.Some? && s.cooldown.value >= events[i].now + COOLDOWN_TTL
    decreases j
  {
    var last := j - 1;
    RunOneMore(events, last, maxRequests, maxAttempts);
    if i < last {
      CooldownHolds(events, i, last, maxRequests, maxAttempts);
      assert !ReplyAt(events, last, maxRequests, maxAttempts).Accepted?;
      CooldownStep(Run(events[..last], maxRequests, maxAttempts), events[last], events[i].now, maxRequests, maxAttempts);
    }
  }

  /** Between two accepted OTPs, granted requests are at least a minute apart. */
  lemma GrantsAreAMinuteApart(events: seq<Event>, i: nat, j: nat, maxRequests: int, maxAttempts: int)
    requires i < j < |events| && Monotone(events)
    requires ReplyAt(events, i, maxRequests, maxAttempts) == ReplyAt(events, j, maxRequests, maxAttempts) == Granted
    requires forall k :: i < k < j ==> !ReplyAt(events, k, maxRequests, maxAttempts).Accepted?
    ensures events[j].now >= events[i].now + 60
  {
    CooldownHolds(events, i, j, maxRequests, maxAttempts);
  }

  // ---------------------------------------------------------------------------------------------
  // The functions on Redis keys
  // ---------------------------------------------------------------------------------------------

  function Prefix(scope: string): string { "otp:" + scope + ":" }

  function LockKey(scope: string, id: string): string { Prefix(scope) + ("lock:" + id) }

  function SpamLockKey(scope: string, id: string): string { Prefix(scope) + ("spam-lock:" + id) }

  function CooldownKey(scope: string, id: string): string { Prefix(scope) + ("cooldown:" + id) }

  function RequestsKey(scope: string, id: string): string { Prefix(scope) + ("requests-count:" + id) }

  function FailuresKey(scope: string, id: string): string { Prefix(scope) + ("failed-attempts:" + id) }

  /** The five keys never coincide, whatever the scope and the identifier contain. */
  lemma KeysDiffer(scope: string, id: string)
    ensures |{LockKey(scope, id), SpamLockKey(scope, id), CooldownKey(scope, id), RequestsKey(scope, id),
              FailuresKey(scope, id)}| == 5
    ensures LockKey(scope, id) != SpamLockKey(scope, id) && LockKey(scope, id) != CooldownKey(scope, id)
    ensures LockKey(scope, id) != RequestsKey(scope, id) && LockKey(scope, id) != FailuresKey(scope, id)
    ensures SpamLockKey(scope, id) != CooldownKey(scope, id) && SpamLockKey(scope, id) != RequestsKey(scope, id)
    ensures SpamLockKey(scope, id) != FailuresKey(scope, id) && CooldownKey(scope, id) != RequestsKey(scope, id)
    ensures CooldownKey(scope, id) != FailuresKey(scope, id) && RequestsKey(scope, id) != FailuresKey(scope, id)
  {
    var at := |Prefix(scope)|;
    assert LockKey(scope, id)[at] == 'l' && SpamLockKey(scope, id)[at] == 's' && CooldownKey(scope, id)[at] == 'c';
    assert RequestsKey(scope, id)[at] == 'r' && FailuresKey(scope, id)[at] == 'f';
  }

  function ExpiryAt(s: Store, key: string): Option<int> {
    if key in s then s[key].expiry else None
  }

  /** The keys hold what these functions put there. */
  predicate WellFormed(s: Store, scope: string, id: string) {
    && HoldsCounter(s, FailuresKey(scope, id)) && HoldsCounter(s, RequestsKey(scope, id))
    && forall k :: k in {LockKey(scope, id), SpamLockKey(scope, id), CooldownKey(scope, id)} && k in s ==>
         s[k].expiry.Some?
  }

  function View(s: Store, scope: string, id: string): Tracking
    requires WellFormed(s, scope, id)
  {
    Tracking(CounterAt(s, FailuresKey(scope, id)), CounterAt(s, RequestsKey(scope, id)),
             ExpiryAt(s, LockKey(scope, id)), ExpiryAt(s, SpamLockKey(scope, id)), ExpiryAt(s, CooldownKey(scope, id)))
  }

  /** Two stores that differ in one key only. */
  lemma OneKey(s: Store, s': Store, key: string)
    requires s' - {key} == s - {key}
    ensures forall k :: k != key ==> (k in s <==> k in s') && (k in s ==> s[k] == s'[k])
  {
    forall k | k != key ensures (k in s <==> k in s') && (k in s ==> s[k] == s'[k]) {
      assert k in s <==> k in s - {key};
      assert k in s' <==> k in s' - {key};
      if k in s { assert (s - {key})[k] == s[k]; assert (s' - {key})[k] == s'[k]; }
    }
  }

  method GetOtpRestrictions(redis: Client, scope: string, id: string, now: int)
    returns (isLocked: bool, isSpamLocked: bool, isCooldownActive: bool)
    requires WellFormed(redis.entries, scope, id)
    ensures var s := View(redis.entries, scope, id);
            && (isLocked <==> Set(s.lock, now)) && (isSpamLocked <==> Set(s.spamLock, now))
            && (isCooldownActive <==> Set(s.cooldown, now))
  {
    var lock := redis.Get(LockKey(scope, id), now);
    var spamLock := redis.Get(SpamLockKey(scope, id), now);
    var cooldown := redis.Get(CooldownKey(scope, id), now);
    isLocked, isSpamLocked, isCooldownActive := lock.Some?, spamLock.Some?, cooldown.Some?;
  }

  method TrackOtpRequest(redis: Client, scope: string, id: string, maxRequests: int, now: int)
    returns (requestCount: int, isSpamLocked: bool)
    requires WellFormed(redis.entries, scope, id)
    modifies redis
    ensures WellFormed(redis.entries, scope, id)
    ensures View(redis.entries, scope, id) == TrackRequest(View(old(redis.entries), scope, id), now, maxRequests)
    ensures requestCount == View(redis.entries, scope, id).requests.value.count && (isSpamLocked <==> requestCount > maxRequests)
  {
    KeysDiffer(scope, id);
    requestCount := redis.HitCounter(RequestsKey(scope, id), REQUEST_WINDOW, now);
    OneKey(old(redis.entries), redis.entries, RequestsKey(scope, id));
    isSpamLocked := requestCount > maxRequests;
    if isSpamLocked {
      redis.SetEx(SpamLockKey(scope, id), "locked", SPAM_LOCK_TTL, now);
    } else {
      redis.SetEx(CooldownKey(scope, id), "active", COOLDOWN_TTL, now);
    }
  }

  method TrackOtpFailure(redis: Client, scope: string, id: string, maxAttempts: int, now: int)
    returns (attempts: int, remainingAttempts: int, isLocked: bool)
    requires WellFormed(redis.entries, scope, id)
    modifies redis
    ensures WellFormed(redis.entries, scope, id)
    ensures View(redis.entries, scope, id) == TrackFailure(View(old(redis.entries), scope, id), now, maxAttempts)
    ensures attempts == View(redis.entries, scope, id).failures.value.count && (isLocked <==> attempts >= maxAttempts)
    ensures remainingAttempts == if isLocked then 0 else maxAttempts - attempts
  {
    KeysDiffer(scope, id);
    attempts := redis.HitCounter(FailuresKey(scope, id), FAILURE_WINDOW, now);
    OneKey(old(redis.entries), redis.entries, FailuresKey(scope, id));
    isLocked := attempts >= maxAttempts;
    if isLocked {
      redis.SetEx(LockKey(scope, id), "locked", LOCK_TTL, now);
      remainingAttempts := 0;
    } else {
      remainingAttempts := if maxAttempts - attempts > 0 then maxAttempts - attempts else 0;
    }
  }

  method ClearOtpTracking(redis: Client, scope: string, id: string)
    requires WellFormed(redis.entries, scope, id)
    modifies redis
    ensures WellFormed(redis.entries, scope, id) && View(redis.entries, scope, id) == UNTRACKED
  {
    redis.Del({FailuresKey(scope, id), LockKey(scope, id), CooldownKey(scope, id), RequestsKey(scope, id),
               SpamLockKey(scope, id)});
  }

  /** The request half of `loginUser` and `resendLoginOtp`. */
  method RequestLoginOtp(redis: Client, scope: string, id: string, maxRequests: int, maxAttempts: int, now: int)
    returns (reply: Reply)
    requires WellFormed(redis.entries, scope, id)
    modifies redis
    ensures WellFormed(redis.entries, scope, id)
    ensures (View(redis.entries, scope, id), reply)
         == Next(View(old(redis.entries), scope, id), Request(now), maxRequests, maxAttempts)
  {
    var isLocked, isSpamLocked, isCooldownActive := GetOtpRestrictions(redis, scope, id, now);
    if isLocked { return Locked; }
    if isSpamLocked { return SpamLocked; }
    if isCooldownActive { return CoolingDown; }
    var requestCount, spam := TrackOtpRequest(redis, scope, id, maxRequests, now);
    reply := if spam then SpamLocked else Granted;
  }

  /** `verifyLoginOtp` up to the point where the sessions are replaced. */
  method VerifyLoginOtp(redis: Client, scope: string, id: string, pending: bool, correct: bool,
                        maxRequests: int, maxAttempts: int, now: int)
    returns (reply: Reply)
    requires WellFormed(redis.entries, scope, id)
    modifies redis
    ensures WellFormed(redis.entries, scope, id)
    ensures (View(redis.entries, scope, id), reply)
         == Next(View(old(redis.entries), scope, id), Verify(now, pending, correct), maxRequests, maxAttempts)
  {
    var isLocked, isSpamLocked, isCooldownActive := GetOtpRestrictions(redis, scope, id, now);
    if isLocked { return Locked; }
    if !pending { return NoOtpPending; }
    if !correct {
      var attempts, remaining, locked := TrackOtpFailure(redis, scope, id, maxAttempts, now);
      return if locked then AttemptsExceeded else Wrong(remaining);
    }
    ClearOtpTracking(redis, scope, id);
    reply := Accepted;
  }
}
