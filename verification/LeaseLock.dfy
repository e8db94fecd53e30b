/** The lease lock, packages/redis/src/idempotency.ts: SET NX EX to acquire, compare-and-delete to release.

    Any number of processes acquire and release in any order. Tokens come from a random generator and
    are taken to be unique.
  */
module LeaseLock {
  import opened Options
  import opened Redis

  datatype Lease = Lease(owner: string, expiry: int)

  datatype Event = Acquire(token: string, ttl: int, now: int) | Release(token: string, now: int)

  predicate Held(l: Option<Lease>, now: int) {
    l.Some? && now < l.value.expiry
  }

  function Next(l: Option<Lease>, e: Event): Option<Lease> {
    match e
    case Acquire(token, ttl, now) => if Held(l, now) then l else Some(Lease(token, now + ttl))
    case Release(token, now) => if Held(l, now) && l.value.owner == token then None else l
  }

  function Run(l: Option<Lease>, events: seq<Event>): Option<Lease> {
    if events == [] then l else Next(Run(l, events[..|events| - 1]), events[|events| - 1])
  }

  /** The lease before event `i`. */
  function At(events: seq<Event>, i: nat): Option<Lease>
    requires i <= |events|
  {
    Run(None, events[..i])
  }

  predicate Wins(events: seq<Event>, i: nat)
    requires i < |events|
  {
    events[i].Acquire? && !Held(At(events, i), events[i].now)
  }

  ghost predicate Monotone(events: seq<Event>) {
    forall i, j :: 0 <= i < j < |events| ==> events[i].now <= events[j].now
  }

  ghost predicate UniqueTokens(events: seq<Event>) {
    forall i, j :: 0 <= i < j < |events| && events[i].Acquire? && events[j].Acquire? ==> events[i].token != events[j].token
  }

  lemma AtOneMore(events: seq<Event>, i: nat)
    requires i < |events|
    ensures At(events, i + 1) == Next(At(events, i), events[i])
  {
    assert events[..i + 1][..i] == events[..i];
  }

  /** Until it is released or has expired, the winner's lease stays. */
  lemma {:induction false} LeaseStays(events: seq<Event>, i: nat, j: nat)
    requires i < j <= |events| && Monotone(events) && Wins(events, i)
    requires forall k :: i < k < j ==> events[k].now < events[i].now + events[i].ttl
    requires forall k :: i < k < j ==> !(events[k].Release? && events[k].token == events[i].token)
    ensures At(events, j) == Some(Lease(events[i].token, events[i].now + events[i].ttl))
    decreases j
  {
    AtOneMore(events, j - 1);
    if i + 1 < j {
      LeaseStays(events, i, j - 1);
    }
  }

  /** Nobody acquires the lock before its holder has released it or its time to live is over. */
  lemma NextWinnerWaits(events: seq<Event>, i: nat, j: nat)
    requires i < j < |events| && Monotone(events) && Wins(events, i) && Wins(events, j)
    requires forall k :: i < k < j ==> !(events[k].Release? && events[k].token == events[i].token)
    ensures events[j].now >= events[i].now + events[i].ttl
  {
    if events[j].now < events[i].now + events[i].ttl {
      LeaseStays(events, i, j);
    }
  }

  /** `r` is the first release by the winner at `i`: the end of its critical section. */
  ghost predicate Section(events: seq<Event>, i: nat, r: nat) {
    && i < r < |events| && Wins(events, i)
    && events[r].Release? && events[r].token == events[i].token
    && forall k :: i < k < r ==> !(events[k].Release? && events[k].token == events[i].token)
  }

  /** Main result: a critical section that ends within its time to live overlaps no later one. */
  lemma SectionsDoNotOverlap(events: seq<Event>, i: nat, r: nat, j: nat)
    requires Monotone(events) && Section(events, i, r) && i < j < |events| && Wins(events, j)
    requires events[r].now < events[i].now + events[i].ttl
    ensures r < j
  {
    if j < r {
      NextWinnerWaits(events, i, j);
    }
  }

  /** The lease, held or expired, belongs to the last winner. */
  lemma {:induction false} OwnerIsLastWinner(events: seq<Event>, j: nat, n: nat)
    requires j < n <= |events| && Wins(events, j)
    ensures At(events, n).Some? ==>
              exists w :: j <= w < n && Wins(events, w) && events[w].token == At(events, n).value.owner
    decreases n
  {
    AtOneMore(events, n - 1);
    if j + 1 < n {
      OwnerIsLastWinner(events, j, n - 1);
    }
    if Wins(events, n - 1) {
      assert events[n - 1].token == At(events, n).value.owner;
    }
  }

  /** The lease before event `n` is that of some winner who has not released it in time. */
  ghost predicate IsLeaseOf(events: seq<Event>, w: nat, n: nat)
    requires n <= |events|
  {
    && w < n && Wins(events, w)
    && At(events, n) == Some(Lease(events[w].token, events[w].now + events[w].ttl))
    && forall r :: w < r < n && events[r].Release? && events[r].token == events[w].token ==>
         events[r].now >= events[w].now + events[w].ttl
  }

  lemma {:induction false} LeasesHaveWinners(events: seq<Event>, n: nat) returns (w: nat)
    requires n <= |events|
    ensures At(events, n).Some? ==> IsLeaseOf(events, w, n)
    decreases n
  {
    w := 0;
    if n > 0 {
      AtOneMore(events, n - 1);
      if Wins(events, n - 1) {
        w := n - 1;
      } else {
        w := LeasesHaveWinners(events, n - 1);
      }
    }
  }

  /** Main result: an acquisition wins exactly if each earlier winner's time to live is over or it has released. */
  lemma WinsExactlyWhenFree(events: seq<Event>, j: nat)
    requires j < |events| && Monotone(events) && events[j].Acquire?
    ensures Wins(events, j) <==>
              forall i :: 0 <= i < j && Wins(events, i) ==>
                || events[j].now >= events[i].now + events[i].ttl
                || exists r :: i < r < j && events[r].Release? && events[r].token == events[i].token
  {
    if Wins(events, j) {
      forall i | 0 <= i < j && Wins(events, i)
        ensures events[j].now >= events[i].now + events[i].ttl
             || exists r :: i < r < j && events[r].Release? && events[r].token == events[i].token
      {
        if forall r :: i < r < j ==> !(events[r].Release? && events[r].token == events[i].token) {
          NextWinnerWaits(events, i, j);
        }
      }
    } else {
      var w := LeasesHaveWinners(events, j);
      assert IsLeaseOf(events, w, j);
    }
  }

  /** A release by a holder that has been superseded changes nothing. */
  lemma StaleReleaseIsHarmless(events: seq<Event>, i: nat, j: nat, k: nat)
    requires i < j < k < |events| && UniqueTokens(events)
    requires Wins(events, i) && Wins(events, j)
    requires events[k].Release? && events[k].token == events[i].token
    ensures At(events, k + 1) == At(events, k)
  {
    AtOneMore(events, k);
    OwnerIsLastWinner(events, j, k);
  }

  // ---------------------------------------------------------------------------------------------
  // The functions on Redis keys
  // ---------------------------------------------------------------------------------------------

  function Key(resource: string): string { "lock:" + resource }

  predicate WellFormed(s: Store, resource: string) {
    Key(resource) in s ==> s[Key(resource)].value.Text? && s[Key(resource)].expiry.Some?
  }

  function View(s: Store, resource: string): Option<Lease>
    requires WellFormed(s, resource)
  {
    if Key(resource) in s then Some(Lease(s[Key(resource)].value.text, s[Key(resource)].expiry.value)) else None
  }

  /** `token` is the fresh random value; it is the result if the lock was acquired. */
  method AcquireLock(redis: Client, resource: string, token: string, ttl: int, now: int) returns (lockValue: Option<string>)
    requires WellFormed(redis.entries, resource)
    modifies redis
    ensures WellFormed(redis.entries, resource)
    ensures View(redis.entries, resource) == Next(View(old(redis.entries), resource), Acquire(token, ttl, now))
    ensures lockValue == if Held(View(old(redis.entries), resource), now) then None else Some(token)
  {
    var acquired := redis.SetNx(Key(resource), token, ttl, now);
    lockValue := if acquired then Some(token) else None;
  }

  /** The script runs atomically in Redis. */
  method ReleaseLock(redis: Client, resource: string, lockValue: string, now: int)
    requires WellFormed(redis.entries, resource)
    modifies redis
    ensures WellFormed(redis.entries, resource)
    ensures View(redis.entries, resource) == Next(View(old(redis.entries), resource), Release(lockValue, now))
  {
    var value := redis.Get(Key(resource), now);
    if value == Some(Text(lockValue)) {
      redis.Del({Key(resource)});
    }
  }

  /** What other processes do to the lock while this one waits. */
  method Others(redis: Client, resource: string, events: seq<Event>)
    requires WellFormed(redis.entries, resource)
    modifies redis
    ensures WellFormed(redis.entries, resource)
    ensures View(redis.entries, resource) == Run(View(old(redis.entries), resource), events)
  {
    for i := 0 to |events|
      invariant WellFormed(redis.entries, resource)
      invariant View(redis.entries, resource) == Run(View(old(redis.entries), resource), events[..i])
    {
      assert events[..i + 1][..i] == events[..i];
      match events[i] {
        case Acquire(token, ttl, now) => var ignored := AcquireLock(redis, resource, token, ttl, now);
        case Release(token, now) => ReleaseLock(redis, resource, token, now);
      }
    }
    assert events[..|events|] == events;
  }

  /** The surroundings of one `withLock` call: its random tokens, the clock at each attempt, what other
      processes do during each 100 ms wait and during the critical section, and when that ends. */
  datatype Surroundings = Surroundings(
    token: nat -> string,
    clock: nat -> int,
    waiting: nat -> seq<Event>,
    inside: seq<Event>,
    end: int)

  /** The lease when attempt `n` is made: each earlier attempt was followed by a wait. */
  function LeaseAt(l: Option<Lease>, w: Surroundings, ttl: int, n: nat): Option<Lease> {
    if n == 0 then l
    else Run(Next(LeaseAt(l, w, ttl, n - 1), Acquire(w.token(n - 1), ttl, w.clock(n - 1))), w.waiting(n - 1))
  }

  const MAX_ATTEMPTS := 50

  /** Each of the first `n` attempts found the lock held. */
  ghost predicate Refused(l: Option<Lease>, w: Surroundings, ttl: int, n: nat) {
    n > 0 ==> Refused(l, w, ttl, n - 1) && Held(LeaseAt(l, w, ttl, n - 1), w.clock(n - 1))
  }

  /** The first `attempts` attempts found the lock held and the next one, if there is one, did not. */
  ghost predicate Attempted(l: Option<Lease>, w: Surroundings, ttl: int, attempts: nat) {
    && attempts <= 50 && Refused(l, w, ttl, attempts)
    && (attempts < 50 ==> !Held(LeaseAt(l, w, ttl, attempts), w.clock(attempts)))
  }

  /** The loop of `withLock`. */
  method AcquireWithRetries(redis: Client, resource: string, ttl: int, w: Surroundings)
    returns (lockValue: Option<string>, attempts: nat)
    requires WellFormed(redis.entries, resource)
    modifies redis
    ensures WellFormed(redis.entries, resource)
    ensures var start := View(old(redis.entries), resource);
            && Attempted(start, w, ttl, attempts)
            && lockValue == (if attempts < 50 then Some(w.token(attempts)) else None)
            && View(redis.entries, resource) ==
                 if lockValue.None? then LeaseAt(start, w, ttl, attempts)
                 else Some(Lease(w.token(attempts), w.clock(attempts) + ttl))
  {
    lockValue, attempts := None, 0;
    ghost var start := View(redis.entries, resource);
    while attempts < MAX_ATTEMPTS
      invariant attempts <= MAX_ATTEMPTS && lockValue.None? && WellFormed(redis.entries, resource)
      invariant View(redis.entries, resource) == LeaseAt(start, w, ttl, attempts)
      invariant Refused(start, w, ttl, attempts)
    {
      lockValue := AcquireLock(redis, resource, w.token(attempts), ttl, w.clock(attempts));
      if lockValue.Some? { break; }
      Others(redis, resource, w.waiting(attempts));
      attempts := attempts + 1;
    }
  }

  datatype Outcome = Returned | Threw | NotAcquired

  /** Main result for `withLock`: at most fifty attempts; the function runs exactly when one of them succeeds,
      and then the lock is released once, whether the function returns or throws: whatever happened inside, the
      token owns no live lease afterwards. */
  method WithLock(redis: Client, resource: string, ttl: int, fnThrows: bool, w: Surroundings)
    returns (outcome: Outcome, attempts: nat)
    requires WellFormed(redis.entries, resource)
    modifies redis
    ensures WellFormed(redis.entries, resource)
    ensures Attempted(View(old(redis.entries), resource), w, ttl, attempts)
    ensures outcome == if attempts == 50 then NotAcquired else if fnThrows then Threw else Returned
    ensures outcome == NotAcquired ==>
              View(redis.entries, resource) == LeaseAt(View(old(redis.entries), resource), w, ttl, 50)
    ensures outcome != NotAcquired ==>
              && View(redis.entries, resource)
                 == Next(Run(Some(Lease(w.token(attempts), w.clock(attempts) + ttl)), w.inside),
                         Release(w.token(attempts), w.end))
              && (Held(View(redis.entries, resource), w.end) ==>
                   View(redis.entries, resource).value.owner != w.token(attempts))
  {
    var lockValue;
    lockValue, attempts := AcquireWithRetries(redis, resource, ttl, w);
    if lockValue.None? {
      return NotAcquired, attempts;
    }
    Others(redis, resource, w.inside);
    ReleaseLock(redis, resource, lockValue.value, w.end);
    outcome := if fnThrows then Threw else Returned;
  }
}
