/** packages/libs/src/resilience.ts: the circuit breaker and retry with exponential backoff.

    `execute` is cut at its `await`: deciding to start is one atomic step, handling the outcome another.
    Any number of operations may be in flight, so an outcome can arrive in any state.
  */
module Resilience {
  import opened Arithmetic

  datatype CircuitState = Closed | Open | HalfOpen

  datatype Settings = Settings(failureThreshold: int, successThreshold: int, resetTimeoutMs: int)

  datatype Breaker = Breaker(state: CircuitState, failureCount: int, successCount: int, openedAt: int)

  datatype Action = Begin | Succeed | Fail

  datatype Event = At(time: int, action: Action)

  const FRESH := Breaker(Closed, 0, 0, 0)

  predicate CanAttempt(b: Breaker, o: Settings, now: int) {
    b.state != Open || now - b.openedAt >= o.resetTimeoutMs
  }

  function ToOpen(b: Breaker, now: int): Breaker {
    b.(state := Open, openedAt := now, successCount := 0)
  }

  function ToHalfOpen(b: Breaker): Breaker {
    b.(state := HalfOpen, failureCount := 0, successCount := 0)
  }

  function ToClosed(b: Breaker): Breaker {
    Breaker(Closed, 0, 0, 0)
  }

  function OnBegin(b: Breaker, o: Settings, now: int): Breaker {
    if CanAttempt(b, o, now) && b.state == Open then ToHalfOpen(b) else b
  }

  function OnSuccess(b: Breaker, o: Settings): Breaker {
    if b.state == HalfOpen then
      var c := b.(successCount := b.successCount + 1);
      if c.successCount >= o.successThreshold then ToClosed(c) else c
    else b.(failureCount := 0)
  }

  /** The cases of the `catch` block that call `transitionToOpen`. */
  predicate Trips(b: Breaker, o: Settings) {
    b.state == HalfOpen || b.failureCount + 1 >= o.failureThreshold
  }

  function OnFailure(b: Breaker, o: Settings, now: int): Breaker {
    if b.state == HalfOpen then ToOpen(b, now)
    else
      var c := b.(failureCount := b.failureCount + 1);
      if c.failureCount >= o.failureThreshold then ToOpen(c, now) else c
  }

  function Next(b: Breaker, o: Settings, e: Event): Breaker {
    match e.action
    case Begin => OnBegin(b, o, e.time)
    case Succeed => OnSuccess(b, o)
    case Fail => OnFailure(b, o, e.time)
  }

  function Run(b: Breaker, o: Settings, trace: seq<Event>): Breaker {
    if trace == [] then b else Next(Run(b, o, trace[..|trace| - 1]), o, trace[|trace| - 1])
  }

  // ---------------------------------------------------------------------------------------------
  // The reference: a breaker without counters, which looks at the outcomes it has seen.
  // ---------------------------------------------------------------------------------------------

  /** The outcomes since the breaker last started counting afresh; true is a success. */
  datatype Observer = Observer(state: CircuitState, outcomes: seq<bool>, openedAt: int)

  /** The last `n` outcomes are failures. */
  predicate LastFailed(outcomes: seq<bool>, n: nat) {
    |outcomes| >= n && forall i :: |outcomes| - n <= i < |outcomes| ==> !outcomes[i]
  }

  function Observe(v: Observer, o: Settings, e: Event): Observer {
    match (e.action, v.state)
    case (Begin, Open) => if e.time >= v.openedAt + o.resetTimeoutMs then Observer(HalfOpen, [], 0) else v
    case (Begin, _) => v
    case (Succeed, HalfOpen) =>
      if |v.outcomes| + 1 >= AtLeastOne(o.successThreshold) then Observer(Closed, [], 0)
      else v.(outcomes := v.outcomes + [true])
    case (Succeed, _) => v.(outcomes := v.outcomes + [true])
    case (Fail, HalfOpen) => Observer(Open, [], e.time)
    case (Fail, _) =>
      var outcomes := v.outcomes + [false];
      if LastFailed(outcomes, AtLeastOne(o.failureThreshold)) then Observer(Open, outcomes, e.time)
      else v.(outcomes := outcomes)
  }

  function ObserveAll(o: Settings, trace: seq<Event>): Observer {
    if trace == [] then Observer(Closed, [], 0)
    else Observe(ObserveAll(o, trace[..|trace| - 1]), o, trace[|trace| - 1])
  }

  function TrailingFailures(outcomes: seq<bool>): nat {
    if outcomes == [] || outcomes[|outcomes| - 1] then 0
    else 1 + TrailingFailures(outcomes[..|outcomes| - 1])
  }

  lemma {:induction false} TrailingMeansLast(outcomes: seq<bool>, n: nat)
    ensures TrailingFailures(outcomes) >= n <==> LastFailed(outcomes, n)
  {
    if n > 0 && outcomes != [] && !outcomes[|outcomes| - 1] {
      TrailingMeansLast(outcomes[..|outcomes| - 1], n - 1);
      assert LastFailed(outcomes, n) ==> LastFailed(outcomes[..|outcomes| - 1], n - 1);
      if LastFailed(outcomes[..|outcomes| - 1], n - 1) {
        forall i | |outcomes| - n <= i < |outcomes| ensures !outcomes[i] {
          assert i < |outcomes| - 1 ==> outcomes[i] == outcomes[..|outcomes| - 1][i];
        }
      }
    }
  }

  ghost predicate Agree(b: Breaker, v: Observer, o: Settings) {
    && b.state == v.state
    && (b.state == Open ==> b.openedAt == v.openedAt)
    && (b.state != HalfOpen ==> b.failureCount == TrailingFailures(v.outcomes) && b.successCount == 0)
    && (b.state == Closed ==> b.failureCount < AtLeastOne(o.failureThreshold))
    && (b.state == HalfOpen ==>
         && b.failureCount == 0 && b.successCount == |v.outcomes| < AtLeastOne(o.successThreshold)
         && forall i :: 0 <= i < |v.outcomes| ==> v.outcomes[i])
  }

  lemma FailureAgrees(b: Breaker, v: Observer, o: Settings, now: int)
    requires Agree(b, v, o)
    ensures Agree(OnFailure(b, o, now), Observe(v, o, At(now, Fail)), o)
  {
    if b.state != HalfOpen {
      var outcomes := v.outcomes + [false];
      assert outcomes[..|v.outcomes|] == v.outcomes;
      assert TrailingFailures(outcomes) == 1 + TrailingFailures(v.outcomes);
      TrailingMeansLast(outcomes, AtLeastOne(o.failureThreshold));
    }
  }

  lemma SuccessAgrees(b: Breaker, v: Observer, o: Settings, now: int)
    requires Agree(b, v, o)
    ensures Agree(OnSuccess(b, o), Observe(v, o, At(now, Succeed)), o)
  {
    assert (v.outcomes + [true])[|v.outcomes|];
    assert TrailingFailures(v.outcomes + [true]) == 0;
  }

  lemma StepsAgree(b: Breaker, v: Observer, o: Settings, e: Event)
    requires Agree(b, v, o)
    ensures Agree(Next(b, o, e), Observe(v, o, e), o)
  {
    match e.action
    case Begin =>
    case Succeed => SuccessAgrees(b, v, o, e.time);
    case Fail => FailureAgrees(b, v, o, e.time);
  }

  /** Main result: the breaker's state is a function of the trace of interleaved starts and outcomes, and its
      counters are what that trace says they are. */
  lemma {:induction false} CountersAreTheTrace(o: Settings, trace: seq<Event>)
    ensures Agree(Run(FRESH, o, trace), ObserveAll(o, trace), o)
  {
    if trace != [] {
      CountersAreTheTrace(o, trace[..|trace| - 1]);
      StepsAgree(Run(FRESH, o, trace[..|trace| - 1]), ObserveAll(o, trace[..|trace| - 1]), o, trace[|trace| - 1]);
    }
  }

  /** All outcomes in the trace, oldest first. */
  function Outcomes(trace: seq<Event>): seq<bool> {
    if trace == [] then []
    else
      var last := trace[|trace| - 1];
      Outcomes(trace[..|trace| - 1]) + if last.action == Begin then [] else [last.action == Succeed]
  }

  lemma {:induction false} OutcomesAreRecent(o: Settings, trace: seq<Event>)
    ensures var seen := ObserveAll(o, trace).outcomes;
            |seen| <= |Outcomes(trace)| && Outcomes(trace)[|Outcomes(trace)| - |seen|..] == seen
  {
    if trace != [] {
      OutcomesAreRecent(o, trace[..|trace| - 1]);
    }
  }

  lemma LastOfEndIsLast(all: seq<bool>, end: seq<bool>, n: nat)
    requires |end| <= |all| && all[|all| - |end|..] == end && LastFailed(end, n)
    ensures LastFailed(all, n)
  {
    forall i | |all| - n <= i < |all| ensures !all[i] {
      assert all[i] == end[i - (|all| - |end|)];
    }
  }

  /** CLOSED becomes OPEN exactly at a failure that makes the last `failureThreshold` outcomes since the breaker
      closed failures; these are the last outcomes of the whole trace. */
  lemma OpensAfterConsecutiveFailures(o: Settings, trace: seq<Event>, e: Event)
    requires Run(FRESH, o, trace).state == Closed
    ensures var n := AtLeastOne(o.failureThreshold);
            && (Next(Run(FRESH, o, trace), o, e).state == Open <==>
                 e.action == Fail && LastFailed(ObserveAll(o, trace).outcomes, n - 1))
            && (Next(Run(FRESH, o, trace), o, e).state == Open ==> LastFailed(Outcomes(trace), n - 1))
  {
    CountersAreTheTrace(o, trace);
    TrailingMeansLast(ObserveAll(o, trace).outcomes, AtLeastOne(o.failureThreshold) - 1);
    OutcomesAreRecent(o, trace);
    if LastFailed(ObserveAll(o, trace).outcomes, AtLeastOne(o.failureThreshold) - 1) {
      LastOfEndIsLast(Outcomes(trace), ObserveAll(o, trace).outcomes, AtLeastOne(o.failureThreshold) - 1);
    }
  }

  /** HALF_OPEN becomes CLOSED exactly at the success that completes `successThreshold` of them since the
      breaker became half open, with no failure in between. */
  lemma ClosesAfterEnoughSuccesses(o: Settings, trace: seq<Event>, e: Event)
    requires Run(FRESH, o, trace).state == HalfOpen
    ensures var seen := ObserveAll(o, trace).outcomes;
            && (Next(Run(FRESH, o, trace), o, e).state == Closed <==>
                 e.action == Succeed && |seen| + 1 == AtLeastOne(o.successThreshold))
            && (forall i :: 0 <= i < |seen| ==> seen[i])
            && (Next(Run(FRESH, o, trace), o, e).state == Open <==> e.action == Fail)
  {
    CountersAreTheTrace(o, trace);
  }

  ghost predicate Monotone(trace: seq<Event>) {
    forall i, j :: 0 <= i < j < |trace| ==> trace[i].time <= trace[j].time
  }

  predicate Starts(b: Breaker, o: Settings, e: Event) {
    e.action == Begin && CanAttempt(b, o, e.time)
  }

  /** Main result: an operation may start at any time unless the breaker has been opened, and then from the reset time
      on; the observer says when it was opened. */
  lemma StartsUnlessOpened(o: Settings, trace: seq<Event>, now: int)
    ensures var v := ObserveAll(o, trace);
            Starts(Run(FRESH, o, trace), o, At(now, Begin)) <==> v.state != Open || now >= v.openedAt + o.resetTimeoutMs
  {
    CountersAreTheTrace(o, trace);
  }

  /** The state after the first `n` events of a trace. */
  function After(o: Settings, trace: seq<Event>, n: nat): Breaker
    requires n <= |trace|
  {
    Run(FRESH, o, trace[..n])
  }

  lemma AfterOneMore(o: Settings, trace: seq<Event>, n: nat)
    requires n < |trace|
    ensures After(o, trace, n + 1) == Next(After(o, trace, n), o, trace[n])
  {
    assert trace[..n + 1][..n] == trace[..n];
  }

  lemma StaysOpen(b: Breaker, o: Settings, e: Event, since: int)
    requires b.state == Open && since <= b.openedAt && since <= e.time && !Starts(b, o, e)
    ensures Next(b, o, e).state == Open && since <= Next(b, o, e).openedAt
  {
  }

  /** Either something has started since event `i`, or the breaker is still open and was opened no earlier. */
  lemma {:induction false} StillOpen(o: Settings, trace: seq<Event>, i: nat, j: nat)
    requires i < j <= |trace| && Monotone(trace)
    requires trace[i].action == Fail && Trips(After(o, trace, i), o)
    requires forall k :: i < k < j ==> !Starts(After(o, trace, k), o, trace[k])
    ensures After(o, trace, j).state == Open && trace[i].time <= After(o, trace, j).openedAt
    decreases j
  {
    AfterOneMore(o, trace, j - 1);
    if i + 1 < j {
      StillOpen(o, trace, i, j - 1);
      StaysOpen(After(o, trace, j - 1), o, trace[j - 1], trace[i].time);
    }
  }

  /** Main result: after any `transitionToOpen`, whatever late outcomes arrive, no operation starts until
      `resetTimeoutMs` have passed. */
  lemma {:induction false} NothingStartsWhileOpen(o: Settings, trace: seq<Event>, i: nat, j: nat)
    requires i < j < |trace| && Monotone(trace)
    requires trace[i].action == Fail && Trips(After(o, trace, i), o)
    requires Starts(After(o, trace, j), o, trace[j])
    ensures trace[j].time >= trace[i].time + o.resetTimeoutMs
    decreases j
  {
    if k :| i < k < j && Starts(After(o, trace, k), o, trace[k]) {
      NothingStartsWhileOpen(o, trace, i, k);
    } else {
      StillOpen(o, trace, i, j);
    }
  }

  /** The outcomes after which the breaker counts anew from `transitionToOpen`, as the observer sees them: a failure
      while half open, or one that makes the last `failureThreshold` outcomes failures. */
  lemma TripsAreSeen(o: Settings, trace: seq<Event>)
    ensures var v := ObserveAll(o, trace);
            Trips(Run(FRESH, o, trace), o)
            <==> v.state == HalfOpen || LastFailed(v.outcomes, AtLeastOne(o.failureThreshold) - 1)
  {
    CountersAreTheTrace(o, trace);
    TrailingMeansLast(ObserveAll(o, trace).outcomes, AtLeastOne(o.failureThreshold) - 1);
  }

  // ---------------------------------------------------------------------------------------------
  // Retry with backoff
  // ---------------------------------------------------------------------------------------------

  function Power(base: real, exponent: nat): real {
    if exponent == 0 then 1.0 else base * Power(base, exponent - 1)
  }

  function ExponentialDelay(attempt: int, initialDelayMs: int, factor: real, maxDelayMs: int): int
    requires attempt >= 1
  {
    Min(maxDelayMs, Round(initialDelayMs as real * Power(factor, attempt - 1)))
  }

  /** The part that jitter adds: up to half the delay, and at least up to one. */
  function Added(exponential: int, random: real): int {
    var half := exponential as real / 2.0;
    (random * if half > 1.0 then half else 1.0).Floor
  }

  /** `random` is the value of `Math.random()`. */
  function ComputeDelay(attempt: int, initialDelayMs: int, factor: real, maxDelayMs: int, jitter: bool, random: real): int
    requires attempt >= 1 && 0.0 <= random < 1.0
  {
    var exponential := ExponentialDelay(attempt, initialDelayMs, factor, maxDelayMs);
    if jitter then exponential + Added(exponential, random) else exponential
  }

  lemma ProductIsPositive(a: real, b: real)
    requires a > 0.0 && b > 0.0
    ensures a * b > 0.0
  {
  }

  lemma ScaleBelow(r: real, m: real)
    requires 0.0 <= r < 1.0 && m > 0.0
    ensures 0.0 <= r * m < m
  {
    ProductIsPositive(1.0 - r, m);
    if r > 0.0 { ProductIsPositive(r, m); }
  }

  lemma QuotientBelowOne(a: real, b: real)
    requires 0.0 <= a < b
    ensures 0.0 <= a / b < 1.0 && a / b * b == a
  {
  }

  lemma FloorBelowHalf(x: real, e: int)
    requires 0.0 <= x < e as real / 2.0
    ensures 0 <= x.Floor <= (e - 1) / 2
  {
    assert x.Floor as real <= x;
  }

  lemma NothingIsAdded(exponential: int, random: real)
    requires 0.0 <= random < 1.0 && exponential <= 2
    ensures Added(exponential, random) == 0
  {
    assert random * 1.0 == random;
  }

  lemma LessThanHalfIsAdded(exponential: int, random: real)
    requires 0.0 <= random < 1.0 && exponential > 2
    ensures 0 <= Added(exponential, random) <= (exponential - 1) / 2
  {
    var half := exponential as real / 2.0;
    ScaleBelow(random, half);
    FloorBelowHalf(random * half, exponential);
  }

  /** The random value that adds the most. */
  function WorstRandom(exponential: int): (r: real)
    requires exponential > 2
    ensures 0.0 <= r < 1.0 && r * (exponential as real / 2.0) == ((exponential - 1) / 2) as real
  {
    var most := ((exponential - 1) / 2) as real;
    QuotientBelowOne(most, exponential as real / 2.0);
    most / (exponential as real / 2.0)
  }

  lemma WorstRandomAddsTheMost(exponential: int)
    requires exponential > 2
    ensures Added(exponential, WorstRandom(exponential)) == (exponential - 1) / 2
  {
  }

  /** Jitter only lengthens a delay, by less than half of it. */
  lemma JitterLengthens(attempt: int, initialDelayMs: int, factor: real, maxDelayMs: int, random: real)
    requires attempt >= 1 && 0.0 <= random < 1.0
    ensures var e := ExponentialDelay(attempt, initialDelayMs, factor, maxDelayMs);
            var d := ComputeDelay(attempt, initialDelayMs, factor, maxDelayMs, true, random);
            e <= maxDelayMs && e <= d && (d == e || d <= e + (e - 1) / 2)
  {
    var e := ExponentialDelay(attempt, initialDelayMs, factor, maxDelayMs);
    if e <= 2 { NothingIsAdded(e, random); } else { LessThanHalfIsAdded(e, random); }
  }

  /** With jitter `maxDelayMs` bounds the delay, whatever `Math.random()` returns, exactly when the most that can be
      added to the exponential delay still fits. */
  lemma MaxDelayHoldsWhenJitterFits(attempt: int, initialDelayMs: int, factor: real, maxDelayMs: int)
    requires attempt >= 1
    ensures var e := ExponentialDelay(attempt, initialDelayMs, factor, maxDelayMs);
            (forall random :: 0.0 <= random < 1.0 ==>
               ComputeDelay(attempt, initialDelayMs, factor, maxDelayMs, true, random) <= maxDelayMs)
            <==> e <= 2 || e + (e - 1) / 2 <= maxDelayMs
  {
    var e := ExponentialDelay(attempt, initialDelayMs, factor, maxDelayMs);
    if e <= 2 || e + (e - 1) / 2 <= maxDelayMs {
      forall random | 0.0 <= random < 1.0
        ensures ComputeDelay(attempt, initialDelayMs, factor, maxDelayMs, true, random) <= maxDelayMs
      {
        JitterLengthens(attempt, initialDelayMs, factor, maxDelayMs, random);
        if e <= 2 { NothingIsAdded(e, random); }
      }
    } else {
      WorstRandomAddsTheMost(e);
      assert ComputeDelay(attempt, initialDelayMs, factor, maxDelayMs, true, WorstRandom(e)) > maxDelayMs;
    }
  }

  /** An input that fails: 200 ms, at most 200 ms and an even chance make 250 ms. */
  lemma JitterExceedsTheMaximum()
    ensures ComputeDelay(1, 200, 2.0, 200, true, 0.5) == 250
  {
    assert 0.5 * 100.0 == 50.0;
  }

  /** Without jitter the delays never shrink. */
  lemma BackoffGrows(attempt: int, initialDelayMs: int, factor: real, maxDelayMs: int)
    requires attempt >= 1 && initialDelayMs >= 0 && factor >= 1.0
    ensures ExponentialDelay(attempt, initialDelayMs, factor, maxDelayMs)
         <= ExponentialDelay(attempt + 1, initialDelayMs, factor, maxDelayMs)
  {
    PowerIsPositive(factor, attempt - 1);
    var p := Power(factor, attempt - 1);
    assert Power(factor, attempt) == factor * p;
    assert (factor - 1.0) * p >= 0.0;
    assert initialDelayMs as real * (factor * p - p) >= 0.0;
    assert initialDelayMs as real * (factor * p) >= initialDelayMs as real * p;
  }

  lemma {:induction false} PowerIsPositive(base: real, e: nat)
    requires base >= 1.0
    ensures Power(base, e) >= 1.0
  {
    if e > 0 {
      PowerIsPositive(base, e - 1);
      assert (base - 1.0) * Power(base, e - 1) >= 0.0;
    }
  }

  lemma {:induction false} PowerOfWhole(base: nat, e: nat)
    ensures Power(base as real, e) == Pow(base, e) as real
  {
    if e > 0 {
      PowerOfWhole(base, e - 1);
    }
  }

  lemma WholeProduct(a: int, b: nat)
    ensures Round(a as real * b as real) == a * b
  {
    assert a as real * b as real == (a * b) as real;
  }

  /** With a whole factor, such as the default 2, the delay is the initial one times the factor once per earlier
      attempt, up to the maximum. */
  lemma DelayMultiplies(attempt: int, initialDelayMs: int, factor: nat, maxDelayMs: int, random: real)
    requires attempt >= 1 && 0.0 <= random < 1.0
    ensures ComputeDelay(attempt, initialDelayMs, factor as real, maxDelayMs, false, random)
         == if initialDelayMs * Pow(factor, attempt - 1) <= maxDelayMs then initialDelayMs * Pow(factor, attempt - 1)
            else maxDelayMs
  {
    PowerOfWhole(factor, attempt - 1);
    WholeProduct(initialDelayMs, Pow(factor, attempt - 1));
  }

  /** With any factor, one attempt more multiplies the unrounded delay by it; rounding moves it by at most a half. */
  lemma DelayFollowsFactor(attempt: int, initialDelayMs: int, factor: real, maxDelayMs: int, exact: real)
    requires attempt >= 1 && exact == initialDelayMs as real * Power(factor, attempt - 1) <= maxDelayMs as real
    ensures var e := ExponentialDelay(attempt, initialDelayMs, factor, maxDelayMs);
            exact - 0.5 <= e as real <= exact + 0.5
    ensures attempt == 1 ==> exact == initialDelayMs as real
    ensures initialDelayMs as real * Power(factor, attempt) == exact * factor
  {
    RoundIsNearest(exact);
    assert Power(factor, attempt) == factor * Power(factor, attempt - 1);
    if attempt == 1 { assert Power(factor, 0) == 1.0; }
  }

  datatype Outcome<+T, +E> = Value(value: T) | Thrown(error: E) | NothingTried

  /** `operation(k)` is what the k-th attempt would end with. */
  method RetryWithBackoff<T, E>(operation: int -> Outcome<T, E>, shouldRetry: (E, int) -> bool,
                                maxAttempts: int, initialDelayMs: int, maxDelayMs: int, factor: real, jitter: bool,
                                random: int -> real)
    returns (r: Outcome<T, E>, attempts: nat, delays: seq<int>)
    requires forall k :: !operation(k).NothingTried?
    requires forall k :: 0.0 <= random(k) < 1.0
    ensures maxAttempts < 1 <==> attempts == 0
    ensures attempts == 0 ==> r == NothingTried && delays == []
    ensures attempts > 0 ==>
              && attempts <= maxAttempts && r == operation(attempts)
              && (r.Thrown? ==> attempts == maxAttempts || !shouldRetry(r.error, attempts))
    ensures forall k :: 1 <= k < attempts ==> operation(k).Thrown? && shouldRetry(operation(k).error, k)
    ensures attempts > 0 ==> |delays| == attempts - 1
    ensures forall k :: 0 <= k < |delays| ==>
              delays[k] == ComputeDelay(k + 1, initialDelayMs, factor, maxDelayMs, jitter, random(k + 1))
  {
    attempts, delays := 0, [];
    for attempt := 1 to (if maxAttempts < 1 then 1 else maxAttempts + 1)
      invariant attempts == attempt - 1 && |delays| == attempts
      invariant forall k :: 1 <= k <= attempts ==>
                  k < maxAttempts && operation(k).Thrown? && shouldRetry(operation(k).error, k)
      invariant forall k :: 0 <= k < |delays| ==>
                  delays[k] == ComputeDelay(k + 1, initialDelayMs, factor, maxDelayMs, jitter, random(k + 1))
    {
      attempts := attempt;
      r := operation(attempt);
      if r.Value? { return; }
      var canRetry := attempt < maxAttempts && shouldRetry(r.error, attempt);
      if !canRetry { return; }
      delays := delays + [ComputeDelay(attempt, initialDelayMs, factor, maxDelayMs, jitter, random(attempt))];
    }
    r := NothingTried;
  }

  lemma {:induction false} RunFromSecond(b: Breaker, o: Settings, e: Event, trace: seq<Event>)
    ensures Run(b, o, [e] + trace) == Run(Next(b, o, e), o, trace)
  {
    if trace == [] {
      assert [e] + trace == [e] && [e][..0] == [];
    } else {
      assert ([e] + trace)[..|trace|] == [e] + trace[..|trace| - 1];
      RunFromSecond(b, o, e, trace[..|trace| - 1]);
    }
  }

  // ---------------------------------------------------------------------------------------------
  // The breaker as the class it is, and `publishMessage` as its client
  // ---------------------------------------------------------------------------------------------

  class CircuitBreaker {
    const options: Settings
    var state: CircuitState
    var failureCount: int
    var successCount: int
    var openedAt: int

    ghost function View(): Breaker
      reads this
    {
      Breaker(state, failureCount, successCount, openedAt)
    }

    constructor (options: Settings)
      ensures View() == FRESH && this.options == options
    {
      this.options := options;
      state, failureCount, successCount, openedAt := Closed, 0, 0, 0;
    }

    method TransitionToOpen(now: int)
      modifies this
      ensures View() == ToOpen(old(View()), now)
    {
      state := Open;
      openedAt := now;
      successCount := 0;
    }

    method TransitionToHalfOpen()
      modifies this
      ensures View() == ToHalfOpen(old(View()))
    {
      state := HalfOpen;
      failureCount := 0;
      successCount := 0;
    }

    method TransitionToClosed()
      modifies this
      ensures View() == ToClosed(old(View()))
    {
      state := Closed;
      failureCount := 0;
      successCount := 0;
      openedAt := 0;
    }

    /** `execute` up to its `await`; a refused call throws. */
    method Start(now: int) returns (started: bool)
      modifies this
      ensures View() == Next(old(View()), options, At(now, Begin))
      ensures started <==> Starts(old(View()), options, At(now, Begin))
    {
      started := state != Open || now - openedAt >= options.resetTimeoutMs;
      if started && state == Open {
        TransitionToHalfOpen();
      }
    }

    method EndWithSuccess(now: int)
      modifies this
      ensures View() == Next(old(View()), options, At(now, Succeed))
    {
      if state == HalfOpen {
        successCount := successCount + 1;
        if successCount >= options.successThreshold {
          TransitionToClosed();
        }
      } else {
        failureCount := 0;
      }
    }

    method EndWithFailure(now: int)
      modifies this
      ensures View() == Next(old(View()), options, At(now, Fail))
    {
      if state == HalfOpen {
        TransitionToOpen(now);
      } else {
        failureCount := failureCount + 1;
        if failureCount >= options.failureThreshold {
          TransitionToOpen(now);
        }
      }
    }

    /** What other operations do to the breaker while this one awaits. */
    method Others(events: seq<Event>)
      modifies this
      ensures View() == Run(old(View()), options, events)
    {
      for i := 0 to |events|
        invariant View() == Run(old(View()), options, events[..i])
      {
        assert events[..i + 1][..i] == events[..i];
        var now := events[i].time;
        match events[i].action {
          case Begin => var started := Start(now);
          case Succeed => EndWithSuccess(now);
          case Fail => EndWithFailure(now);
        }
      }
      assert events[..|events|] == events;
    }

    /** `publishMessage`: `channel(k)` is whether the k-th attempt gets the message into the channel, `meanwhile` what
        other operations do between the start and the end. However many attempts are made, the breaker sees
        one outcome of this one. */
    method PublishMessage(channel: int -> bool, random: int -> real, begin: int, meanwhile: seq<Event>, end: int)
      returns (published: bool, attempts: nat)
      requires forall k :: 0.0 <= random(k) < 1.0
      modifies this
      ensures attempts == 0 <==> !Starts(old(View()), options, At(begin, Begin))
      ensures attempts == 0 ==> !published && View() == old(View())
      ensures attempts > 0 ==>
                && View() == Run(old(View()), options,
                                 [At(begin, Begin)] + meanwhile + [At(end, if published then Succeed else Fail)])
                && attempts <= 4 && (published <==> channel(attempts)) && (forall k :: 1 <= k < attempts ==> !channel(k))
                && (!published ==> attempts == 4)
    {
      attempts, published := 0, false;
      var started := Start(begin);
      if started {
        var attempt := (k: int) => if channel(k) then Value(true) else Thrown(false);
        var outcome, tries, delays := RetryWithBackoff<bool, bool>(
          attempt, (e, k) => true, 4, 200, 5_000, 2.0, true, random);
        attempts := tries;
        published := outcome.Value?;
        forall k | 1 <= k < attempts ensures !channel(k) {
          assert attempt(k).Thrown?;
        }
        Others(meanwhile);
        if published { EndWithSuccess(end); } else { EndWithFailure(end); }
        RunFromSecond(old(View()), options, At(begin, Begin), meanwhile);
        assert ([At(begin, Begin)] + meanwhile + [At(end, if published then Succeed else Fail)])[..1 + |meanwhile|]
            == [At(begin, Begin)] + meanwhile;
      }
    }
  }
}
