# WalletX: models and proofs

WalletX is a wallet platform. This project models its small stateful protocols in Dafny and proves what they
promise over all inputs, runs and interleavings.

Each module follows one source file. Code that updates objects, tables or Redis keys is a class (or a set of
methods on a class) whose methods are proved against a specification function on values; the promises are then
proved about runs of those functions. A call that awaits is cut at its awaits, and anything may happen in between.

| file | models |
|---|---|
| BroadcastLeader.dfy, Election.dfy | one browser tab of the leader election, and any number of tabs on a channel that delivers in any order |
| Debit.dfy | concurrent bank debits with optimistic locking, with databases and publishes that may throw |
| Resilience.dfy | the circuit breaker with operations in flight across state changes, and retry with backoff |
| Arithmetic.dfy, Options.dfy, Sequences.dfy | helpers shared by the other files |
| Redis.dfy, RateLimit.dfy, Otp.dfy, LeaseLock.dfy | keys with expiry, and the fixed-window limiter, the OTP lockout and the lease lock built on them |
| Consumer.dfy | the RabbitMQ consumer with delayed retries and dead letters, and the requeue loop |
| Outbox.dfy | concurrent claims of outbox rows |
| Sessions.dfy | access and refresh tokens, and the logins that replace them |
| Currency.dfy | rupees and paise under floating-point rounding |
| MemoryCache.dfy | the in-process cache |
| LedgerCache.dfy | how transaction events are folded into cached lists |

Assumptions: tab ids, lock tokens, session ids and refresh token ids are unique; clocks are monotone; INCR followed
by EXPIRE is one step; other writers of a bank account bump its version.

Where the obvious promise is false of the code, lemmas give an input and say exactly when it holds:

- Two leaders can exist at once (`Election.TwoLeadersAreReachable`): there is never more than one exactly as long as
  no tab is promoted while another leads (`Election.OneLeaderUnlessSecondPromotion`).
- Several leaders converge to the largest (`Election.ReachableLeadersConverge`), but a leader that closes can leave a
  heartbeat behind that demotes its successor (`Election.ClosedLeaderDemotesItsSuccessor`); the largest survives
  exactly when no such heartbeat is on its way to it (`Election.LeadersConverge`).
- A tab destroyed while electing still promotes itself (`BroadcastLeaders.DestroyedTabStillPromotes`).
- `maxDelayMs` bounds a delay with jitter exactly when the most that jitter can add still fits
  (`Resilience.MaxDelayHoldsWhenJitterFits`, `Resilience.JitterExceedsTheMaximum`).
- A debit for a negative amount credits the account (`Debit.NegativeDebitRaisesBalance`): none does exactly as long as
  no committed amount is negative (`Debit.NegativeAmountsCredit`).
- A published outbox row can be claimed again exactly after somebody who does not hold it marks it failed
  (`Outbox.PublishedRowIsTakenAgain`, `Outbox.StrayFailureRevives`).
- A claimed outbox row can be claimed by a second worker (`Outbox.HeldRowIsTaken`): no row is in two hands exactly as
  long as no SELECT takes a held row (`Outbox.ClaimsAreExclusive`), which one can do exactly once the last mark by
  somebody who does not hold the row says failed and its retry time has come (`Outbox.HeldRowCanBeTaken`). It is
  enough that nobody marks a row that somebody else holds (`Outbox.RespectKeepsOneHand`).
- The memory cache exceeds its size exactly when a new key is set while it is full with the empty key first
  (`MemoryCaches.FitsUnlessOverfilled`, `MemoryCaches.EmptyKeyLiftsTheBound`).
- A list of recent transactions that starts empty never holds more than one (`LedgerCache.RecentIsAWindow`),
  although the code's default suggests ten.
- `requeueDlqMessages` from a queue to itself may count a message more than once (`Consumer.Channel.RequeueDlqMessages`).
- Revoking a user's sessions leaves their refresh tokens usable (`Sessions.SecondTokenAfterLogin`): a user has a second
  usable access token after a login exactly if an earlier refresh token of theirs is rotated that would have
  rotated without it (`Sessions.RefreshTokensSurviveLogin`).

Amounts are exact under every rounding with a relative error of at most 2^-53, the bound that all the roundings of
JavaScript's numbers meet, exactly below 2^51 paise (`Currency.RoundTripsBelowTheLimit`,
`Currency.SchemaAmountsAreExactBelowTheLimit`). From there on that bound alone does not decide; rounding to nearest may
still be exact for some amounts.

## Model

| member | source | states |
|---|---|---|
| `BroadcastLeaders.EveryLifeIsSound` | apps/user-ui/lib/realtime/BroadcastLeader.ts:40-128 | In every run of one tab before `destroy`, leadership callbacks alternate starting with true and agree with the role; a leader is not electing, has no armed failover timer and exactly one running heartbeat interval; a follower has no interval and at most one failover timer; a running election always has a timer to end it. |
| `BroadcastLeaders.ReactKeepsSound` | apps/user-ui/lib/realtime/BroadcastLeader.ts:40-124 | Each message and each timer keeps that invariant, and only a leader posts anything but ELECTION. |
| `BroadcastLeaders.HearingRestartsFailover` | apps/user-ui/lib/realtime/BroadcastLeader.ts:49-67 | Hearing a leader, or yielding, leaves exactly one armed failover timer, a new one; a heartbeat does not cancel a running election, a better candidate's ELECTION does. |
| `BroadcastLeaders.SignalsAreForwarded` | apps/user-ui/lib/realtime/BroadcastLeader.ts:43-47 | In every run each external signal reaches the subscriber, in order and once, whatever the tab's role. |
| `BroadcastLeaders.EveryElectionHasItsTimer` | apps/user-ui/lib/realtime/BroadcastLeader.ts:79-92 | In every run each ELECTION a tab posts arms one 500 ms timer, which fires once and is never cancelled. |
| `BroadcastLeaders.FailoverFiresOnce` | apps/user-ui/lib/realtime/BroadcastLeader.ts:118-128 | A failover timer fires at most once, and its tab then announces an election. |
| `BroadcastLeaders.DestroyedTabStillPromotes` | apps/user-ui/lib/realtime/BroadcastLeader.ts:86-91 | After `destroy` the election timers still fire: the closed tab reports itself leader once exactly when it was destroyed while electing; RESIGN is posted exactly by leaders. |
| `BroadcastLeaders.BroadcastLeader.constructor` | apps/user-ui/lib/realtime/BroadcastLeader.ts:13-38 | A new tab starts as a blank follower that has just posted ELECTION. |
| `BroadcastLeaders.BroadcastLeader.StartElectionNow` | apps/user-ui/lib/realtime/BroadcastLeader.ts:79-92 | Refines the specification: a leader does nothing; others elect, post ELECTION and arm a 500 ms timer. |
| `BroadcastLeaders.BroadcastLeader.PromoteNow` | apps/user-ui/lib/realtime/BroadcastLeader.ts:94-102 | Refines the specification of promotion, including the callback and the interval it starts. |
| `BroadcastLeaders.BroadcastLeader.DemoteNow` | apps/user-ui/lib/realtime/BroadcastLeader.ts:104-112 | Refines the specification of demotion: the callback and the interval only if it led. |
| `BroadcastLeaders.BroadcastLeader.ResetFailoverNow` | apps/user-ui/lib/realtime/BroadcastLeader.ts:118-128 | Refines the specification: the armed failover timer is replaced by a new one. |
| `BroadcastLeaders.BroadcastLeader.OnMessage` | apps/user-ui/lib/realtime/BroadcastLeader.ts:40-77 | Refines the message handler, branch by branch, and keeps the tab's invariant. |
| `BroadcastLeaders.BroadcastLeader.OnElectionTimer` | apps/user-ui/lib/realtime/BroadcastLeader.ts:87-91 | Refines the 500 ms timer's callback and keeps the invariant. |
| `BroadcastLeaders.BroadcastLeader.OnFailoverTimer` | apps/user-ui/lib/realtime/BroadcastLeader.ts:121-123 | Refines the failover timer's callback and keeps the invariant. |
| `BroadcastLeaders.BroadcastLeader.Close` | apps/user-ui/lib/realtime/BroadcastLeader.ts:134-141 | Refines `destroy`. |
| `Election.OnlyTheTopTabCanWin` | apps/user-ui/lib/realtime/BroadcastLeader.ts:61-112 | From a quiet leaderless channel, with tabs joining, failing over and receiving in any order and no 500 ms timer firing: once everything has arrived, exactly the tab with the largest id is electing (if there was any election), so exactly it can be promoted. |
| `Election.OneLeaderEmerges` | apps/user-ui/lib/realtime/BroadcastLeader.ts:86-102 | Continuing such a run, the timer of the top tab can fire, makes it the only leader, and no election timer left anywhere can promote another tab. |
| `Election.DeliverKeepsContested` | apps/user-ui/lib/realtime/BroadcastLeader.ts:61-76 | The invariant behind it: every other election has its ELECTION on the way to the top tab, or the top tab's on the way to it. |
| `Election.JoinKeepsContested` | apps/user-ui/lib/realtime/BroadcastLeader.ts:36-37 | A new tab keeps the invariant, also when its id is the new largest. |
| `Election.DeliveryLowersPotential` | apps/user-ui/lib/realtime/BroadcastLeader.ts:40-92 | Every delivery lowers the potential that weighs HEARTBEAT 1, ELECTION(x) n^(rank(x)+1) and RESIGN n^(n+1). |
| `Election.CascadesAreFinite` | apps/user-ui/lib/realtime/BroadcastLeader.ts:40-92 | A run of deliveries, in any order, is no longer than the potential it starts with. |
| `Election.EveryCascadeDrains` | apps/user-ui/lib/realtime/BroadcastLeader.ts:40-92 | From every state without echoes there is a run of deliveries that empties the channel. |
| `Election.RunKeepsNoEcho` | apps/user-ui/lib/realtime/BroadcastLeader.ts:36-92 | No tab's own election ever comes back to it: the condition of the three results above holds in every run from the empty channel, with any timers and with tabs that join and close. |
| `Election.OneLeaderUnlessSecondPromotion` | apps/user-ui/lib/realtime/BroadcastLeader.ts:49-102 | There is at most one leader in every state of a run exactly when no step of it is a 500 ms timer that fires at an electing tab while another tab leads. |
| `Election.SecondPromotionMakesTwo` | apps/user-ui/lib/realtime/BroadcastLeader.ts:86-102 | One step of any kind turns at most one leader into two exactly if it is such a promotion. |
| `Election.ReachableLeadersConverge` | apps/user-ui/lib/realtime/BroadcastLeader.ts:49-59 | On a channel grown from the empty one in which no leader has closed, with several leaders, once each other one has heard the largest (or closed, after another one demoted it) and everything is delivered, in any order, with tabs joining and followers closing but no promotion and no leader closing, exactly the largest is left. |
| `Election.LeadersConverge` | apps/user-ui/lib/realtime/BroadcastLeader.ts:49-59 | The same from any state, reachable or not: no other leader is left, and the largest is left exactly when no heartbeat with a larger id was on its way to it. |
| `Election.ClosedLeaderDemotesItsSuccessor` | apps/user-ui/lib/realtime/BroadcastLeader.ts:134-141 | A run from the empty channel in which such a heartbeat, left behind by a leader that has closed, demotes the only leader there is. |
| `Election.LeadersOnlyStepDown` | apps/user-ui/lib/realtime/BroadcastLeader.ts:49-73 | Without promotions, and with tabs joining and followers closing, a leader stops leading exactly at the delivery of a heartbeat with a larger id and nobody starts to. |
| `Election.LeadersTellEverybody` | apps/user-ui/lib/realtime/BroadcastLeader.ts:61-64 | A leader that hears of an election, whoever's it is, or whose heartbeat timer fires, tells every other tab that it leads, and leads on. |
| `Election.LeadersResign` | apps/user-ui/lib/realtime/BroadcastLeader.ts:134-141 | A leader that closes leaves its resignation to every other tab. |
| `Election.ResignationsAreAnswered` | apps/user-ui/lib/realtime/BroadcastLeader.ts:75-84 | A follower that hears a resignation elects and announces it to all the others. |
| `Election.TwoLeadersAreReachable` | apps/user-ui/lib/realtime/BroadcastLeader.ts:55-58 | A run from the empty channel that ends with two leaders and every message delivered, by a promotion while another tab leads: a heartbeat does not cancel a follower's election. |
| `Debit.ConcurrentDebitsAreSequential` | apps/bank-service/src/services/debit.service.ts:30-202 | In every interleaving of calls that may fail to read, update or publish, with other writers that bump `version`: the row is the sequential replay of the committed writes, each committed debit succeeds in that replay, the balance is never negative (for any amounts), `version` counts the writes; each answer is the one the atomic debit gives at the moment of the read or the commit, a conflict means another write was committed since, success means exactly one decrement, a specific failure none; a success event implies the decrement. |
| `Debit.NoLostUpdate` | apps/bank-service/src/services/debit.service.ts:128-137 | In every run a debit is committed only if no write at all was committed between its read and itself. |
| `Debit.ConflictExactlyAfterAWrite` | apps/bank-service/src/services/debit.service.ts:128-169 | In every run an update that reaches the row debits it and succeeds exactly if no write was committed since its read; otherwise the row stays and the answer is CONCURRENT_UPDATE; if its answer is lost it has done one or the other all the same. |
| `Debit.AnswersAreExplained` | apps/bank-service/src/services/debit.service.ts:43-169 | In every run each answer is explained, check by check in their order, by the row as it was when the call read it; it has been published, and no other answer of the call has unless it is INTERNAL_ERROR. |
| `Debit.NextKeepsInv` | apps/bank-service/src/services/debit.service.ts:30-202 | One step of any call, or of another writer, keeps that invariant. |
| `Debit.DebitsConserveMoney` | apps/bank-service/src/services/debit.service.ts:128-137 | If debits are the only writers, the balance has dropped by exactly the committed amounts and `version` has grown by their number. |
| `Debit.NegativeAmountsCredit` | apps/bank-service/src/services/debit.service.ts:21-102 | The amount's sign is not checked: in any run, no committed debit raises the balance exactly when none of the committed amounts is negative. |
| `Debit.NegativeDebitRaisesBalance` | apps/bank-service/src/services/debit.service.ts:21-137 | For every account in use and every negative amount there is a run in which one call raises the balance by it. |
| `Debit.InternalErrorLeavesItOpen` | apps/bank-service/src/services/debit.service.ts:172-202 | For every account that can be debited there are two runs answered INTERNAL_ERROR, one of which debited the row and announced both success and failure. |
| `Debit.BankService.FindAndCheck` | apps/bank-service/src/services/debit.service.ts:30-125 | Refines the read step: the checks in the order of the source. |
| `Debit.BankService.ConditionalUpdate` | apps/bank-service/src/services/debit.service.ts:128-137 | Refines `updateMany`: decrement and version bump exactly if the version is the one read; the count of rows. |
| `Debit.BankService.DebitOptimistically` | apps/bank-service/src/services/debit.service.ts:128-169 | Refines the update step with its three outcomes. |
| `Debit.BankService.PublishResult` | apps/bank-service/src/services/debit.service.ts:52-202 | Refines a publish, possibly repeated, possibly throwing, with the second publish of the `catch` block. |
| `Debit.BankService.DebitAccount` | apps/bank-service/src/services/debit.service.ts:16-203 | One call among others, which may act before each of its steps, and whose awaits may throw: what happens to the bank is a run of the modelled steps, at whose end this call is answered or rejected; a call that nothing disturbs changes the row and answers exactly as the atomic debit, and emits that answer once. |
| `Resilience.CountersAreTheTrace` | packages/libs/src/resilience.ts:80-163 | For every trace of interleaved starts and outcomes and all thresholds, state and counters are what a counter-free observer of the outcomes says. |
| `Resilience.OpensAfterConsecutiveFailures` | packages/libs/src/resilience.ts:155-159 | CLOSED becomes OPEN exactly at a failure that makes the last `failureThreshold` outcomes since closing failures, which are the last outcomes of the whole trace. |
| `Resilience.ClosesAfterEnoughSuccesses` | packages/libs/src/resilience.ts:142-154 | HALF_OPEN becomes CLOSED exactly at the success completing `successThreshold` since entry, with none failed, and OPEN exactly at a failure. |
| `Resilience.NothingStartsWhileOpen` | packages/libs/src/resilience.ts:100-137 | After any `transitionToOpen`, with a monotone clock and whatever late outcomes, no operation starts before `resetTimeoutMs` have passed. |
| `Resilience.StartsUnlessOpened` | packages/libs/src/resilience.ts:100-105 | After every trace an operation may start exactly unless the breaker has been opened and `resetTimeoutMs` have not passed; a counter-free observer says when it was opened. |
| `Resilience.TripsAreSeen` | packages/libs/src/resilience.ts:152-160 | `transitionToOpen` is called exactly for a failure while half open, or one that makes the last `failureThreshold` outcomes failures. |
| `Resilience.CircuitBreaker.Start` | packages/libs/src/resilience.ts:130-137 | Refines `execute` up to its `await`: whether it starts, and the move to HALF_OPEN. |
| `Resilience.CircuitBreaker.EndWithSuccess` | packages/libs/src/resilience.ts:139-151 | Refines the handling of a success in any state. |
| `Resilience.CircuitBreaker.EndWithFailure` | packages/libs/src/resilience.ts:152-162 | Refines the handling of a failure in any state. |
| `Resilience.CircuitBreaker.PublishMessage` | packages/rabbitmq/src/publisher.ts:11-50 | A publish is refused without an attempt, or makes at most four, up to the first that works; whatever other operations do meanwhile, the breaker's trace has one start and one outcome of this one around theirs. |
| `Resilience.RetryWithBackoff` | packages/libs/src/resilience.ts:33-72 | The result is that of the first attempt that succeeds, may not be retried or is the last; every earlier one failed and was retryable; one delay, the computed one, between attempts; with no attempts allowed nothing is tried. |
| `Resilience.MaxDelayHoldsWhenJitterFits` | packages/libs/src/resilience.ts:15-31 | With jitter the delay stays within `maxDelayMs`, for every random number, exactly when the exponential delay e is at most 2 or e plus (e - 1) / 2 still fits. |
| `Resilience.JitterExceedsTheMaximum` | packages/libs/src/resilience.ts:22-30 | An input that fails: 200 ms with a maximum of 200 ms becomes 250 ms. |
| `Resilience.JitterLengthens` | packages/libs/src/resilience.ts:15-31 | Jitter only adds, and at most (e - 1) / 2. |
| `Resilience.BackoffGrows` | packages/libs/src/resilience.ts:22-27 | Without jitter and with factor at least 1 delays never shrink. |
| `Resilience.DelayMultiplies` | packages/libs/src/resilience.ts:22-27 | With a whole factor the delay without jitter is the initial one times the factor once per earlier attempt, up to the maximum. |
| `Resilience.DelayFollowsFactor` | packages/libs/src/resilience.ts:22-27 | With any factor each attempt multiplies the delay by it before rounding, which moves it by at most a half. |
| `Redis.Client.HitCounter` | packages/redis/src/rateLimit.ts:8-12 | INCR and, on the first hit, EXPIRE: a live counter counts on with its expiry, otherwise a new window opens; other keys are untouched. |
| `RateLimit.AtMostTwoWindowsLessOne` | packages/redis/src/rateLimit.ts:3-18 | In every timed run with limit at least 1, any half-open interval of length `ttl` holds at most 2 * limit - 1 allowed calls. |
| `RateLimit.FewCallsAreAllowed` | packages/redis/src/rateLimit.ts:3-18 | A call is never refused while no more than `limit` calls, this one included, were made within the last `ttl`. |
| `RateLimit.BoundIsAttained` | packages/redis/src/rateLimit.ts:3-18 | For every limit and every `ttl` of at least two ticks some run attains that bound. |
| `RateLimit.CheckRateLimit` | packages/redis/src/rateLimit.ts:3-18 | The function on a Redis key computes that run's next state; `remaining` is what is left of the limit. |
| `RateLimit.GetRemainingAttempts` | packages/redis/src/rateLimit.ts:20-25 | Agrees with the live counter; the whole limit if there is none. |
| `Otp.LockoutLastsThirtyMinutes` | packages/redis/src/otp.ts:124-145 | After the attempt that exceeds the limit at t, every request and comparison is answered Locked exactly until t + 1800, and then the failure counter is gone. |
| `Otp.SpamLockLastsThirtyMinutes` | packages/redis/src/otp.ts:103-112 | One request too many at t refuses every request before t + 1800, unless an OTP is accepted; the first one after that is granted again, if any is allowed and there is no lock for wrong guesses. |
| `Otp.FirstRequestsAreGranted` | packages/redis/src/otp.ts:91-122 | Of requests at least 60 s apart within 600 s exactly the first maxRequests are granted; the others are refused as spam. |
| `Otp.GrantsAreBounded` | packages/redis/src/otp.ts:91-122 | Unless an OTP is accepted, any half-open ten minutes see at most 2 * maxRequests - 1 granted requests (none, if none is allowed). |
| `Otp.AcceptedStartsAfresh` | packages/redis/src/otp.ts:154-162 | A right guess is accepted unless there is a lock, and everything later is answered as if nothing had happened before it. |
| `Otp.RefusalsLeaveNoTrace` | apps/auth-service/src/services/login.service.ts:205-309 | A request or a guess that is refused without being counted changes nothing for what comes later. |
| `Otp.RemainingCountsDown` | packages/redis/src/otp.ts:134-151 | The number of attempts that are said to remain is the truth: each wrong guess at once leaves one less, and the last one locks. |
| `Otp.FirstGuess` | packages/redis/src/otp.ts:124-152 | The first wrong guess leaves maxAttempts - 1, or locks if one is allowed. |
| `Otp.GuessesAreBounded` | packages/redis/src/otp.ts:124-152 | Unless an OTP is accepted, any half-open ten minutes see at most 2 * maxAttempts - 2 failed comparisons (one if maxAttempts is below 2). |
| `Otp.GuessBoundIsAttained` | packages/redis/src/otp.ts:124-152 | For all limits with at least one request allowed, a run that the login service can produce (OTPs are granted before they are guessed at and live 300 s) attains that bound. |
| `Otp.NoRequestsNoGuesses` | apps/auth-service/src/services/login.service.ts:205-309 | If no request is allowed, no run that the service can produce has a failed comparison. |
| `Otp.GrantsAreAMinuteApart` | packages/redis/src/otp.ts:91-122 | Granted requests with no accepted OTP in between are at least 60 s apart. |
| `Otp.KeysDiffer` | packages/redis/src/keys.ts:10-19 | The five keys of one scope and identifier are pairwise different for all strings. |
| `Otp.GetOtpRestrictions` | packages/redis/src/otp.ts:74-89 | The three restrictions are those of the live keys. |
| `Otp.TrackOtpRequest` | packages/redis/src/otp.ts:91-122 | Refines the request counter with its spam lock or cooldown on string keys. |
| `Otp.TrackOtpFailure` | packages/redis/src/otp.ts:124-152 | Refines the failure counter with its lock on string keys. |
| `Otp.ClearOtpTracking` | packages/redis/src/otp.ts:154-162 | Nothing is tracked afterwards. |
| `Otp.RequestLoginOtp` | apps/auth-service/src/services/login.service.ts:205-219 | The request half of a login is the machine's request step: lock, spam lock, cooldown, in this order. |
| `Otp.VerifyLoginOtp` | apps/auth-service/src/services/login.service.ts:265-309 | The verification is the machine's verify step. |
| `LeaseLock.SectionsDoNotOverlap` | packages/redis/src/idempotency.ts:74-130 | For all interleavings: a critical section that ends within its time to live ends before the next acquisition succeeds. |
| `LeaseLock.WinsExactlyWhenFree` | packages/redis/src/idempotency.ts:74-102 | For all interleavings an acquisition succeeds exactly if each earlier winner's time to live is over or it has released. |
| `LeaseLock.NextWinnerWaits` | packages/redis/src/idempotency.ts:74-88 | Without a release by the holder nobody acquires the lock before its time to live is over. |
| `LeaseLock.StaleReleaseIsHarmless` | packages/redis/src/idempotency.ts:90-102 | With unique tokens, a release by a superseded holder changes nothing. |
| `LeaseLock.AcquireLock` | packages/redis/src/idempotency.ts:74-88 | SET NX EX: the token is returned exactly if no live lease was there. |
| `LeaseLock.ReleaseLock` | packages/redis/src/idempotency.ts:90-102 | Compare and delete: only the live lease of this token goes. |
| `LeaseLock.AcquireWithRetries` | packages/redis/src/idempotency.ts:109-123 | The loop's result: each refused attempt found the lock held, at most fifty, the first that did not won. |
| `LeaseLock.WithLock` | packages/redis/src/idempotency.ts:104-130 | At most fifty attempts; the function runs exactly if one wins; the lock is released after it returns or throws and the token owns no live lease then. |
| `Consumer.MessagesAreConserved` | packages/rabbitmq/src/consumer.ts:45-132 | In every crash-free run a message is in exactly one of queue, handler, retry timer, DLQ and done; with initial count r it is handled at most max(0, maxRetries - r) + 1 times, exactly that often when it is dead, with one alert per dead letter. |
| `Consumer.FateOfAMessage` | packages/rabbitmq/src/consumer.ts:45-132 | In every crash-free run a message is done exactly as often as a delivery of it has succeeded, at most once; it is dead exactly if it has failed maxRetries + 1 times (less the count it came with, at least once; a missing count, or one that is no number, is 0), and then no delivery has succeeded. Content that is no JSON fails every time. |
| `Consumer.QueueKeepsOrder` | packages/rabbitmq/src/consumer.ts:54-92 | What was in the queue and what retry timers add is handed out in that order. |
| `Consumer.DeadLettersAreAlerted` | packages/rabbitmq/src/consumer.ts:94-126 | Each dead letter has its alert, in order, with the retry count of its header. |
| `Consumer.StepConserves` | packages/rabbitmq/src/consumer.ts:54-126 | No step creates or loses a message. |
| `Consumer.RunsEnd` | packages/rabbitmq/src/consumer.ts:45-132 | Every run is bounded by three steps per remaining delivery. |
| `Consumer.AtTheEndEverythingIsSettled` | packages/rabbitmq/src/consumer.ts:45-132 | A run that cannot continue has left each message either done or dead. |
| `Consumer.QueueConsumer.OnMessage` | packages/rabbitmq/src/consumer.ts:47-132 | Refines the callback: success, retry with the count raised, or dead letter with the count kept and an alert. |
| `Consumer.QueueConsumer.OnRetryTimer` | packages/rabbitmq/src/consumer.ts:78-84 | Refines the retry timer: the message goes to the end of the queue. |
| `Consumer.Channel.RequeueDlqMessages` | packages/rabbitmq/src/publisher.ts:80-115 | Moves exactly the first min(maxCount, length) dead letters in order with their counts reset; a queue requeued to itself is turned round instead, and the result is that minimum exactly when the queues differ, or there is nothing, or maxCount is no larger than the queue. |
| `Consumer.MovedLettersStartAgain` | packages/rabbitmq/src/publisher.ts:98-108 | Every dead letter that is moved counts no retries and is otherwise as it was. |
| `Outbox.ClaimsAreExclusive` | packages/db-postgres/src/outbox.ts:41-117 | In every run of concurrent claim transactions, commits, rollbacks and marks by anybody, no row is with two transactions or with a transaction and a worker in any state exactly when no SELECT of the run takes a row that a worker holds. |
| `Outbox.HeldRowCanBeTaken` | packages/db-postgres/src/outbox.ts:101-117 | Over every run in which a worker holds a row, until it marks or somebody takes it: a SELECT can take the row exactly when the last mark by somebody else says failed and its retry time has come. |
| `Outbox.RespectKeepsOneHand` | packages/db-postgres/src/outbox.ts:41-117 | If nobody marks a row that somebody else holds, no row is in two hands in any state of the run. |
| `Outbox.HeldRowIsTaken` | packages/db-postgres/src/outbox.ts:54-61 | A run from the empty table that ends with a row in two hands. |
| `Outbox.RunKeepsLocks` | packages/db-postgres/src/outbox.ts:45-61 | No row is with two transactions, and none with a transaction after it was claimed or published, in every run, whoever marks. |
| `Outbox.AttemptsCountClaims` | packages/db-postgres/src/outbox.ts:68-77 | `attempts` has grown by exactly the number of committed claims of the row, whoever marks it. |
| `Outbox.HeldUntilFailed` | packages/db-postgres/src/outbox.ts:54-61 | A committed claim is not taken again by anybody before somebody marks the row failed. |
| `Outbox.PublishedUntilMarked` | packages/db-postgres/src/outbox.ts:89-99 | After its holder has marked it published, and until somebody else marks it, a row is published, otherwise unchanged, and not taken. |
| `Outbox.EnqueuedIsTakenInTime` | packages/db-postgres/src/outbox.ts:20-39 | After it is enqueued, and until it is taken or marked, a SELECT can take a row exactly from its available time on. |
| `Outbox.RolledBackRowsAreFree` | packages/db-postgres/src/outbox.ts:41-86 | A claim that is rolled back leaves no trace: its rows can be taken exactly if they are due. |
| `Outbox.OldRowsGoFirst` | packages/db-postgres/src/outbox.ts:54-61 | A SELECT takes every due, unlocked row that has fewer than `limit` others as old as itself. |
| `Outbox.ClaimsAreOldestFirst` | packages/db-postgres/src/outbox.ts:54-61 | Every claim of a run has taken its rows oldest first. |
| `Outbox.RetryTimeIsKept` | packages/db-postgres/src/outbox.ts:101-117 | After its holder has marked it failed, and until it is taken or marked by somebody else, a SELECT can take the row exactly from the retry time on. |
| `Outbox.PublishedIsTerminal` | packages/db-postgres/src/outbox.ts:89-99 | As long as only holders mark it, a published row never changes and is never taken. |
| `Outbox.StrayFailureRevives` | packages/db-postgres/src/outbox.ts:101-117 | Over every run after a row is published: a SELECT can take it exactly when the last mark by somebody who does not hold it says failed and its retry time has come. |
| `Outbox.PublishedRowIsTakenAgain` | packages/db-postgres/src/outbox.ts:101-117 | A run from the empty table in which a row is published and can then be taken again. |
| `Outbox.OutboxTable.ClaimRows` | packages/db-postgres/src/outbox.ts:68-85 | The update loop claims exactly the chosen rows, once each, and its commit is the model's; the caller is told the attempts the table then says. |
| `Outbox.OutboxTable.MarkPublishedRow` | packages/db-postgres/src/outbox.ts:89-99 | Is the model's mark, by the holder or by somebody else. |
| `Outbox.OutboxTable.MarkFailedRow` | packages/db-postgres/src/outbox.ts:101-117 | Is the model's mark, by the holder or by somebody else. |
| `Sessions.UnexpiredTokensAreTracked` | apps/auth-service/src/services/token.service.ts:29-145 | In every sequential run an unexpired access token's session is in its user's set or blacklisted until at least the token's expiry. |
| `Sessions.LoginLeavesOneToken` | apps/auth-service/src/services/login.service.ts:158-182 | From a login on (trusted device or OTP, lines 324-358), until something else happens, the user's only usable access token is the new one, as long as it lives, and other users' tokens are as usable as before. |
| `Sessions.RotatesAtMostOnce` | apps/auth-service/src/services/token.service.ts:74-108 | Once a refresh token has rotated, every later attempt in any run is refused as expired. |
| `Sessions.LogoutIsFinal` | apps/auth-service/src/services/token.service.ts:110-124 | After a logout, in every later run, no access token of the session is usable at any time and its refresh token is refused as expired. |
| `Sessions.LogoutSpendsToken` | apps/auth-service/src/services/token.service.ts:110-124 | The refresh token given at a logout is refused ever after, whatever its session. |
| `Sessions.RotationIsForTheDevice` | apps/auth-service/src/services/token.service.ts:74-108 | A refresh token that its device has neither used nor logged out since its issue is refused as expired from seven days after it on, before that as a mismatch exactly to any other device. |
| `Sessions.RotationPassesOn` | apps/auth-service/src/services/token.service.ts:98-107 | A rotation replaces the refresh token by one for the same user and device for seven days, and issues a usable access token of that user for fifteen minutes. |
| `Sessions.RefreshTokensSurviveLogin` | apps/auth-service/src/services/token.service.ts:127-145 | Revoking all sessions does not touch refresh tokens: after a login, rotating an earlier one gives the user a second usable access token exactly when it is the user's and would have rotated without the login. |
| `Sessions.SecondTokenAfterLogin` | apps/auth-service/src/services/token.service.ts:74-145 | A run in which a user has two usable access tokens after a login and a rotation. |
| `Sessions.TokenService.IssueTokensNow` | apps/auth-service/src/services/token.service.ts:29-71 | Refines the pipeline that stores a refresh token and extends the user's session set. |
| `Sessions.TokenService.RotateTokensNow` | apps/auth-service/src/services/token.service.ts:74-108 | Refines rotation with its two errors. |
| `Sessions.TokenService.RevokeSessionNow` | apps/auth-service/src/services/token.service.ts:110-124 | Refines a logout. |
| `Sessions.TokenService.RevokeAllUserSessions` | apps/auth-service/src/services/token.service.ts:127-145 | The loop blacklists exactly the members of the live session set, then the set is gone. |
| `Currency.RoundTripsBelowTheLimit` | packages/libs/src/currency.ts:6-18 | `toPaise(toRupees(p))` is p, for every rounding with relative error at most 2^-53, exactly when 0 <= p < 2^51. |
| `Currency.RupeesRoundTrip` | packages/libs/src/currency.ts:6-18 | For every such rounding and |p| below 2^51 the round trip is p for p >= 0 and an error for p < 0. |
| `Currency.SchemaAmountsAreExactBelowTheLimit` | packages/zod-schema/src/wallet.schema.ts:56 | A schema-valid amount is read as exactly the paise it writes, for every such rounding, exactly when it is below 2^51 paise; the schema sets no upper bound. |
| `Currency.SchemaAmountsAreExact` | packages/zod-schema/src/wallet.schema.ts:56 | Below that limit it is also printed back to the same amount. |
| `Currency.Fixed2Parses` | packages/libs/src/currency.ts:14-18 | Two-decimal strings are schema-valid and write the number they were made from. |
| `Currency.OnlyFiniteNumbersAreAmounts` | packages/libs/src/currency.ts:6-12 | A number becomes an amount exactly if it is finite and not negative; each other one has its error. |
| `Currency.TextWithoutNumberIsInvalid` | packages/libs/src/currency.ts:7-8 | Text that begins with neither a digit nor a point and a digit, after a sign if there is one, is no amount. |
| `Currency.TrailingTextIsIgnored` | packages/libs/src/currency.ts:7 | What follows a schema-valid number, beginning with neither a digit nor a point, changes nothing. |
| `Currency.PointAloneReadsAsZero` | packages/libs/src/currency.ts:7 | The digits before a point may be missing. |
| `Currency.PlusIsIgnored` | packages/libs/src/currency.ts:7 | A plus sign changes nothing. |
| `MemoryCaches.HitsAreLatest` | packages/redis/src/l1Cache.ts:13-36 | In every run a hit is the latest value set for the key, not deleted since and unexpired; keys stay distinct. |
| `MemoryCaches.SizeIsBounded` | packages/redis/src/l1Cache.ts:13-24 | Without the empty key the cache never exceeds `maxSize` (one, if `maxSize` is below one). |
| `MemoryCaches.FitsUnlessOverfilled` | packages/redis/src/l1Cache.ts:13-24 | A cache that starts empty stays within `maxSize` in every state of a run exactly when no new key is set while it is full with the empty key first. |
| `MemoryCaches.EmptyKeyBlocksEviction` | packages/redis/src/l1Cache.ts:16-17 | One call of any kind makes a cache too large exactly if it is such a `set`. |
| `MemoryCaches.EmptyKeyLiftsTheBound` | packages/redis/src/l1Cache.ts:13-24 | For every n, n calls of `set` that begin with the empty key fill an empty cache with n entries, whatever `maxSize` is. |
| `MemoryCaches.NewKeysSurvive` | packages/redis/src/l1Cache.ts:13-53 | A newly inserted key is still found after up to maxSize - 1 further sets and any other calls, unless deleted, set again or expired. |
| `MemoryCaches.ResettingKeepsOrder` | packages/redis/src/l1Cache.ts:13-24 | Setting a key that is present, in a cache that is not full, renews it in its place. |
| `MemoryCaches.LookupsRemoveExpired` | packages/redis/src/l1Cache.ts:26-40 | After `get` a key is there exactly if it was a hit, after `del` it is not, and no other key is touched. |
| `MemoryCaches.CleanupLeavesTheUnexpired` | packages/redis/src/l1Cache.ts:46-53 | `cleanup` leaves exactly the entries that have not expired. |
| `MemoryCaches.MemoryCache.SetValue` | packages/redis/src/l1Cache.ts:13-24 | Refines `set` with its eviction. |
| `MemoryCaches.MemoryCache.GetValue` | packages/redis/src/l1Cache.ts:26-36 | Refines `get`: an expired entry is removed. |
| `MemoryCaches.MemoryCache.Delete` | packages/redis/src/l1Cache.ts:38-40 | Removes that key only. |
| `MemoryCaches.MemoryCache.CleanupExpired` | packages/redis/src/l1Cache.ts:46-53 | The loop, which deletes while it iterates, keeps exactly the unexpired entries in order. |
| `LedgerCache.PagesGrowAtTheFront` | apps/user-ui/lib/auth-context.tsx:175-202 | After any run of events a page's ids are the new ones in reverse order of first arrival, then the old ones in order; all distinct; total minus length is constant. |
| `LedgerCache.PageEntriesAreCurrent` | apps/user-ui/lib/auth-context.tsx:153-234 | A page holds a transaction exactly if it has a history, and holds the last full event for it with the later status patches applied. |
| `LedgerCache.UncachedPagesStaySo` | apps/user-ui/lib/auth-context.tsx:175-233 | A page that is not cached stays so, whatever arrives. |
| `LedgerCache.RecentIsAWindow` | apps/user-ui/lib/auth-context.tsx:156-173 | After any run of events a recent list shows the newest ids of the log of what has entered it, followed by the old ids, as many as at the start; so it keeps its length (an empty one grows to one entry and stays there) and the id that entered first falls off; its entries are distinct and up to date. |
| `LedgerCache.UncachedIsLikeEmpty` | apps/user-ui/lib/auth-context.tsx:156-173 | A list that is not cached stays so until the first full event and is from then on what an empty one becomes. |

## Left out

- Crashes: a retry timer or the EXPIRE after an INCR that is lost with its process is not modelled; a transaction that does not commit is a rollback.
- Tab ids as strings: they are integers in the model, since only their order matters.
- Election.OnlyTheTopTabCanWin: about runs in which no tab closes; a closing tab may take the answer to an election with it. A closed tab that promotes itself later is off the channel and is not counted among the leaders.
- The server-side mock channel, and messages posted by `broadcast` with a type of the election protocol.
- Integer widths: account balances and versions are unbounded; the database's 64-bit and 32-bit columns are not modelled.
- Parsing of the debit amount: `BigInt` of a malformed string throws before anything is read.
- Deletion of a bank account between read and update.
- OTP verification that is not atomic: two verifications in flight at once can pass the lock check together.
- The stored OTP itself: whether one is pending is an input of a verification, for any device; its expiry and deletion matter only to the run that attains the bound on guesses.
- `storeOtp`, `incrementOTPAttempts` and the other single-command helpers: easy members.
- `checkIdempotency` and `storeIdempotencyResponse`: a hash comparison and a write.
- `Math.pow` and the product in `computeDelay` are exact reals and the initial delay is a whole number: their rounding is not modelled.
- The waits of the consumer: retry timers fire in any order, so `computeBackoffDelayMs` does not matter to what is proved.
- Retry counts that are fractions: a header is a whole number, missing or not a number. The fields `x-original-queue`, `x-last-error` and the like are omitted.
- The choice of the dead-letter queue by name: one queue with its dead-letter queue is modelled.
- Failures of the broker while a dead letter is being moved.
- The SQL engine: the answer of the SELECT is any answer it may give under SKIP LOCKED.
- The outbox dispatcher in the worker service: who marks a row is a matter of the run.
- Concurrent token calls: two rotations of one refresh token that both read it before either deletes it.
- CSRF tokens, cookies, e-mail and role fields of tokens; device trust; user and profile lookups.
- Strings with an exponent, surrounding blanks or "Infinity", and amounts that overflow a double, in `parseFloat`; `toFixed` of 10^21 rupees and more, which prints an exponent; `toRupees` of a string or a number; `format`, `validate`, `add`, `subtract`, `percentage`.
- The periodic timer that calls `cleanup`: it may run at any time.
- Hashing, signing and random generation: their results are inputs.
- User interface, routes, proxies, configuration and seed data.
