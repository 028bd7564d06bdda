# Verified model of the webhook delivery service

A Dafny model of the service that accepts events, delivers them to subscribed endpoints with retries, and shows the
result on a dashboard. Everything that runs concurrently is a step machine: one step is what happens between two awaits,
steps of any number of processes interleave freely, and the theorems speak about every run. Code that only computes is
functions; code that changes tables, keys, queues or refs step by step is a class or a method with loops, each proved to
be a run of the step machine or to compute the specification function.

## Parts

- **Delivery engine.** `DeliveryModel` holds the tables, the queues and the steps of the API, the workers, the
  sweepers and the broker. An unacknowledged message and its handler are one object: the message's phase is the
  handler's program counter, and a crash, a throw or a lost channel is a step like any other. `DeliveryEngine` is the
  worker and the sweeper as programs, `DeliveryApi` the code that creates deliveries. `AuditTrail`, `NoLoss`,
  `SingleToken`, `Finality`, `LostChannel`, `RetryWaits`, `EndpointHealth` and `SweeperClaims` prove what every run
  keeps.
- **Retry ladder and delay queues.** `RetryLadder` (classification, level selection, jitter) and `DelayQueue` (a FIFO
  queue whose messages expire from the head only).
- **Limiters.** `SlidingWindow` (sorted sets, add before deciding, roll back after a rejection) and `TokenBucket`.
- **Idempotency.** `CanonicalJson` (the printer, and a reader of RFC 8259 to read it back), `IdempotencyKey` (the text that is hashed), `IdempotencyProtocol`
  (reserve, store, answer, release).
- **Sessions.** `RefreshRotation`: rotation, logout and family-wide revocation on replay.
- **Lists.** `Keyset`: cursors and pages over a table that changes.
- **Addresses.** `Ipv6Text` (the parser), `Ipv6Acceptance` (which texts it reads at all) and `AddressClass` (what
  network an address belongs to).
- **Dashboard.** `RequestGate`: the latest-wins gate, and a store that loads a list and more of it.
- `Sets`, `Splitting` and `Wrappers` hold shared helpers.

## Where the code and its documentation differ

The model follows the code.

- `backend/src/worker/worker.js:73-75` and section 6 of `docs/architecture.md` say a message that fails twice leaves
  its delivery IN_FLIGHT. A handler that throws twice before the write at `backend/src/worker/handle-delivery.js:304`
  leaves it PENDING or RETRYING, which no sweep selects: `NoLoss.ThrowingTwiceEarlyLosesADelivery` is a run. The
  delivery is lost exactly when its row has one of those two statuses, no other message of it is still before its
  write and no sweep is between claim and publish: `NoLoss.DropLosesExactly`.
- The worker holds one channel for its life, `backend/src/shared/queue/connection.js:96-108`. A handler that goes on
  after the broker gave its message to another one can overwrite a success with RETRYING and then has nothing to
  publish on: `LostChannel.LostChannelLosesADelivery`, and `NoLoss.LateRetryLosesExactly` for when.
- `backend/src/shared/delivery-status.js:14-15` says a terminal delivery has finished for good. The status writes are
  unconditional, so with one sweep over a slow handler a success can be overwritten:
  `SingleToken.SweepLetsASuccessBeOverwritten`. A terminal row is final exactly when no handler of the delivery is
  past its read of the row and short of its commit: `Finality.FinalIffNoLateWriter`. A run without crash, throw, lost
  channel or sweep ends so, whatever comes after it: `Finality.TerminalIsFinal`.
- Section 8 of `docs/architecture.md` says a request that ends in an error releases its reservation. One whose store
  throws ends in an error with the flag already set, and keeps it; so does one whose reservation was made although the
  call threw. `IdempotencyProtocol.OrphanedExactly` names the only steps that leave a reservation behind,
  `IdempotencyProtocol.LostReservationBlocksTheKey` what then becomes of the key.
- The same section promises the original response to a repeated request. One whose GET came before the response was
  stored is turned away even after the original answer is sent:
  `IdempotencyProtocol.AConflictCanFollowTheFreshAnswer`. No other request is:
  `IdempotencyProtocol.ConflictAfterTheStoreReadBefore`.
- `backend/src/api/services/auth-service.js:74-78` says every live token of the account goes when a revoked one is
  replayed. A rotation caught between its two writes still issues its token afterwards:
  `RefreshRotation.RacingRotationOutlivesTheFamily`. The sentence holds exactly when no rotation or sign-in of the
  user is between its two writes: `RefreshRotation.FamilyIsGoneIffNobodyIsIssuing`.
- `docs/receiving-webhooks.md:47` says Retry-After is honoured when it exceeds the next delay. The level chosen does
  cover it, but jitter then shortens the wait by up to a tenth, and nothing covers a wait longer than the last level:
  `RetryLadder.RetryAfterMayEndEarly`. `RetryLadder.RetryAfterIsHonouredIff` says which waits are honoured.
- A publish counts under its API key and its project, and the limiter's Retry-After names the reset of the fuller one.
  With no other rejected publish under way that is always enough: `SlidingWindow.PublishRetryAfterIsEnough`. A
  rejected publish not yet rolled back counts against the project, so that the project's reset can be named while the
  API key is used up for longer: `SlidingWindow.PendingCallShortensTheWait`. In every case a wait is enough exactly
  when each key whose accepted calls take up its limit has reset by then: `SlidingWindow.WaitIsEnoughIff`.
- Each API process reads its own clock. With clocks up to s apart the limiter's bound holds of windows shorter by 2s,
  and of no longer ones: `SlidingWindow.SkewedWindowsAreBounded` and `SlidingWindow.SkewBoundIsMet`.
- The token bucket assumes a clock that does not go back. When it does, the refill of the movement back is granted on
  top, and no more: `TokenBucket.GrantsWithSkew` and `TokenBucket.BackwardClockBreaksTheBound`.
- `backend/src/shared/token-bucket.js:38` sets a time to live of five minutes; one minute is what is needed, and
  exactly that: `TokenBucket.ExpiryIsUnobservable` and `TokenBucket.ShorterTtlIsObservable`.

## Model

| member | source | states |
|---|---|---|
| `AuditTrail.AttemptNumbersHaveNoGap` | backend/src/worker/handle-delivery.js:145-206 | In every run, with crashes, throws, lost channels, duplicates, reordering and sweeps, the attempt numbers of a delivery are exactly 1..n and attemptCount is 0 or one of them. |
| `AuditTrail.MessageFollowsCommittedRow` | backend/src/worker/handle-delivery.js:161-168 | In every run a message for attempt k > 1 exists only once the row of attempt k - 1 is committed. |
| `AuditTrail.TerminalStatusIsJustified` | backend/src/worker/handle-delivery.js:113-130 | In every run SUCCEEDED has a 2xx row numbered attemptCount, and FAILED_PERMANENTLY a failed row of that number that was permanent or at the attempt ceiling. |
| `AuditTrail.NoLevelMeansOver` | backend/src/shared/env-schema.js:81-87 | On a validated configuration a failure gets no retry level only if it is permanent or the ceiling is reached. |
| `NoLoss.NoDeliveryIsLost` | backend/src/worker/handle-delivery.js:262-402 | In every run with tolerated faults, a delivery once queued and unfinished has a message queued or unacknowledged, or is IN_FLIGHT and sweepable, or is held by a sweep that will publish or release it. |
| `NoLoss.StepLosesNothing` | backend/src/jobs/stuck-sweeper.js:46-81 | No tolerated step, the claim, the failed publish and the release included, uncovers any queued unfinished delivery. |
| `NoLoss.DropLosesExactly` | backend/src/worker/worker.js:76-77 | Dropping a redelivered message before its IN_FLIGHT write, or between a retry's commit and its publish, loses its delivery if and only if the row is PENDING or RETRYING, every other message of it is past its write or on a channel that is gone, and no sweep is between claim and publish. |
| `NoLoss.LateRetryLosesExactly` | backend/src/worker/handle-delivery.js:145-168 | A handler whose channel is gone, committing a retry it cannot publish, loses the delivery if and only if every other message of it is past its write or on a channel that is gone, and no sweep is between claim and publish. |
| `NoLoss.SweepDeathLosesExactly` | backend/src/jobs/stuck-sweeper.js:64-81 | A sweep that dies holding a claim loses the delivery if and only if the row is PENDING or RETRYING, no message of it is still to be handled or retried, and no other sweep is between claim and publish. |
| `NoLoss.ThrowingTwiceEarlyLosesADelivery` | backend/src/worker/worker.js:73-80 | A run in which two throws before the IN_FLIGHT write leave a PENDING row with no message and no sweep. |
| `LostChannel.LostChannelLosesADelivery` | backend/src/worker/worker.js:47-83 | A run in which one channel is lost under a sending handler: the copy of its message succeeds, then the first handler commits a retry and throws, and the row is RETRYING with no message and no sweep. |
| `SingleToken.OneTokenPerDelivery` | backend/src/worker/handle-delivery.js:272-307 | In runs without crash, throw, lost channel or sweep a queued unfinished delivery has exactly one message standing for it, with attempt attemptCount + 1; a finished one has none; its rows are exactly 1..attemptCount in order. |
| `SingleToken.HandlersNeverOverlap` | backend/src/worker/handle-delivery.js:262-307 | In such runs no two handlers are at work on one delivery. |
| `SingleToken.CommitAdvances` | backend/src/worker/handle-delivery.js:364-401 | In every such run a commit writes row attemptCount + 1 after exactly 1..attemptCount, stays within the ceiling, and either ends the delivery or leaves it RETRYING with attempts to go. |
| `Finality.TerminalIsFinal` | backend/src/shared/delivery-status.js:14-18 | A row finished by the end of a run without crash, throw, lost channel or sweep stays as it is in every continuation, all of these included. |
| `Finality.FinalIffNoLateWriter` | backend/src/worker/handle-delivery.js:275-307 | In every well-formed state a terminal row stays unchanged in every continuation if and only if no handler of that delivery has read it as unfinished and still has a write to make; one about to write SKIPPED over SKIPPED does not count. |
| `SingleToken.SweepLetsASuccessBeOverwritten` | backend/src/jobs/stuck-sweeper.js:46-53 | A run, without crash or throw, in which one sweep makes two handlers overlap and a SUCCEEDED row is overwritten by the other's failure. |
| `EndpointHealth.CounterRefinesHistory` | backend/src/worker/handle-delivery.js:186-206 | In every run consecutiveFailures is the number of failure commits since the last success commit or enable, and between two worker-made disables there is an enable. |
| `EndpointHealth.DisableIsMadeAndAnnouncedOnce` | backend/src/worker/handle-delivery.js:210-247 | If no handler is dropped on the way or loses its channel, an active endpoint at the threshold has a worker about to disable it, and flips equal announcements made plus announcements pending. |
| `EndpointHealth.NoFlipIsAnnouncedTwice` | backend/src/worker/handle-delivery.js:212-247 | In every run, whatever fails, announcements made and pending never exceed the flips. |
| `EndpointHealth.FlipsAreLostExactly` | backend/src/worker/handle-delivery.js:212-247 | In every step the flips left without an announcement grow by one if and only if a handler with an announcement to make throws or crashes, and otherwise stay. |
| `EndpointHealth.DroppedDisableLeavesItActive` | backend/src/worker/handle-delivery.js:210-221 | Dropping a handler between its failure commit and its conditional disable leaves an active endpoint at the threshold with nobody to disable it if and only if the endpoint is there already and no other handler stands at that point. |
| `EndpointHealth.DisabledEndpointsGetNothing` | backend/src/worker/handle-delivery.js:272-290 | From an endpoint's disable until its next enable, whatever else runs, a handler that reads a delivery to it takes no token and sends nothing: the delivery is finished already or becomes SKIPPED. |
| `SweeperClaims.SweepsClaimBeforePublishing` | backend/src/jobs/stuck-sweeper.js:43-81 | In every run each sweep publish answers its own claim, each claim once, and between two claims of a row some step wrote IN_FLIGHT. |
| `SweeperClaims.SecondPublishNeedsAnInFlightWrite` | backend/src/jobs/stuck-sweeper.js:83-99 | Two sweep publishes for one delivery have an IN_FLIGHT write between their claims, so parallel sweeps over an untouched row publish at most once. |
| `SweeperClaims.SelectsExactlyTheStuck` | backend/src/jobs/stuck-sweeper.js:26-33 | A sweep may take up a list of rows if and only if each is IN_FLIGHT and its nextAttemptAt, or createdAt when there is none, lies before the cutoff. |
| `SweeperClaims.SweepsLeaveTheUndueAlone` | backend/src/jobs/stuck-sweeper.js:26-81 | In every run, a sweep that starts while a row is not IN_FLIGHT or not due before its cutoff neither claims nor publishes it. |
| `DeliveryModel.StepKeepsWellFormed` | backend/src/worker/handle-delivery.js:262-307 | Every step keeps rows, messages and sweeps referring to what exists, and unqueued rows unprocessed. |
| `DeliveryModel.OtherStepsLeaveTables` | backend/src/worker/handle-delivery.js:279-307 | Only the listed steps write the delivery and attempt tables. |
| `DeliveryModel.LevelIsPromised` | backend/src/worker/handle-delivery.js:94-105 | A failed attempt gets another if and only if there was no answer, its name did not resolve, or the status is 408, 425, 429 or at least 500, and the ceiling is not reached; its level is the one promised for the response's own Retry-After. |
| `RetryWaits.RetriesWaitTheirLevel` | backend/src/worker/handle-delivery.js:145-168 | Whatever runs in between, the message a retry publishes carries the next attempt number and stays in the TTL queue of the promised level until that queue's expiry gives it back; no handler has it before it is consumed after that. |
| `DeliveryEngine.Engine.HandleDelivery` | backend/src/worker/handle-delivery.js:262-402 | An uninterrupted handling on a live channel is the run of steps its branch calls for. A missing or finished row changes nothing, a disabled endpoint makes it SKIPPED, no token parks the message; otherwise the outcome is decided by the response's status, the attempt number and the response's own Retry-After, and the tables, the queues and the dead letters are what that outcome makes of them. The message is acknowledged. |
| `DeliveryEngine.Engine.SendAndSettle` | backend/src/worker/handle-delivery.js:304-401 | Write IN_FLIGHT, attempt, settle and acknowledge, in that order. Success exactly for 200 to 299; a retry exactly for a failure worth it below the ceiling, at the least level covering its delay and Retry-After, or the last; failure otherwise; each with its whole effect on rows, counter, queues and dead letters. |
| `DeliveryEngine.Engine.FinaliseFailure` | backend/src/worker/handle-delivery.js:183-260 | Commit, conditional disable, dead letter with this attempt's number and, only if this worker flipped the row, the announcement; the counter is one higher and the endpoint inactive from the threshold on. |
| `DeliveryEngine.Engine.FinaliseRetry` | backend/src/worker/handle-delivery.js:145-168 | Commit, then publish: the one new message is the next attempt in the TTL queue of the chosen level, and nextAttemptAt is that level's delay from now. |
| `DeliveryEngine.Engine.CommitSuccess` | backend/src/worker/handle-delivery.js:113-130 | The audit row is appended, the delivery is SUCCEEDED at this attempt, its endpoint's counter is zero, and no other row, message, queue or sweep is touched. |
| `DeliveryEngine.Engine.DisableIfStillDue` | backend/src/worker/handle-delivery.js:210-221 | The endpoint is flipped exactly if it is still active and at the threshold, and the answer says so. |
| `DeliveryEngine.Engine.HandlingFailed` | backend/src/worker/worker.js:67-80 | A failed handling requeues the message marked redelivered the first time and drops it the second; on a channel that is gone it only ends; nothing else changes. |
| `DeliveryEngine.Engine.Recover` | backend/src/jobs/stuck-sweeper.js:64-81 | A claimed row is published with its next attempt, or put back when the broker refuses; an unclaimed one is left alone. |
| `DeliveryEngine.Engine.RunStuckSweep` | backend/src/jobs/stuck-sweeper.js:26-107 | A sweep is a run of the step machine over rows that were IN_FLIGHT and due before the cutoff, publishes as many messages as it counts, and unless it threw leaves none of them IN_FLIGHT. |
| `DeliveryApi.Api.PublishEvent` | backend/src/api/services/publish-service.js:44-65 | A new row for each endpoint, PENDING or, if the endpoint is disabled, SKIPPED; each pending row gets exactly its first message and no other row gets one. |
| `DeliveryApi.Api.PublishRows` | backend/src/api/services/publish-service.js:61-65 | The publishing loop is the run of first messages of the pending rows, in order. |
| `DeliveryApi.Api.Replay` | backend/src/api/services/delivery-service.js:129-152 | A replay is refused exactly while the delivery is PENDING or IN_FLIGHT; accepted, it leaves the old rows as they were and queues a new PENDING delivery to the same endpoint. |
| `RetryLadder.LadderSelection` | backend/src/shared/retry.js:42-66 | For every strictly increasing schedule within the ceiling rule: no level if and only if attempt >= maxAttempts, otherwise the least level covering the scheduled delay and Retry-After, or the last when none does. |
| `RetryLadder.ScheduleIsAsNamed` | backend/src/shared/retry.js:1-9 | The five levels have ever longer delays, each the time its name says. |
| `RetryLadder.FirstCoveringIsFirst` | backend/src/shared/retry.js:63 | The search answers the first level that is long enough, and none exactly when none is. |
| `RetryLadder.WalkIsSchedule` | backend/src/shared/retry.js:52-60 | Without Retry-After the attempts visit the schedule in order, up to the ceiling. |
| `RetryLadder.JitterBand` | backend/src/shared/retry.js:68-73 | Jitter never lengthens a delay and shortens it by at most a tenth. |
| `RetryLadder.JitterKeepsWaitIff` | backend/src/shared/retry.js:68-73 | A requested wait survives every jitter if and only if it is at most nine tenths of the level's delay. |
| `RetryLadder.RetryAfterIsHonouredIff` | backend/src/shared/retry.js:42-73 | After attempt k, on any increasing schedule of multiples of ten, a Retry-After survives every jitter if and only if it is at most nine tenths of the k-th delay, or above the delay before some later level and at most nine tenths of that level's. |
| `RetryLadder.RetryAfterMayEndEarly` | backend/src/shared/retry.js:58-66 | A Retry-After of exactly a level's delay gets that level and can still end early. |
| `DelayQueue.HeadBlockingIsBounded` | backend/src/shared/queue/topology.js:46-52 | For every publish sequence messages leave in order, never before their own expiration and never later than the queue's TTL after entering, and no message waits longer than that. |
| `DelayQueue.LeavesWithTheLatestAhead` | backend/src/shared/queue/topology.js:46-52 | A message leaves at exactly the latest of the times at which it and the messages ahead of it are due. |
| `DelayQueue.RetryComesBackInItsBand` | backend/src/shared/queue/publisher.js:66-72 | A jittered retry leaves its level's queue between nine tenths of the level's delay and the whole of it. |
| `SlidingWindow.DecisionIsExact` | backend/src/api/middleware/rate-limit.js:40-65 | In every reachable state a call is accepted if and only if under every key fewer calls count in its window than the limit, pending rejected ones included. |
| `SlidingWindow.NoWindowExceedsTheLimit` | backend/src/api/middleware/rate-limit.js:26-84 | For every interleaving of additions, rollbacks and key expiries, any window (t - w, t] holds at most limit accepted calls under every key. |
| `SlidingWindow.SkewedWindowsAreBounded` | backend/src/api/middleware/rate-limit.js:26-50 | With every clock reading, the store's included, at most s behind the latest, any window shorter than the limiter's by 2s holds at most limit accepted calls under every key, for every interleaving. |
| `SlidingWindow.SkewBoundIsMet` | backend/src/api/middleware/rate-limit.js:38-43 | For every window, skew and key a run in which a limit of one lets two calls into a window one millisecond longer than that. |
| `SlidingWindow.SerialDecision` | backend/src/api/middleware/rate-limit.js:61-76 | With every rejected call rolled back, a call is accepted if and only if every key has fewer accepted calls in its window than its limit. |
| `SlidingWindow.ExpiryIsUnobservable` | backend/src/api/middleware/rate-limit.js:40-46 | Every run gets the same decisions as the one in which no key ever expires. |
| `SlidingWindow.RetryAfterIsExact` | backend/src/api/middleware/rate-limit.js:16-24 | In serial use with fixed limits, a request under any number of keys, rejected and rolled back, is accepted after a wait if and only if every key used up resets within it, which takes at least Retry-After; so after Retry-After exactly when no key used up resets later than the limiting one, and earlier never. |
| `SlidingWindow.WaitIsEnoughIff` | backend/src/api/middleware/rate-limit.js:16-76 | In every reachable state, with any rejected calls still pending: a rejected request is accepted after a wait in which everything rejected is rolled back if and only if every key whose accepted calls take up its limit has its oldest accepted call out of the window by then. |
| `SlidingWindow.NestedRetryAfterIsEnough` | backend/src/api/middleware/rate-limit.js:51-65 | In serial use the wait named is always enough for a request whose every key counts all the calls of its earlier keys. |
| `SlidingWindow.PublishRetryAfterIsEnough` | backend/src/api/app.js:99-112 | After any run of publishes, by any keys of any projects, none pending: a rejected publish is accepted once its Retry-After is over. |
| `SlidingWindow.PendingCallShortensTheWait` | backend/src/api/middleware/rate-limit.js:45-57 | For any two keys of one project a run of publishes in which, one rejected publish still pending, the project's reset of 20 s is named and the API key is still used up after it. |
| `SlidingWindow.StepKeepsExact` | backend/src/api/middleware/rate-limit.js:38-76 | Every step keeps each sorted set equal to the calls that count, up to entries already outside the window. |
| `SlidingWindow.RateLimiter.Transact` | backend/src/api/middleware/rate-limit.js:38-50 | The loop over the keys computes the trimmed and extended sets, the counts and the renewed expiry times. |
| `SlidingWindow.RateLimiter.TakeBack` | backend/src/api/middleware/rate-limit.js:69-76 | The rollback removes the call from every one of its keys and nothing else. |
| `SlidingWindow.RateLimiter.RateLimit` | backend/src/api/middleware/rate-limit.js:26-76 | A whole request is accepted exactly when every key has room, and a rejected one leaves no trace. |
| `TokenBucket.AnswersAreExact` | backend/src/shared/token-bucket.js:10-35 | In every run at one rate, expiry or not, a call is allowed if and only if granting it stays within R + R*(t - u)/60000 since every earlier call u. |
| `TokenBucket.GrantsInAnyInterval` | backend/src/shared/token-bucket.js:19-30 | Grants with clock readings in any [s, e] are at most R + R*(e - s)/60000. |
| `TokenBucket.GrantsWithSkew` | backend/src/shared/token-bucket.js:19-32 | Whatever the clock does, grants with readings in any [s, e] are at most R + R*(e - s + B)/60000, where B is all the clock went back. |
| `TokenBucket.TokensStayInRange` | backend/src/shared/token-bucket.js:21-30 | Tokens stay between 0 and R. |
| `TokenBucket.ExpiryIsUnobservable` | backend/src/shared/token-bucket.js:32-38 | For every sequence of rates, losing keys after a time to live of at least a minute changes no answer. |
| `TokenBucket.ShorterTtlIsObservable` | backend/src/shared/token-bucket.js:38 | Every shorter time to live changes an answer. |
| `TokenBucket.BackwardClockBreaksTheBound` | backend/src/shared/token-bucket.js:19-32 | A run at rate 1 in which the clock goes back a minute: two grants at one reading, which is the bound with skew and above the one without. |
| `TokenBucket.TokenBuckets.Take` | backend/src/shared/token-bucket.js:3-35 | The script answers and writes back what the specification says, for its own key only. |
| `CanonicalJson.PrintedAlikeIffSame` | backend/src/shared/json.js:3-21 | Two values print alike if and only if they are equal up to object key order, undefined counting as null. |
| `CanonicalJson.ReadsBack` | backend/src/shared/json.js:3-21 | Reading a printed value by the grammar of RFC 8259 takes up exactly its text, whatever follows, and gives the value up to key order, undefined as null, with every object's keys in code-unit order. |
| `CanonicalJson.ObjectsArePrefixFree` | backend/src/shared/json.js:12-18 | Whatever follows them, equal texts beginning with printed objects begin with the same object. |
| `CanonicalJson.Readable` | backend/src/shared/json.js:3-21 | A printed value followed by a terminator can be read back in one way only. |
| `CanonicalJson.QuoteReadable` | backend/src/shared/json.js:15 | Equal texts that begin with two string literals begin with literals of the same string, escapes and lone surrogates included. |
| `CanonicalJson.EscapeIsShortest` | backend/src/shared/json.js:15 | A code unit is escaped exactly where section 7 of RFC 8259 demands it or it is a surrogate without its partner, by the two-unit escape where there is one and otherwise in lower-case hexadecimal. |
| `CanonicalJson.PlainTextStaysBare` | backend/src/shared/json.js:15 | Text that needs no escape, surrogate pairs included, stands in its literal as it is. |
| `CanonicalJson.SamePrintsAlike` | backend/src/shared/json.js:13-15 | Key order does not show in the text. |
| `CanonicalJson.AscendingIsUnique` | backend/src/shared/json.js:13-14 | A set of keys has one order by code unit. |
| `CanonicalJson.BeforeIsCodeUnitOrder` | backend/src/shared/json.js:13-14 | Keys are compared by the first code unit in which they differ, a shorter key before its continuations. |
| `IdempotencyKey.KeyTellsPublishesApart` | backend/src/api/middleware/idempotency.js:11-15 | The hashed texts of two publishes are equal if and only if event type, payload and set of targets are. |
| `IdempotencyKey.KeyTextReadsBack` | backend/src/api/middleware/idempotency.js:11-15 | The hashed text is the event type, then JSON for the payload, then nothing without targets and otherwise JSON for the list of them, each once, in code-unit order. |
| `IdempotencyKey.TargetsAlikeIffSameSet` | backend/src/api/middleware/idempotency.js:12 | The targets' text depends on their set only, absent and empty being the same. |
| `IdempotencyKey.EventTypeStops` | backend/src/shared/event-types.js:1 | An event type ends where the payload's brace begins. |
| `IdempotencyProtocol.OneFreshAnswer` | backend/src/api/middleware/idempotency.js:18-62 | Over all interleavings and faults at most one answer is fresh, every later answer replays it, is a conflict, or is the error of a request whose own SET NX or GET threw, and all answers that carry a response carry the same one. |
| `IdempotencyProtocol.ConflictAfterTheStoreReadBefore` | backend/src/api/middleware/idempotency.js:23-30 | Once a response is stored it stays, and a conflict answered after that goes only to a request whose GET preceded the store. |
| `IdempotencyProtocol.AConflictCanFollowTheFreshAnswer` | backend/src/api/middleware/idempotency.js:21-30 | A run in which the fresh answer is followed by a conflict, the second request having read the reservation before the store. |
| `IdempotencyProtocol.OnlyTheHolderWrites` | backend/src/api/middleware/idempotency.js:42-58 | The key is only ever stored into or deleted by the request whose reservation is in it. |
| `IdempotencyProtocol.FailureFreesTheKey` | backend/src/api/middleware/idempotency.js:53-59 | A holder that fails before storing frees the key, and the next request may publish. |
| `IdempotencyProtocol.OrphanedExactly` | backend/src/api/middleware/idempotency.js:21-59 | In every run a step leaves a reservation without a request to settle it if and only if there was one already, or a SET NX throws having been applied to a free key, or the holder crashes, its delete fails, or its store throws without having been applied. |
| `IdempotencyProtocol.LostReservationBlocksTheKey` | backend/src/api/middleware/idempotency.js:44-59 | In every reachable state the key stays reserved in every continuation, until it expires, if and only if its reservation is orphaned; then every later answer is a conflict or an error. |
| `IdempotencyProtocol.Idempotency.Admit` | backend/src/api/middleware/idempotency.js:18-38 | A free key is reserved; otherwise the request is answered with the stored response or a conflict. |
| `IdempotencyProtocol.Idempotency.Route` | backend/src/api/routes/publish.js:19-29 | A success is stored and answered with status 202, a failure is answered and the key freed. |
| `RefreshRotation.RotatedAtMostOnce` | backend/src/api/services/auth-service.js:141-154 | Over all interleavings a token is rotated at most once ever, and then it is revoked. |
| `RefreshRotation.RotationsWerePresentedInTime` | backend/src/api/services/auth-service.js:63-154 | In every run, over all interleavings, a rotation revokes a token that its own request had read, unrevoked and at a time before its expiry. |
| `RefreshRotation.RevocationIsFinal` | backend/src/api/services/auth-service.js:54-61 | In every run rows stay, with their user and expiry, and revokedAt never changes once set. |
| `RefreshRotation.SessionsNeverExceedSignIns` | backend/src/api/services/auth-service.js:31-52 | Per user, live tokens plus reissues under way never exceed logins plus registrations. |
| `RefreshRotation.ReplayRevokesTheFamily` | backend/src/api/services/auth-service.js:63-91 | A replay of a revoked unexpired token leaves every token existing at that step revoked for good, and the user's sessions from then on are bounded by the reissues then pending plus new sign-ins. |
| `RefreshRotation.FamilyIsGoneIffNobodyIsIssuing` | backend/src/api/services/auth-service.js:54-85 | Some continuation of a family revocation without a new sign-in leaves the user a live token if and only if a rotation or sign-in of the user is between its two writes at that step. |
| `RefreshRotation.RacingRotationOutlivesTheFamily` | backend/src/api/services/auth-service.js:74-85 | A run from the start in which the token issued by a rotation under way is the one that stays live after the family revocation. |
| `RefreshRotation.AuthService.Refresh` | backend/src/api/services/auth-service.js:63-154 | Uninterrupted, a session is issued if and only if the token is known, unrevoked and unexpired, which revokes it; a revoked token before its expiry revokes every live token of its user; any other changes nothing. |
| `RefreshRotation.AuthService.RevokeFamilyOf` | backend/src/api/services/auth-service.js:54-61 | Revokes and counts exactly the user's live tokens; every other row stays. |
| `RefreshRotation.LogoutIsForGood` | backend/src/api/services/auth-service.js:156-165 | Logout revokes the presented token in every continuation and touches no other row. |
| `RefreshRotation.AuthService.LogOut` | backend/src/api/services/auth-service.js:156-165 | Revokes the presented token if it is live and leaves every other row. |
| `Keyset.NoRowTwice` | backend/src/api/services/keyset.js:24-41 | However the table changes between pages, a walk returns its rows newest first by time and then id, none twice, and only rows that matched at some page. |
| `Keyset.StayersAreReturnedOnce` | backend/src/api/services/delivery-service.js:85-108 | A finished walk returns every row present and matching throughout exactly once. |
| `Keyset.StaticWalkIsTheSortedList` | backend/src/api/services/event-service.js:84-116 | On an unchanging table the concatenated pages are the matching rows, newest first. |
| `Keyset.StaticWalkEnds` | backend/src/api/services/keyset.js:33-41 | On an unchanging table every page but the last is full and leaves a row, so a walk of p pages needs more than (p - 1) * limit rows. |
| `Keyset.CursorRoundTrip` | backend/src/api/services/keyset.js:7-22 | A cursor decodes to the row it encodes if and only if the id is not empty and holds no separator. |
| `Ipv6Text.EverySpellingGivesTheBytes` | backend/src/shared/ssrf.js:52-97 | Every spelling of section 2.2 of RFC 4291, any case, leading zeros, "::" over any zero run, dotted tail, gives the sixteen bytes. |
| `Ipv6Text.EveryAddressCanBeWritten` | backend/src/shared/ssrf.js:70-97 | Every address has a spelling, and reading it gives the address back. |
| `Ipv6Acceptance.ReadIffSpelling` | backend/src/shared/ssrf.js:66-97 | A text of hexadecimal digits and colons is read if and only if it spells an address, "::" standing for any number of zero groups, none included. |
| `Ipv6Acceptance.ShortTailIsRead` | backend/src/shared/ssrf.js:52-64 | A malformed dotted tail of two numbers is read, the missing two counting as zero. |
| `Ipv6Text.Fill` | backend/src/shared/ssrf.js:85-94 | The loop over the groups succeeds exactly when all eight are readable, and then the array holds their bytes. |
| `Ipv6Text.Ipv6ToBytes` | backend/src/shared/ssrf.js:70-97 | The method returns null exactly for text the specified reader refuses, and otherwise a fresh array of the bytes. |
| `Ipv6Text.PairedBytes` | backend/src/shared/ssrf.js:57-63 | The shift-and-or of two octets is their 16-bit group. |
| `AddressClass.Ipv6ClassIsItsBlock` | backend/src/shared/ssrf.js:113-147 | However it is written, an IPv6 address gets the class of its address block, an embedded IPv4 address its own. |
| `AddressClass.Ipv4ClassIsItsBlock` | backend/src/shared/ssrf.js:18-50 | However it is written, an IPv4 address gets the class of its address block. |
| `AddressClass.EmbeddedIpv4Agrees` | backend/src/shared/ssrf.js:118-137 | An IPv4-mapped or NAT64 address, in any spelling, is classified as its IPv4 address in any spelling. |
| `AddressClass.IsZeroRange` | backend/src/shared/ssrf.js:99-105 | The loop answers whether all bytes of the range are zero. |
| `AddressClass.ClassifyIpv6Text` | backend/src/shared/ssrf.js:113-147 | The method over the parsed array computes the specified class. |
| `RequestGate.LandsIffNothingNewer` | dashboard/src/composables/use-sequenced-request.js:9-26 | In every order of starts and completions a result lands if and only if no owner run has started since its own run did. |
| `RequestGate.OwnerResultsOnlyGetNewer` | dashboard/src/composables/use-sequenced-request.js:10-26 | The owner's results that land have strictly increasing run numbers. |
| `RequestGate.NothingLandsAfterANewerOwnerRun` | dashboard/src/composables/use-sequenced-request.js:49-55 | No result, a follower's included, lands once the owner has started a later run. |
| `RequestGate.LoadingTracksTheNewestRun` | dashboard/src/composables/use-sequenced-request.js:39-46 | Loading is true exactly while that request's newest run is pending. |
| `RequestGate.FollowerResultsMayLandOutOfOrder` | dashboard/src/composables/use-sequenced-request.js:11-13 | A run in which the older of two follower runs lands last. |
| `RequestGate.GatedRequest.Begin` | dashboard/src/composables/use-sequenced-request.js:9-16 | A start is the start step of the machine and gets the next run number; from then on loading follows this run. |
| `RequestGate.GatedRequest.Resolve` | dashboard/src/composables/use-sequenced-request.js:18-46 | A completion is the success step of the machine, the result lands if and only if no owner run has started since its run did, and loading is then on exactly if the request's newest run is pending. |
| `RequestGate.GatedRequest.Reject` | dashboard/src/composables/use-sequenced-request.js:28-46 | A failure is the failure step of the machine, the error is kept if and only if no owner run has started since its run did, and loading is then on exactly if the request's newest run is pending. |
| `RequestGate.GatedRequest.Follower` | dashboard/src/composables/use-sequenced-request.js:49-55 | A follower is a new request on the same gate that never claims it, and the owner is left as it was. |
| `RequestGate.ListStore.Load` | dashboard/src/stores/events.js:53-71 | A load starts an owner run; nothing started before it, more of the old list included, can land any more. |
| `RequestGate.ListStore.LoadMore` | dashboard/src/stores/events.js:73-90 | Starts a follower run if there is more and none is out, and what is under way lands or not as it would have. |

## Left out

- The HTTP client, DNS, the database, Redis, RabbitMQ and Socket.io: each call is one atomic step or a nondeterministic result; unacknowledged redelivery and head-only expiry are taken as RabbitMQ documents them.
- Lost channels: the messages of one channel come back one by one, and a detached handler's publish fails rather than hang.
- NoLoss.NoDeliveryIsLost: excludes a throw on a redelivered message before the IN_FLIGHT write or between a retry's commit and its publish, a retry committed by a handler whose channel is gone, a sweeper that dies between claim and publish, and an API that dies between creating a row and publishing it, because the code has no recovery there; the first three have exact conditions of their own.
- lastError, completedAt, durations, response snippets, secrets, headers and realtime events other than endpoint.disabled: nothing modelled depends on them; a SKIPPED row written again counts as unchanged.
- The sweep's batch limit and its order by creation: a sweep selects any list of rows that pass its filter.
- Retention, which cascades to delivery rows, and endpoint deletion.
- SlidingWindow: the RateLimit header texts, the reset of a request let through, and requests with no identity; limits change with the configuration only, and the theorems about waits assume that they have not.
- TokenBucket: floating-point rounding and Lua number formatting; amounts are reals.
- CanonicalJson: how a number is printed; a number is its printed text, so two are equal exactly if their texts are, and the reader takes the longest run of number characters. It reads no white space between tokens; the printer writes none.
- IdempotencyKey: SHA-256; the theorems are about the hashed text.
- IdempotencyProtocol: expiry of the key and client-supplied keys, which are opaque text.
- RefreshRotation: password hashing, JWT and token hashing; a token and its row are one id.
- Keyset: base64url and ISO dates are parameters assumed to round-trip on dates and on text without surrogates; ids are compared by code unit, though any total order the database uses would do.
- Ipv6Text: Number() on text other than decimal digits counts as unreadable; parseInt's white space is limited to the common characters.
- Ipv6Acceptance.ReadIffSpelling: speaks of texts without a dot only, because the parser reads malformed dotted tails too; isIP, which its callers ask first, is not part of this model.
- AddressClass: isIP, URL parsing, blocked ports, allow lists and address pinning.
- RequestGate: Vue reactivity, callbacks that start another run themselves, and what the list holds.
- Routes, schemas, OpenAPI, logging, metrics, alerts, connection handling, shutdown, the dashboard's views: plumbing or easy members.
