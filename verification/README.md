# NotifyService: a verified model

NotifyService takes send requests, puts one task per recipient on a channel queue, and lets any number of
workers deliver the tasks through rate-limited providers. This project models its five hard pieces in Dafny
and proves what they keep over every run. `dafny verify dfyconfig.toml` checks all of it.

| file | what it models |
|---|---|
| `TokenBucket.dfy` | the Lua script on one Redis key: refill, take, expiry; conservation, TTL refinement, the rate bound |
| `Fairness.dfy` | the reply as it crosses the wire, the delay derived from it, and who gets the next token |
| `ClockSkew.dfy` | the exact clock skew that the rate bound and the retry delay tolerate |
| `RateLimitKeys.dfy`, `RateLimiter.dfy` | the keys; the script on the whole store; both `WaitAsync` loops |
| `SendGate.dfy` | all handlers of all workers at both rate gates as one state machine; the end-to-end send rate |
| `Drain.dfy`, `ProcessingGate.dfy` | the graceful-drain protocol under all interleavings; the fields it updates in place |
| `Backoff.dfy` | retry delays and the header chain |
| `Topology.dfy`, `Retry.dfy` | bindings; the life of a message with failing channel operations and consumer crashes; conservation |
| `RetryBounds.dfy`, `RetryRuns.dfy` | how often a message is processed and how many copies there can be; runs that reach the bounds |
| `Handler.dfy` | the handler's nested try blocks |
| `ChannelWorker.dfy` | the duplicate check, the send, the two writers of the task status |
| `HtmlToWP.dfy`, `HtmlWords.dfy` | tree traversal and word styler; what the output looks like word for word |
| `PercentEncoding.dfy`, `Baggage.dfy` | percent-encoding over UTF-8; the baggage printer and parser |
| `Orchestrator.dfy` | the replay check, the loop over recipients and the database context; runs of calls |
| `Options.dfy`, `Counting.dfy` | optional values; sums over and selections from sequences |

How the pieces meet. Code that updates state is written as methods on classes and proved equal to a
specification function; the theorems are lemmas about that function or about every run of a state machine
built from it. A run is a list of states and events where each event was enabled, so "every run" covers all
interleavings. `TokenBucket` feeds `SendGate`, which turns the bound on one bucket into a bound on provider
sends; `Topology` feeds `Retry`; `ChannelWorker` joins its own result to a run of `Retry`.

Time and tokens are `real`. A call carries two clocks: the client's, which alone moves `last_refill`, and the
server's, which alone drives expiry. A common monotone clock is the case `skew == 0`. Channel operations end in
one of three ways: success, failure without effect, or effect with a failure reported.

Results that differ from what one might expect of the code:

- Expiry of the key is invisible in every run exactly if `Earned(limit, Ttl - 2 * skew) >= capacity`
  (`TtlRefinementIff`); beyond that some run has a grant that the eternal key refuses. The TTL is rounded up from
  twice the time an empty bucket takes to fill, so a skew of half that time is always tolerated
  (`HalfFillTimeIsWithinTtl`) and often a little more.
- The rate bound needs the same condition: beyond it some window of some run has more acquisitions
  (`RateBoundIff`).
- A client with a lagging clock can be refused at its retry although nobody overtook it. Its delay suffices in every
  run exactly if `2 * skew <= max(1 ms, 1/rps) - 1/rps` (`DelaySufficesIff`), that is, up to a thousand requests per
  second, only with synchronised clocks; `GrantedIffWaitElapsed` gives the exact moment of the next grant for any
  clocks.
- The retry delay is the capped exponential exactly if that number fits an int32 (`DelayIsExactIff`).
- Even without faults a message can have several copies: one, plus one for each delivery whose retry is published
  and not yet acked (`CopiesWithoutFaults`), and that can be up to MaxRetries + 1 in all (`CopiesWithinBudget`,
  `CopiesReachBudget`).
- A consumer crash allows MaxRetries + 1 more invocations for each delivery the consumer can hold. Counting a crash
  once, like a failed operation, gives a bound exactly for policies without retries and at prefetch 1, the shipped
  value (`PlainBoundIff`). In the failing run a consumer processes a second delivery while the first awaits its ack;
  the connection keeps the library's default of one handler at a time
  (src/Queue/Services/RabbitMqConnectionFactory.cs:36-46), so there the first ack is still on its way to the broker
  when the connection is lost.
- Repository inserts of the orchestrator fail silently, and all inserts of one call go through one database context:
  a request whose insert failed is stored by the next save of the call that succeeds. The replay check protects
  exactly the requests of which some save succeeded (`EntriesAreCounted`); if none did, repeating the call publishes
  everything again (`LostRecordPublishesAgain`). A published task refers to its row exactly if the save of that task
  succeeded (`PublishedTaskHasRowIff`); if a later save stored it, the message still carries id 0.
- The comment on `ProcessMessageAsync` says that a message goes back to its queue after an exception. The code
  schedules a delayed copy after a transient one and dead-letters it after any other; the model follows the code.
  One consequence: a failed status update after a send dead-letters the message, so without channel faults
  nothing is sent twice (`AtMostOneSendWithoutFaults`).

## Model

| member | source | states |
|---|---|---|
| TokenBucket.Conservation | src/RateLimiter/Services/RedisRateLimiter.cs:24-53 | over any run of a live key, for arbitrary and backward-going clocks: tokens left + acquired + overflow = tokens at first + what the advance of `last_refill` earns; tokens stay in [0, capacity]; `last_refill` is the running maximum of the clocks |
| TokenBucket.EvaluateConserves | src/RateLimiter/Services/RedisRateLimiter.cs:32-53 | the same for one evaluation |
| TokenBucket.ReplyTells | src/RateLimiter/Services/RedisRateLimiter.cs:43-60 | the reply carries the tokens left and the tokens before one was taken; one was taken exactly if there was a whole one, and then there is no wait |
| TokenBucket.TtlIsLeast | src/RateLimiter/Services/RedisRateLimiter.cs:54-57 | the TTL is the least number of whole seconds, but at least one, in which an empty bucket fills twice |
| TokenBucket.CapacityIs | src/RateLimiter/Services/RedisRateLimiter.cs:237-240 | the capacity is one second's worth of requests, times the multiplier if that is above one |
| TokenBucket.TtlRefinement | src/RateLimiter/Services/RedisRateLimiter.cs:20-58 | the expiring key gives the same replies and the same bucket as a never-expiring one, for every sequence of evaluations whose skew the TTL covers |
| TokenBucket.EvaluateSame | src/RateLimiter/Services/RedisRateLimiter.cs:20-58 | one evaluation agrees on both, expired or not, and keeps the relation between them |
| TokenBucket.TtlRefinementNeedsSkewBound | src/RateLimiter/Services/RedisRateLimiter.cs:53-58 | for every limit and every larger skew there is a run in which the expired key grants a call the eternal one refuses |
| TokenBucket.TtlRefinementIff | src/RateLimiter/Services/RedisRateLimiter.cs:53-58 | replies, and verdicts alone, agree in all runs with a given skew if and only if what is earned in TTL - 2 * skew fills the bucket |
| TokenBucket.HalfFillTimeIsWithinTtl | src/RateLimiter/Services/RedisRateLimiter.cs:53-58 | a skew of half the time an empty bucket takes to fill is always covered |
| TokenBucket.WindowOpens | src/RateLimiter/Services/RedisRateLimiter.cs:24-50 | what the first evaluation of a window grants plus what it leaves is at most the capacity |
| TokenBucket.RateBound | src/RateLimiter/Services/RedisRateLimiter.cs:14-61 | for every skew the TTL covers (`SkewWithinTtl`): between any two evaluations of an expiring key, both included, acquisitions are at most capacity + rps * (elapsed + 2 * skew) |
| ClockSkew.RateBoundIff | src/RateLimiter/Services/RedisRateLimiter.cs:14-61 | that bound holds in every window of every run with a given skew if and only if the TTL covers the skew |
| Fairness.VerdictSurvivesTheWire | src/RateLimiter/Services/RedisRateLimiter.cs:60-60 | truncating the reply to integers never changes whether the client goes ahead |
| Fairness.DelayCoversWait | src/RateLimiter/Services/RedisRateLimiter.cs:136-149 | the delay after a refusal is never shorter than the true time to the next token |
| Fairness.DelayOfRefusal | src/RateLimiter/Services/RedisRateLimiter.cs:136-146 | the delay after a refusal is exactly the time of one token, but at least a millisecond |
| Fairness.ReceivedIs | src/RateLimiter/Services/RedisRateLimiter.cs:60-60 | the client reads the integer parts of the four numbers the script returns, each in its place |
| Fairness.GrantedIffWaitElapsed | src/RateLimiter/Services/RedisRateLimiter.cs:32-51 | after a refusal, for arbitrary clocks, the first grant comes exactly at the first call by which the latest clock has reached `last_refill` + the reported wait |
| Fairness.RefusedAgainOnlyIfOvertaken | src/RateLimiter/Services/RedisRateLimiter.cs:124-149 | a delayed client is refused again only if somebody took a token in between |
| Fairness.StarvationIsOvertaking | src/RateLimiter/Services/RedisRateLimiter.cs:96-149 | n refusals in a row of one client mean at least n - 1 acquisitions by others in between |
| Fairness.StarvationOnExpiringKey | src/RateLimiter/Services/RedisRateLimiter.cs:53-58 | the same for keys that expire |
| ClockSkew.LaggingClockIsRefusedAgain | src/RateLimiter/Services/RedisRateLimiter.cs:32-35 | for every limit and every skew that the delay does not cover, some client is refused at its retry although nobody took a token in between |
| ClockSkew.DelaySufficesIff | src/RateLimiter/Services/RedisRateLimiter.cs:124-149 | a client that was not overtaken is granted after its delay in every run with a given skew if and only if 2 * skew is at most the delay less the time of one token |
| RateLimitKeys.ProviderKeysDistinct | src/RateLimiter/Services/RedisRateLimiter.cs:87-87 | provider keys are equal only for the same channel and provider |
| RateLimitKeys.CredentialKeysDistinct | src/RateLimiter/Services/RedisRateLimiter.cs:178-178 | credential keys are equal only for the same channel, provider and credential |
| RateLimitKeys.ProviderIsNeverCredential | src/RateLimiter/Services/RedisRateLimiter.cs:87-87 | no provider key is a credential key |
| RateLimitKeys.KeysAre | src/RateLimiter/Services/RedisRateLimiter.cs:178-178 | the two keys spelled out |
| RateLimiter.Redis.EvalScript | src/RateLimiter/Services/RedisRateLimiter.cs:14-61 | the script's statements, run on the store, change exactly this key to what `EvaluateEntry` says |
| RateLimiter.RedisRateLimiter.Loop | src/RateLimiter/Services/RedisRateLimiter.cs:96-152 | the retry loop, with lost replies and other clients in between, ends in the state and with the totals of `WaitFrom` |
| RateLimiter.RedisRateLimiter.WaitProvider | src/RateLimiter/Services/RedisRateLimiter.cs:79-153 | the provider overload: without a positive limit it returns without touching Redis, unless cancelled |
| RateLimiter.RedisRateLimiter.WaitCredential | src/RateLimiter/Services/RedisRateLimiter.cs:155-235 | the credential overload: a blank credential or no limit returns at once, cancelled or not |
| RateLimiter.ReturnsOnlyOnOwnGrant | src/RateLimiter/Services/RedisRateLimiter.cs:96-152 | a limited call returns normally exactly when one own acquisition was answered; tokens taken for it = tokens lost on the way back + 1 if it returned |
| RateLimiter.EveryFailedTurnWaits | src/RateLimiter/Services/RedisRateLimiter.cs:105-149 | n turns without a grant, answered or not, wait at least n / maxRps seconds, and exactly that while no turn is answered |
| RateLimiter.WaitIsExact | src/RateLimiter/Services/RedisRateLimiter.cs:105-149 | the total wait: 1 / maxRps for every turn without an answer, max(1 ms, 1 / maxRps) for every refusal |
| RateLimiter.WaitKeepsOtherKeys | src/RateLimiter/Services/RedisRateLimiter.cs:53-58 | waiting on one key changes no other bucket |
| RateLimiter.KeySeesItsCallsOnly | src/RateLimiter/Services/RedisRateLimiter.cs:96-152 | during a wait every key, our own included, goes through exactly the evaluations on it that reached Redis, in their order |
| RateLimiter.UncontendedWaitTakesTwoTurns | src/RateLimiter/Services/RedisRateLimiter.cs:96-149 | an uncontended client whose replies arrive returns within two turns |
| SendGate.SendsSpendProviderGrants | src/Workers/Workers/GreenApiWorker.cs:85-100 | in every window of every run, sends through a provider key are at most its grants in the window plus the handlers already holding one |
| SendGate.SendsSpendCredentialGrants | src/Workers/Workers/GreenApiWorker.cs:87-100 | the same for a credential key |
| SendGate.EverySendHasItsOwnGrants | src/Workers/Workers/GreenApiWorker.cs:85-100 | each send is preceded by a received provider grant, then a received credential grant, of the same handler, and no handler sends twice |
| SendGate.HandlerMoves | src/Workers/Workers/GreenApiWorker.cs:85-100 | a handler passes the gate it stands at exactly if its script took a token and the answer arrived; no event touches another handler or another key |
| SendGate.SomeRunSends | src/Workers/Workers/GreenApiWorker.cs:85-100 | with a worker, a place and two keys some run goes all the way to a send |
| SendGate.PrefetchIsKept | src/Queue/AbstractWorkers/SingleConsumerWorker.cs:168-171 | no worker ever has more handlers in flight than its prefetch |
| SendGate.GrantsAreUsedOrLost | src/RateLimiter/Services/RedisRateLimiter.cs:96-134 | in every window of every run the tokens one bucket grants are the handlers it lets pass plus the grants whose reply was lost |
| SendGate.HoldersWithinPrefetch | src/Queue/AbstractWorkers/SingleConsumerWorker.cs:168-171 | handlers holding an unspent grant are at most workers * prefetch |
| SendGate.BucketSeesOnlyItsCalls | src/RateLimiter/Services/RedisRateLimiter.cs:53-58 | in a fleet run a key holds what the evaluations on that key alone put there |
| SendGate.FleetRateBound | src/RateLimiter/Services/RedisRateLimiter.cs:14-61 | for every skew the TTL covers (`SkewWithinTtl`): the rate bound, capacity + rps * (elapsed + 2 * skew), for one key in every window of every run of the whole fleet |
| SendGate.SendRateBound | src/Workers/Workers/GreenApiWorker.cs:85-100 | end to end, for every skew the TTL covers (`SkewWithinTtl`): provider sends in any window, over all workers, are at most capacity + rps * (elapsed + 2 * skew) + total prefetch |
| SendGate.LoadTestTolerance | tests/NBomber/Infrastructure/RateLimitVerification.cs:46-57 | from an idle system the mean send rate is at most rps * (1 + multiplier / T), hence within the 5 percent tolerance at multiplier 1.5 for T >= 30 s |
| Drain.StepKeepsInv | src/Queue/AbstractWorkers/SingleConsumerWorker.cs:416-496 | every step of every thread keeps: the counter counts the begun handlers; at count 0 the current completion is signalled or held by exactly one thread about to signal it, otherwise neither |
| Drain.AlwaysInv | src/Queue/AbstractWorkers/SingleConsumerWorker.cs:142-147 | the invariant holds in every state of every run, from the completed initial completion on |
| Drain.DrainSafety | src/Queue/AbstractWorkers/SingleConsumerWorker.cs:416-496 | once any shutdown call has returned, no begun handler is in flight, none ever will be, and every arrival is refused |
| Drain.SettlesOnOpenChannel | src/Queue/AbstractWorkers/SingleConsumerWorker.cs:393-398 | a begun handler always runs and settles on an open channel |
| Drain.CompleteIsNeverIdle | src/Queue/AbstractWorkers/SingleConsumerWorker.cs:483-486 | the guard against a count of 0 never fires |
| Drain.AwaitingIsReleasedIff | src/Queue/AbstractWorkers/SingleConsumerWorker.cs:454-496 | an awaiting caller is blocked exactly while a handler is begun or the last one still holds the completion |
| Drain.FirstRequestCancels | src/Queue/AbstractWorkers/SingleConsumerWorker.cs:422-446 | in every run the first shutdown call cancels the consumer and every later one only waits |
| Drain.OneCallCancels | src/Queue/AbstractWorkers/SingleConsumerWorker.cs:422-454 | once shutdown is requested exactly one call was told to cancel; none returns without that |
| Drain.BeginsUnlessRequested | src/Queue/AbstractWorkers/SingleConsumerWorker.cs:460-474 | a delivery is refused exactly if a shutdown call came before it |
| Drain.ClosedIff | src/Queue/AbstractWorkers/SingleConsumerWorker.cs:393-398 | the channel is closed exactly if a call that closes it has run to its end |
| Drain.SomeoneCanStep | src/Queue/AbstractWorkers/SingleConsumerWorker.cs:416-496 | no deadlock: while a thread is not done, some thread can step |
| Drain.EveryRunEnds | src/Queue/AbstractWorkers/SingleConsumerWorker.cs:416-496 | steps taken plus steps left are at most four per arrival, so every shutdown caller is released |
| ProcessingGate.WorkerGate.TryBeginMessageProcessing | src/Queue/AbstractWorkers/SingleConsumerWorker.cs:458-475 | updates the fields as the protocol's step says; a new completion is created exactly at 0 to 1 |
| ProcessingGate.WorkerGate.CompleteLocked | src/Queue/AbstractWorkers/SingleConsumerWorker.cs:477-493 | the locked part, and which completion object it hands out |
| ProcessingGate.WorkerGate.CompleteMessageProcessing | src/Queue/AbstractWorkers/SingleConsumerWorker.cs:477-496 | the whole function when nobody comes between |
| ProcessingGate.WorkerGate.RequestShutdownLocked | src/Queue/AbstractWorkers/SingleConsumerWorker.cs:422-432 | sets the flag, tells the first caller apart, captures the current completion |
| Backoff.DelayIsExactIff | src/Queue/AbstractWorkers/SingleConsumerWorker.cs:568-574 | the delay is min(cap, base * 2^(n-1)) exactly if that fits an int32 |
| Backoff.DelayInSeconds | src/Queue/AbstractWorkers/SingleConsumerWorker.cs:570-573 | the delay in terms of the policy's base and maximum seconds, for every attempt and every policy |
| Backoff.AttemptIs | src/Queue/AbstractWorkers/SingleConsumerWorker.cs:596-613 | the attempt read from a delivery, for every form its header can have |
| Backoff.DelayGrowsWithinBounds | src/Queue/AbstractWorkers/SingleConsumerWorker.cs:568-574 | delays never shrink and lie in [base, cap] |
| Backoff.TotalDelayClosedForm | src/Queue/AbstractWorkers/SingleConsumerWorker.cs:568-574 | the sum over k retries is a geometric series up to the cap and the cap from there on |
| Backoff.HeaderChain | src/Queue/Extensions/ChannelRetryPublishExtensions.cs:17-36 | after n retries the attempt reads back as n more, the delay header is that attempt's, the body and all other headers are unchanged |
| Backoff.BuildRetryCopy | src/Queue/Extensions/ChannelRetryPublishExtensions.cs:17-36 | the delayed copy is the one of the header chain: the next handler reads this attempt from it, it carries the delay, body and other headers are those received |
| Backoff.UncappedIsLast | src/Queue/AbstractWorkers/SingleConsumerWorker.cs:568-574 | where the delays reach the cap |
| Topology.RabbitMqConnectionFactory.StartAsync | src/Queue/Services/RabbitMqConnectionFactory.cs:71-105 | after the loop exactly the declared bindings have been added and every queue has its dead-letter arguments |
| Topology.RoutesStayInChannel | src/Queue/Constants/QueueNames.cs:29-50 | delayed copies return to the queue they came from; rejected ones go to the dead-letter queue of their own channel and no other |
| Topology.NamesAre | src/Queue/Constants/QueueNames.cs:7-33 | the names of queues and exchanges |
| Topology.ManagedIff | src/Queue/Constants/QueueNames.cs:35-50 | exactly the four channel queues have retries and dead letters, each under its own routing key |
| Retry.StepKeepsInv | src/Queue/AbstractWorkers/SingleConsumerWorker.cs:176-366 | every event keeps every copy in its channel and its attempt within the policy |
| Retry.AckedAsProcessedOnlyAfterSuccess | src/Queue/AbstractWorkers/SingleConsumerWorker.cs:273-287 | in every run a copy is acknowledged as processed only after `ProcessMessageAsync` succeeded on that copy |
| Retry.PresentFromPublishOn | src/Queue/AbstractWorkers/SingleConsumerWorker.cs:176-366 | copies that stand for a message plus completions: at least one from its publish on, exactly one without faults |
| Retry.MessagesAreConserved | src/Queue/AbstractWorkers/SingleConsumerWorker.cs:273-360 | whatever fails, some copy of a published message was processed successfully and then acknowledged, or some copy is in its queue, at a consumer, at the retry exchange or in its own dead-letter queue |
| Retry.PrefetchIsKept | src/Queue/AbstractWorkers/SingleConsumerWorker.cs:168-171 | no consumer ever holds more deliveries than its prefetch count |
| Retry.CopiesWithoutFaults | src/Queue/AbstractWorkers/SingleConsumerWorker.cs:273-360 | without faults copies + completions = 1 + deliveries awaiting the ack of a published retry, hence 1 if and only if there is none |
| Retry.CopiesWithinBudget | src/Queue/AbstractWorkers/SingleConsumerWorker.cs:304-317 | without faults there are at most MaxRetries + 1 copies and completions |
| RetryRuns.CopiesReachBudget | src/Queue/AbstractWorkers/SingleConsumerWorker.cs:304-317 | for every policy a run without faults has that many copies |
| RetryBounds.InvocationsPlusPotential | src/Queue/AbstractWorkers/SingleConsumerWorker.cs:304-360 | invocations made plus invocations still possible are at most MaxRetries + 1 times one more than the failed operations and the deliveries lost in crashes |
| RetryBounds.ProcessingIsBounded | src/Queue/AbstractWorkers/SingleConsumerWorker.cs:304-360 | at most (MaxRetries + 1) * (failed operations + prefetch * crashes + 1) invocations descend from one publish |
| RetryRuns.PlainBoundIff | src/Queue/AbstractWorkers/SingleConsumerWorker.cs:168-171 | with a crash counted once, (MaxRetries + 1) * (faults + 1) is a bound in all runs if and only if there are no retries or the prefetch is at most 1 |
| RetryRuns.InvocationsReachBudget | src/Queue/AbstractWorkers/SingleConsumerWorker.cs:304-328 | for every policy a run without faults has MaxRetries + 1 invocations |
| RetryBounds.NonTransientInvocationIsLast | src/Queue/AbstractWorkers/SingleConsumerWorker.cs:306-343 | without faults an invocation that does not fail transiently is the last one |
| Handler.SettleAllIsCourse | src/Queue/AbstractWorkers/SingleConsumerWorker.cs:297-361 | the settling events of one delivery touch only that delivery and the copies it publishes |
| Handler.RetryCourse | src/Queue/AbstractWorkers/SingleConsumerWorker.cs:311-359 | where a delivery with a retry to schedule ends, for every way publish, ack and nack can end |
| Handler.DeliveryEndsWhenAllGoesWell | src/Queue/AbstractWorkers/SingleConsumerWorker.cs:176-343 | when every operation succeeds: success ends acknowledged, a transient failure with retries left in an ack and one delayed copy with the next attempt, every other outcome in the dead-letter queue of the channel, a refused delivery in its queue |
| Handler.SucceededDeliveryEnds | src/Queue/AbstractWorkers/SingleConsumerWorker.cs:287-359 | where a successfully processed delivery ends for every way ack, reject and nack can end |
| Handler.NullMessageEnds | src/Queue/AbstractWorkers/SingleConsumerWorker.cs:290-359 | the same for a body that decodes to null |
| Handler.FailedDeliveryEnds | src/Queue/AbstractWorkers/SingleConsumerWorker.cs:335-359 | the same for a failure that is not retried |
| Handler.RetriedDeliveryEnds | src/Queue/AbstractWorkers/SingleConsumerWorker.cs:311-359 | the same for a transient failure with retries left, and when the delayed copy exists |
| Handler.RefusedDeliveryGoesBack | src/Queue/AbstractWorkers/SingleConsumerWorker.cs:178-185 | a refused delivery goes back to its queue unless the nack fails |
| Handler.Worker.ReceivedAsync | src/Queue/AbstractWorkers/SingleConsumerWorker.cs:176-366 | the handler with its nested try blocks is a run of the retry machine, for every outcome and every way its operations end |
| Handler.Worker.Catch | src/Queue/AbstractWorkers/SingleConsumerWorker.cs:297-361 | the catch block and the inner catch block |
| ChannelWorker.Repository.ProcessMessage | src/Workers/Workers/GreenApiWorker.cs:54-118 | duplicate check, checks, gates, send, status update and status message in the source's order |
| ChannelWorker.CallSendsIff | src/Workers/Workers/GreenApiWorker.cs:54-118 | one call sends exactly if the task exists and is not sent, the credential is right, both gates let it pass and the provider delivers; when the row and the status queue change |
| ChannelWorker.CallEndsIff | src/Workers/Workers/GreenApiWorker.cs:54-118 | when the call succeeds, fails transiently or fails otherwise |
| ChannelWorker.Repository.ProcessStatus | src/Orchestrator/Workers/MessageStatusWorker.cs:52-66 | the other writer of the status |
| ChannelWorker.SentIsNeverLeft | src/Orchestrator/Workers/MessageStatusWorker.cs:52-66 | status Sent is never left, and from then on nothing is sent |
| ChannelWorker.SendsAreCounted | src/Workers/Workers/GreenApiWorker.cs:54-118 | successful sends = status updates lost after a send + 1 once the row says Sent |
| ChannelWorker.EverySendIsADelivery | src/Workers/Workers/GreenApiWorker.cs:54-118 | over every run: sends = deliveries that met the conditions of a send; status messages under way = those announced less those consumed |
| ChannelWorker.AtMostOneSendWithoutFaults | src/Queue/AbstractWorkers/SingleConsumerWorker.cs:306-343 | without channel faults a published message is sent at most once, even if its status update fails |
| HtmlToWP.Traverse | src/Adapters/Helpers/HtmlToWPHelper.cs:60-84 | appends the fragments of the children to the shared list |
| HtmlToWP.TraversalIsStyledLeaves | src/Adapters/Helpers/HtmlToWPHelper.cs:60-84 | the traversal yields exactly the nonempty text leaves in document order, styled by the union of their ancestors' tags, and one unstyled newline before the contents of each closed p |
| HtmlToWP.ApplyStyles | src/Adapters/Helpers/HtmlToWPHelper.cs:126-139 | opening marks, word, mirrored marks |
| HtmlToWP.TagsMean | src/Adapters/Helpers/HtmlToWPHelper.cs:13-24 | which tag names mean which style |
| HtmlToWP.BuildText | src/Adapters/Helpers/HtmlToWPHelper.cs:86-124 | the nested loops compute `Format`: each maximal word decorated, every separator kept |
| HtmlToWP.FormatConcat | src/Adapters/Helpers/HtmlToWPHelper.cs:107-119 | after a separator the formatting starts afresh |
| HtmlWords.WordForWordAlways | src/Adapters/Helpers/HtmlToWPHelper.cs:86-139 | the pieces of the output are the decorated words, between the separators of the input |
| HtmlWords.SpacesAndNewlinesSeparate | src/Adapters/Helpers/HtmlToWPHelper.cs:26-26 | the pieces contain no space and no newline, and the separators are nothing else |
| HtmlWords.WordInElement | src/Adapters/Helpers/HtmlToWPHelper.cs:60-139 | from the tree to the text: any word in one element comes out between the two marks of its tag, after a line break if the element is a closed paragraph |
| HtmlWords.MarksOfSeveral | src/Adapters/Helpers/HtmlToWPHelper.cs:126-139 | the order of several marks, and its mirror after the word |
| HtmlWords.OutputIsDecoratedWordForWord | src/Adapters/Helpers/HtmlToWPHelper.cs:86-139 | as many pieces as the input text; each nonempty piece is open(U) + word + reverse(open(U)), empty pieces stay empty |
| HtmlWords.OutputDependsOnWordStylesOnly | src/Adapters/Helpers/HtmlToWPHelper.cs:105-121 | the output is invariant under any re-fragmentation that keeps the text and each word's style union |
| HtmlWords.WordCarriesStylesOfItsLeaves | src/Adapters/Helpers/HtmlToWPHelper.cs:53-139 | a word carries a mark exactly if some leaf contributing to it lies inside an element with that tag |
| PercentEncoding.Utf8RoundTrip | src/Queue/Telemetry/QueueTelemetry.cs:87-87 | every Unicode scalar value is read back from its UTF-8 bytes |
| PercentEncoding.Utf8Is | src/Queue/Telemetry/QueueTelemetry.cs:87-87 | the four UTF-8 forms: the shortest that fits, with the weight of every byte |
| PercentEncoding.UnreservedAre | src/Queue/Telemetry/QueueTelemetry.cs:87-87 | which characters are left unescaped |
| PercentEncoding.EscapeRoundTrip | src/Queue/Telemetry/QueueTelemetry.cs:111-112 | unescaping undoes escaping, for every text |
| PercentEncoding.EscapedIsPlain | src/Queue/Telemetry/QueueTelemetry.cs:87-87 | an escaped text has no comma, equals sign or white space |
| Baggage.ParseBaggage | src/Queue/Telemetry/QueueTelemetry.cs:93-121 | the parser's loop computes `Parsed` |
| Baggage.BaggageRoundTrip | src/Queue/Telemetry/QueueTelemetry.cs:83-121 | parsing what was printed yields, in order and with multiplicity, exactly the items with a non-blank key and a non-null value |
| Baggage.ForeignHeaderIsRead | src/Queue/Telemetry/QueueTelemetry.cs:93-121 | a header written by any service is read entry by entry: white space around keys and values is dropped, entries without an equals sign or with a blank key are skipped, the value is all that follows the first equals sign |
| Baggage.TrimIs | src/Queue/Telemetry/QueueTelemetry.cs:101-105 | trimming removes exactly the white space around a text |
| Baggage.ParsedBaggageIsStable | src/Queue/Telemetry/QueueTelemetry.cs:83-121 | for every incoming header, printing what was parsed gives a header that parses the same |
| Orchestrator.OrchestratorService.ProcessSendRequest | src/Orchestrator/Services/OrchestratorService.cs:38-157 | replay check, inserts, and the loop with its try block |
| Orchestrator.FirstCallReachesRecipients | src/Orchestrator/Services/OrchestratorService.cs:73-157 | a first call adds, in item order, one message for each recipient it reached, on the queue of that recipient's channel and with its content, credential and address, and answers with one error for each of the others that names it and the reason |
| Orchestrator.ReplayAnswersOnly | src/Orchestrator/Services/OrchestratorService.cs:38-51 | a replayed call changes nothing and answers without errors, or as a duplicate if the request cannot be read |
| Orchestrator.RowsOfCall | src/Orchestrator/Services/OrchestratorService.cs:90-102 | every recipient with a credential gets exactly one row with its data, in item order, stored or still pending |
| Orchestrator.AppDbContext.AddMessageTask | src/Data/Repositories/MessageRepository.cs:25-37 | a save stores everything pending in the order it was added, the new task last, or nothing; the task gets its id only then |
| Orchestrator.EveryItemIsAccountedOnce | src/Orchestrator/Services/OrchestratorService.cs:73-148 | each recipient yields exactly one published message or one channel error, in item order |
| Orchestrator.PublishedTaskHasRowIff | src/Orchestrator/Services/OrchestratorService.cs:102-119 | a published task refers to a stored row exactly if the save of that task succeeded |
| Orchestrator.RecordedBySomeSave | src/Data/Repositories/MessageRepository.cs:39-51 | a first call records its request exactly if some save of the call succeeded; otherwise it stores nothing at all |
| Orchestrator.EntriesAreCounted | src/Orchestrator/Services/OrchestratorService.cs:38-63 | in every run of calls those with one id that get past the replay check are the ones that left no record, plus one if the id is recorded; so at most one more than its failed request inserts |
| Orchestrator.RecordedRequestIsSettled | src/Orchestrator/Services/OrchestratorService.cs:38-51 | from the first recorded call on, whatever else is called, the rows and messages of that request stay as they are |
| Orchestrator.RepeatedRequestIsBounded | src/Orchestrator/Services/OrchestratorService.cs:73-119 | repeating a request puts at most one more message for a recipient on the queues, per mention, than calls that left no record |
| Orchestrator.LostRecordPublishesAgain | src/Orchestrator/Services/OrchestratorService.cs:63-119 | if every save of a call fails, its messages are published and a repeated call publishes again |

## Left out

- SendGate.SendRateBound: both limits are positive and fixed during a run; reloading the configuration is not modelled.
- RateLimiter.RedisRateLimiter.Loop: the run may be cut off after any number of turns (status Waiting), which stands for a loop still running.
- Floating-point rounding, the millisecond truncation of the clock and timer granularity: arithmetic is exact.
- The lookups `ResolveMaxRps`, `ResolveCredentialMaxRps` and `GetByQueueName`: the limit of a key and the policy of a queue are parameters.
- `CredentialKey` takes the trimmed and lower-cased credential; the normalisation itself is not modelled.
- A crash ends the handlers of the consumer: a handler that outlives a lost connection and goes on settling after its deliveries were handed out again is not modelled.
- Nacks of deliveries refused during shutdown run outside the in-flight count, as in the source; the drain claims are about begun handlers.
- Publisher confirms and returned messages: a publish that returns was routed by the declared bindings. An orchestrator publish that throws is taken not to have reached the queue.
- Rejects of the status queue, which has no dead-letter exchange: that queue is outside message conservation.
- Orchestrator.AppDbContext.AddMessageTask: a save that reports a failure stored nothing, row ids are consecutive, and entities are values that are returned with their id.
- An exception of the existence check, which ends the call before it wrote anything.
- Two deliveries of one task, or two first calls with one request id, handled at the same time: check and act are not atomic there, so those claims are about serialized handling.
- `Uri.UnescapeDataString` on malformed escapes: they are copied unchanged, one character at a time.
- Texts are sequences of Unicode scalar values, so lone surrogates do not occur; the byte form of the baggage header is not modelled.
- HTML parsing, the `&nbsp;` replacement and the final trim: the model starts from a tree with a closed flag on each element.
- Network clients, storage, logging, metrics, the API, the admin panel and the trace id copied to the request row.
- `GetConnection` and `DisposeAsync` of the connection factory, whose `_started` guards look inverted: a connection is taken to be available.
