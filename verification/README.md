# A verified model of Dramatiq's delivery core

This project models the parts of Dramatiq that decide whether a message is
delivered, how often, and in what order, and proves what they keep over every
run. `dafny verify dfyconfig.toml` checks all of it.

**The Redis broker.** `Keyspace`, `DispatchSpec` and `Lifecycle` describe one
call of the dispatch script as one atomic step (heartbeat, perhaps maintenance,
one command) by any worker on any queue, next to a status machine over message
ids: queued, leased by a worker, acked, dead-lettered, expired, purged. The
database refines that machine over every run. `Dispatch` is the script itself,
loop by loop, proved to take such a step; `Effects` says what each command does
in terms of the lists, hashes and sets. `Recovery` is about heartbeats,
leases of silent workers and `qsize`, `Delivery` about payloads and order;
`Consumers` is the client side of a queue, `QueueNames` and `Brokers` enqueueing.

**Workers.** `Workers` has the consumer thread with its delay queue and the
worker thread; the attempts at broker calls that they make follow the programs
that `NoLoss` interleaves with everything else, including workers that stop
between two calls and replies that are lost. `Settlement` is about acks and nacks
that are repeated, `Retries` decides what follows a failed attempt.

**Rate limits.** `Backend` gives each operation on the counters as a function
of the clock readings that it takes, `Stub` the backend under a mutex, `Redis`
the retry loops against a server that others write to, `Optimistic` the same
loops as interleaved clients, and `LockFreedom` their termination. On top are
`WindowLimiter`, `RedisWindow`, `ConcurrentLimiter`, `RateLimiter` and `Barrier`.

**Pipelines and groups.** `Composition` has messages whose option dictionaries
are heap objects that `asdict` shares; `PipelineRun` runs what was linked.

A worker that stops is one that makes no more calls. Ids (UUIDs) are new when
they are enqueued. Times, jitter, which calls do maintenance, the outcome of an
actor, whether a call is made and whether its reply arrives are parameters or
arbitrary choices. One rate-limit clock serves both for the window's second and
for expiry.

Things the code does that a reader might not expect, each proved here:

- A worker whose heartbeat timeout is not positive can sweep its own heartbeat
  away and then take messages that no maintenance finds
  (`Recovery.StepBeats` says exactly when, `Recovery.ZeroTimeoutEvicts` is a run).
- The window limiter's counters and limit hold exactly as long as every grant is
  written in the second of its counter (`WindowLimiter.LimitExactly`, `RedisWindow.LimitExactly`);
  one grant that straddles two seconds is enough to exceed it
  (`WindowLimiter.StraddlingBreaksLimit`).
- Without such grants it is a limit for `window` whole seconds, hence for any
  stretch of `window - 1` seconds of real time, but for no longer stretch
  (`WindowLimiter.LongerSpanFails`).
- The concurrent limiter's counter and limit hold exactly as long as every
  operation made while somebody holds a slot comes within a time-to-live of the
  last write (`ConcurrentLimiter.LimitExactly`). Overstaying does no harm while
  others keep writing; otherwise it can let in as many clients as the limit again
  (`ConcurrentLimiter.Overstaying`).
- A barrier reports "cleared" once its key has expired, and a group member that
  succeeds twice repeats the callbacks (`Barrier.ClearedExactly`,
  `Barrier.CallbacksPerSuccess`).
- The chain of a pipeline ends with its last message only if that message did
  not already carry a target (`Composition.Unfolds`).
- When the enqueue of a retry raises, the message is acked all the same, and is
  lost if no copy was stored (`Workers.WorkerThread.ProcessMessage`).
- A message that was sent with a delay to a queue named like a delay or
  dead-letter queue is released under another name (`Brokers.DelayRoundTrip`).

## Model

| member | source | states |
|---|---|---|
| `NoLoss.NothingIsLost` | dramatiq/worker.py:346-362 | at every point of every history, wherever workers have stopped and whichever replies were lost, each submitted message not effectively settled or purged still has a stored copy that is listed or leased |
| `NoLoss.NextKeeps` | dramatiq/worker.py:600-608 | every step (submission, each single broker call of a hand-off or settlement, its repetition after a lost reply, a stop, anyone's fetch, requeue or purge) keeps the newest copy of an unfinished message live |
| `NoLoss.SendKeeps` | dramatiq/middleware/retries.py:147-148 | enqueueing the successor copy first makes the pending ack of the predecessor harmless |
| `NoLoss.SettleKeeps` | dramatiq/brokers/redis/dispatch.lua:190-212 | an ack or nack removes only a superseded copy or one whose message is thereby done |
| `NoLoss.DoneForAReason` | dramatiq/worker.py:400-421 | a message is done only when a copy of it leaves its queue, by the ack or nack of a task that hands nothing off, or by a purge with its newest copy |
| `NoLoss.JoinWaits` | dramatiq/brokers/redis.py:211-236 | the queue size is positive while a message is unfinished, also between the two calls of a hand-off |
| `NoLoss.AttemptIsStep` | dramatiq/worker.py:407-439 | attempts that follow a worker's program are steps of such a history: each one that is made is one, answered or not, and the rest still follows what is left of the program |
| `Settlement.FirstSettles` | dramatiq/brokers/redis/dispatch.lua:190-212 | an ack or nack by the holder of the lease takes effect, whatever maintenance the same call does |
| `Settlement.RepeatsChangeNothing` | dramatiq/worker.py:407-440 | over every run, after the first ack or nack that was made the message stays finished, and any later ack or nack of it, by anyone, changes no list, payload, dead letter or other worker's lease |
| `Lifecycle.LeaseInvariant` | dramatiq/brokers/redis/dispatch.lua:110-217 | over every run the list has no duplicates, listed ids have payloads and no lease, every other payload is leased, and lease sets are disjoint |
| `Lifecycle.StepRefines` | dramatiq/brokers/redis/dispatch.lua:56-231 | one call of the script is one step of the status machine for every id, on every queue and dead-letter queue |
| `Lifecycle.RunAgrees` | dramatiq/brokers/redis/dispatch.lua:56-231 | over every interleaving the lists, hashes, lease sets and dead letters are what the statuses say |
| `Lifecycle.CommandRefinesOn` | dramatiq/brokers/redis/dispatch.lua:144-217 | each command moves each id as its status allows |
| `Lifecycle.TidyRefinesOn` | dramatiq/brokers/redis/dispatch.lua:110-141 | maintenance requeues the leases of dead workers that have a payload and expires old dead letters, and nothing else |
| `Lifecycle.RequeuedIs` | dramatiq/brokers/redis/dispatch.lua:178-187 | requeueing gives up exactly the caller's listed leases and appends those with a payload, once each |
| `Lifecycle.FetchFindsPayloads` | dramatiq/brokers/redis/dispatch.lua:154-173 | no fetch of any run answers with a missing payload |
| `Lifecycle.DeadLettersAgree` | dramatiq/brokers/redis/dispatch.lua:134-140 | the dead-letter set and its payload hash always hold the same ids, none of them still on a queue |
| `Lifecycle.StepIsAllowed` | dramatiq/brokers/redis/dispatch.lua:178-217 | a finished id stays finished, and a live id never changes queues |
| `Lifecycle.FinishedNeverReturns` | dramatiq/brokers/redis/dispatch.lua:190-217 | an acked, dead-lettered, expired or purged id is never listed or stored on a queue again |
| `Lifecycle.LateCallsChangeNothing` | dramatiq/brokers/redis/dispatch.lua:178-212 | a late ack, nack or requeue by a worker that lost the lease changes no list, payload, dead letter or other worker's lease |
| `Delivery.PayloadsLast` | dramatiq/brokers/redis/dispatch.lua:145-217 | over every run a message has only the payload it was enqueued with, on its queue and among the dead letters |
| `Delivery.FetchGivesWhatWasEnqueued` | dramatiq/brokers/redis/dispatch.lua:154-173 | a fetch answers, for each id it leases, with the payload enqueued under that id |
| `Delivery.NoOvertaking` | dramatiq/brokers/redis/dispatch.lua:110-187 | over every run, while a message waits on the list, whatever was behind it waits too and stays behind it |
| `Delivery.ArrivesLast` | dramatiq/brokers/redis/dispatch.lua:110-187 | whatever arrives on a list, by an enqueue, a requeue or maintenance, arrives behind all that was there and stays |
| `Delivery.FirstInFirstOut` | dramatiq/brokers/redis/dispatch.lua:145-173 | over every run, a message enqueued while another one waits is listed behind it for as long as that one waits |
| `Delivery.FetchedInOrder` | dramatiq/brokers/redis/dispatch.lua:154-173 | a fetch that takes a message takes those listed before it, and their payloads come in this order |
| `Delivery.CommandKeepsOrder` | dramatiq/brokers/redis/dispatch.lua:144-217 | no command changes the order of two listed messages of which the first stays |
| `Delivery.CommandAppends` | dramatiq/brokers/redis/dispatch.lua:144-187 | what a command adds to the list goes to its end |
| `Effects.EnqueueAppends` | dramatiq/brokers/redis/dispatch.lua:145-150 | an enqueue adds the id at the end of the list, stores its payload and changes nothing else of the queue |
| `Effects.FetchTakesHead` | dramatiq/brokers/redis/dispatch.lua:154-173 | a fetch takes as many ids off the head as prefetch and unpack limit allow, stopping early only at the end of the list, leases exactly those and answers with their payloads in order |
| `Effects.RequeueAppends` | dramatiq/brokers/redis/dispatch.lua:178-187 | the leases named that still have a payload go to the end of the list in the order of the arguments, and all the named leases are given up |
| `Effects.AckDrops` | dramatiq/brokers/redis/dispatch.lua:191-196 | an ack by the holder drops lease and payload only; by anyone else it does nothing |
| `Effects.NackBuries` | dramatiq/brokers/redis/dispatch.lua:200-212 | a nack by the holder moves the payload to the dead letters as of now; by anyone else it does nothing |
| `Effects.PurgeEmpties` | dramatiq/brokers/redis/dispatch.lua:216-217 | list, payloads, dead letters and the caller's leases are empty |
| `Effects.SizeAnswers` | dramatiq/brokers/redis/dispatch.lua:221-231 | the answer counts the two payload hashes and the caller's two lease sets, and nothing changes |
| `Effects.OthersUntouched` | dramatiq/brokers/redis/dispatch.lua:144-231 | no command touches another queue, another worker's leases, or dead letters but by a nack or purge |
| `Effects.HeartbeatIsNow` | dramatiq/brokers/redis/dispatch.lua:58 | the caller's heartbeat is the time of its call and the others keep theirs, unless swept |
| `Effects.LettersExpire` | dramatiq/brokers/redis/dispatch.lua:134-140 | maintenance expires exactly the queue's dead letters at least the time-to-live old, set and hash alike |
| `Dispatch.Script.Dispatch` | dramatiq/brokers/redis/dispatch.lua:45-232 | the script's loops take exactly one step of the specification and answer from the state between maintenance and command; an enqueued id is last, a fetch that gets less than it may leaves an empty list, a purge leaves nothing |
| `Dispatch.Script.Maintain` | dramatiq/brokers/redis/dispatch.lua:110-141 | exactly the leases of workers with an old heartbeat go back, once each; only workers without leases lose their heartbeat; exactly the overdue dead letters go |
| `Dispatch.Script.SweepWorkers` | dramatiq/brokers/redis/dispatch.lua:111-132 | the loop over dead workers sweeps exactly those |
| `Dispatch.Script.ReturnLeases` | dramatiq/brokers/redis/dispatch.lua:116-124 | one dead worker's leases are emptied and those with a payload appended once |
| `Dispatch.Script.ExpireLetters` | dramatiq/brokers/redis/dispatch.lua:134-140 | chunked expiry removes exactly the overdue ids from set and hash |
| `Dispatch.Script.Fetch` | dramatiq/brokers/redis/dispatch.lua:154-173 | the head of the list moves into the caller's lease set, as much as prefetch and unpack limit allow: a shorter reply means that the list is empty |
| `Dispatch.Script.Requeue` | dramatiq/brokers/redis/dispatch.lua:178-187 | the requeue loop computes the specified queue |
| `Dispatch.Script.Nack` | dramatiq/brokers/redis/dispatch.lua:200-212 | a leased message moves with its payload to the dead letters |
| `Dispatch.ChunkIterator.Next` | dramatiq/brokers/redis/dispatch.lua:88-103 | chunks are nonempty consecutive pieces of at most the unpack size that together are the input |
| `Dispatch.SweepOne` | dramatiq/brokers/redis/dispatch.lua:112-124 | sweeping one more worker after others keeps the returned ids distinct |
| `Recovery.StepBeats` | dramatiq/brokers/redis/dispatch.lua:58-132 | lease holders keep their heartbeat in a step exactly unless the caller sweeps itself off and then fetches |
| `Recovery.HoldersBeat` | dramatiq/brokers/redis/dispatch.lua:126-131 | with positive timeouts every lease holder is in the heartbeat set over every run |
| `Recovery.ZeroTimeoutEvicts` | dramatiq/brokers/redis/dispatch.lua:111-131 | a run of two calls in which a worker with timeout zero holds a lease without a heartbeat |
| `Recovery.SilentLeaseReturns` | dramatiq/brokers/redis/dispatch.lua:110-124 | another worker's maintenance gives a message back exactly if its holder's heartbeat is at least the timeout old |
| `Recovery.OwnLeaseStays` | dramatiq/brokers/redis/dispatch.lua:58-124 | maintenance never takes the caller's own leases |
| `Recovery.SizeCounts` | dramatiq/brokers/redis/dispatch.lua:221-231 | the queue size is lists plus all live leases of the queue and its delay queue, plus the caller's lease sets once more |
| `Recovery.SizeZero` | dramatiq/brokers/redis.py:227-236 | the size is zero exactly if nothing is unfinished there at any worker and the caller holds no lease, stale ones included |
| `Recovery.PayloadsCount` | dramatiq/brokers/redis/dispatch.lua:221-231 | the payload hash counts queued and leased messages, each once |
| `Consumers.RedisConsumer.Next` | dramatiq/brokers/redis.py:334-373 | at most `prefetch` messages are ever outstanding, the branch for a missing payload is dead, payloads come in the order of the reply, the server is asked only by an empty cache with room and for exactly the free slots, and a consumer in step with its lease set stays so |
| `Consumers.RedisConsumer.FetchBatch` | dramatiq/brokers/redis.py:359-364 | a batch fills the free slots, unless the unpack limit or the end of the list stops it, every payload is there, and the lease set grows by exactly the batch |
| `Consumers.FetchFills` | dramatiq/brokers/redis/dispatch.lua:156-168 | a fetch gets all it asks for, or the unpack limit, or the list is empty afterwards |
| `Consumers.RedisConsumer.TakeCached` | dramatiq/brokers/redis.py:342-354 | with distinct message ids a popped message is one not handed out before |
| `Consumers.RedisConsumer.Settle` | dramatiq/brokers/redis.py:306-324 | whatever comes of the call the message is no longer counted; a successful call was a nack or an ack by the message's outcome, and its lease is gone |
| `Consumers.RedisConsumer.RequeueAll` | dramatiq/brokers/redis.py:326-332 | no call for no messages, else one requeue of the ids of all of them, after which the worker holds none of their leases; the counts stay |
| `Consumers.RedisConsumer.OutstandingIsLeases` | dramatiq/brokers/redis.py:302-304 | in step, the outstanding count is the size of the server's lease set |
| `Consumers.CountIsLeases` | dramatiq/brokers/redis.py:302-304 | the same over the values: cached ids and handed-out messages are disjoint and cover the lease set |
| `Consumers.OthersKeepInStep` | dramatiq/brokers/redis/dispatch.lua:110-217 | another worker's call puts a consumer out of step exactly if it purges the queue or sweeps the worker while it holds leases |
| `Consumers.FetchGives` | dramatiq/brokers/redis.py:342-364 | the reply to a fetch is the payloads of the ids now leased, none missing |
| `Brokers.RedisBroker.Enqueue` | dramatiq/brokers/redis.py:150-186 | a copy under a new id is stored last on its queue, labelled with that id; with a delay it is the delay queue and the eta is now plus the delay, without one both are as they were |
| `Brokers.DelayRoundTrip` | dramatiq/worker.py:356-360 | a delayed message that is released is stored as without the delay, exactly if it was sent to a canonical queue |
| `QueueNames.DelayQueueBelongs` | dramatiq/common.py:143-173 | a delay queue has the canonical queue and dead letters of its queue and is its own delay queue |
| `QueueNames.NamesSpelled` | dramatiq/common.py:143-173 | the three names of a plain queue, and each of them from the others |
| `QueueNames.DeadLettersAgree` | dramatiq/brokers/redis/dispatch.lua:60-71 | script and client name the same dead-letter queue exactly unless the name itself ends in ".XQ" |
| `QueueNames.KeysAreNames` | dramatiq/brokers/redis/dispatch.lua:60-71 | structured keys and Redis names correspond one to one unless a canonical name ends in ".DQ" |
| `Workers.ConsumerThread.HandleDelayedMessages` | dramatiq/worker.py:346-362 | nothing is released before its eta, releases are in eta and queueing order, nothing due is left, no item is lost or doubled, the unfinished count drops by the releases, and the attempts for each release perform a hand-off |
| `Workers.ConsumerThread.ReleaseNext` | dramatiq/worker.py:348-362 | one round releases the item with the least eta, first queued first, if it is due, by an answered enqueue and then acks; it puts it back if not due, and leaves it leased if the enqueue raises, whether or not its copy was stored |
| `Workers.RoundIsAccepted` | dramatiq/worker.py:356-362 | the attempts of a round follow a hand-off of the kind that histories admit, to its end if the item was released |
| `Workers.OneRound` | dramatiq/worker.py:255-269 | rounds extend the released items in order and stay before what is left |
| `Workers.ConsumerThread.HandleMessage` | dramatiq/worker.py:364-398 | a message with an eta is delayed until then, an invalid eta counts as now, no eta means the work queue, and without an actor it is nacked |
| `Workers.ConsumerThread.PostProcessMessage` | dramatiq/worker.py:400-439 | every attempt is a nack if the message failed and an ack if not, only the last one is answered, and together they follow the program of one settlement |
| `Workers.AnsweredSettles` | dramatiq/worker.py:407-421 | any number of unanswered attempts and then an answered one perform a settlement exactly |
| `Workers.WorkerThread.ProcessMessage` | dramatiq/worker.py:542-608 | the message fails exactly if it had failed or raised without a retry; a retry is first enqueued on the delay queue; then it is nacked or acked by the failed flag, until answered; and all this follows a program that histories admit |
| `Workers.SendThenSettle` | dramatiq/middleware/retries.py:147-148 | an enqueue that was made and a settlement perform a hand-off; one that was not made leaves the settlement alone |
| `Workers.WorkerThread.AfterProcessMessage` | dramatiq/middleware/retries.py:97-148 | an expected failure fails the message and does nothing else; refused retries fail it and tell the `on_retry_exhausted` actor, if there is one, the retries so far; otherwise a copy goes to the delay queue with exactly the delay asked for, or a backoff within its bounds |
| `Workers.PriorityQueue.GetNowait` | dramatiq/worker.py:255-269 | an item of least priority leaves, among equals one queued first, and the others stay |
| `Retries.ProcessedExactly` | dramatiq/middleware/retries.py:114-137 | an always-failing message is processed exactly `max_retries + 1` times, once if that is negative, and then fails; without a bound it never stops |
| `Retries.ProcessedUntil` | dramatiq/middleware/retries.py:115-118 | with `retry_when` it is processed until the predicate first refuses |
| `Retries.CountsUp` | dramatiq/middleware/retries.py:108-110 | attempt number i sees i earlier retries |
| `Retries.BackoffBounds` | dramatiq/common.py:56-72 | a jittered backoff lies between min(base, max/2) and min(2 base, max) |
| `Retries.BackoffExactly` | dramatiq/common.py:56-72 | exactly which backoffs the jitter can give: from the base to twice the base or the maximum, and the upper half of the maximum if twice the base exceeds it |
| `Retries.PlainBackoffGrows` | dramatiq/common.py:56-72 | without jitter, backoffs grow with the attempts up to the maximum and are equal from the maximum exponent on |
| `Retries.PlainBackoffDoubles` | dramatiq/common.py:56-70 | the first backoff is the factor and each extra attempt doubles it, below the maximum |
| `Retries.WaitBounds` | dramatiq/middleware/retries.py:139-148 | the delays of the first n retries sum to within the sums of those bounds |
| `Optimistic.StepRefines` | dramatiq/rate_limits/backends/redis.py:48-103 | every interleaved WATCH, GET, MGET or EXEC leaves the table alone or is the whole atomic operation of its client at that instant; a commit that summed a counter without watching it is still an atomic increment |
| `Optimistic.NextKeeps` | dramatiq/rate_limits/backends/redis.py:82-103 | what a client has read is still so while its watch is intact |
| `Optimistic.NeverAboveMaximum` | dramatiq/rate_limits/backends/redis.py:82-103 | however any number of clients interleave, and whatever they do to other counters, the given ones never sum above the maximum if every client that raises one bounds a watched sum including them all by at most the maximum |
| `Optimistic.SumOverFewer` | dramatiq/rate_limits/backends/redis.py:92-96 | a sum over some of the counters is at most the sum over all, so a client may bound more than is asked |
| `Optimistic.AddZeroInvisible` | dramatiq/rate_limits/backends/stub.py:59-60 | the stub's separate add of a zero changes no later reading |
| `Redis.RedisBackend.Incr` | dramatiq/rate_limits/backends/redis.py:48-63 | the loop ends, and its result is that of the atomic increment on the server's table at the last moment of the call |
| `Redis.RedisBackend.Decr` | dramatiq/rate_limits/backends/redis.py:65-80 | the same for the bounded decrement |
| `Redis.RedisBackend.IncrAndSum` | dramatiq/rate_limits/backends/redis.py:82-103 | with `keys()` evaluated anew for every WATCH and MGET: every refusal is right, every grant is an atomic increment, and it is the whole atomic bounded sum if every summed counter was watched, as when both lists agree |
| `Redis.RedisBackend.TryIncrAndSum` | dramatiq/rate_limits/backends/redis.py:85-103 | one attempt: a refusal, a grant, or a WatchError that has used up a write of another client or the expiry of a key |
| `Redis.Progress` | dramatiq/rate_limits/backends/redis.py:62-63 | each WatchError has used up a write of another client or the expiry of a key |
| `LockFreedom.FailuresBounded` | dramatiq/rate_limits/backends/redis.py:48-80 | n calls on a key that does not expire meet at most n(n-1)/2 watch failures altogether |
| `LockFreedom.DebtPays` | dramatiq/rate_limits/backends/redis.py:48-80 | every failure is charged to a commit of another client |
| `LockFreedom.CallsEnd` | dramatiq/rate_limits/backends/redis.py:48-80 | n calls are over after at most 3(n + n(n-1)/2) commands altogether |
| `Stub.StubBackend.Add` | dramatiq/rate_limits/backends/stub.py:35-41 | the counter is stored exactly if none is live, to expire a time-to-live later |
| `Stub.StubBackend.Incr` | dramatiq/rate_limits/backends/stub.py:43-49 | the sum with what is live is stored exactly if it is at most the maximum |
| `Stub.StubBackend.Decr` | dramatiq/rate_limits/backends/stub.py:51-57 | the difference from what is live is stored exactly if it is at least the minimum |
| `Stub.StubBackend.IncrAndSum` | dramatiq/rate_limits/backends/stub.py:61-71 | in the second critical section the sum is stored exactly if neither it nor the amount and all counters together exceed the maximum, the keys computed again and each read at its own time |
| `WindowLimiter.WindowHolds` | dramatiq/rate_limits/window.py:53-65 | over every interleaving in which no grant straddles two seconds, at most `limit` grants fall into any `window` consecutive seconds |
| `WindowLimiter.LimitExactly` | dramatiq/rate_limits/window.py:53-65 | over every interleaving the counters that count are exact and no window is over its limit, exactly if every grant was written in the second of its counter |
| `WindowLimiter.StepExactly` | dramatiq/rate_limits/backends/stub.py:59-91 | the same for one step: a counter equals the grants of its second and outlives every window with that second |
| `WindowLimiter.LateIsInexact` | dramatiq/rate_limits/window.py:57-65 | a grant written in a later second than its counter's is missing from that second |
| `WindowLimiter.GrantDecides` | dramatiq/rate_limits/window.py:57-65 | an acquisition within one second is granted exactly if its window has room |
| `WindowLimiter.ShorterSpanHolds` | dramatiq/rate_limits/window.py:44-65 | any stretch of `window - 1` seconds of real time sees at most `limit` grants |
| `WindowLimiter.LongerSpanFails` | dramatiq/rate_limits/window.py:44-65 | for any longer stretch there is a run with more |
| `WindowLimiter.StraddlingBreaksLimit` | dramatiq/rate_limits/window.py:57-65 | for every limiter there is a run in which one grant straddles two seconds and a window of whole seconds sees `limit + 1` grants |
| `RedisWindow.LimitExactly` | dramatiq/rate_limits/window.py:57-65 | over every interleaving of acquisitions as Redis transactions, the window's counters and limit hold exactly if every commit came in the second of its counter |
| `RedisWindow.WindowHolds` | dramatiq/rate_limits/backends/redis.py:82-103 | so at most `limit` commits fall into any `window` consecutive seconds |
| `RedisWindow.CommitStores` | dramatiq/rate_limits/backends/redis.py:98-101 | a commit writes the counter of its own second only, and is the atomic bounded sum if the keys were computed in that second |
| `ConcurrentLimiter.LimitExactly` | dramatiq/rate_limits/concurrent.py:46-54 | over every interleaving the counter is the number of holders and at most `limit`, exactly if every operation made while somebody holds a slot comes within a time-to-live of the last write |
| `ConcurrentLimiter.NeverOverLimit` | dramatiq/rate_limits/concurrent.py:46-54 | so it is enough that holders release within the time-to-live of their acquisition |
| `ConcurrentLimiter.StepExactly` | dramatiq/rate_limits/concurrent.py:46-54 | the same for one step, which then lets a client in exactly if there is room and never refuses a release |
| `ConcurrentLimiter.Reads` | dramatiq/rate_limits/backends/stub.py:83-91 | what the counter reads: the number of holders, or zero once a time-to-live has passed since the last write |
| `ConcurrentLimiter.Overstaying` | dramatiq/rate_limits/concurrent.py:46-54 | for every limiter there is a run in which one holder stays for the time-to-live and `limit` others get in |
| `RateLimiter.ConcurrentRateLimiter.Acquire` | dramatiq/rate_limits/rate_limiter.py:57-80 | the machine's events in order, with others in between: a slot is released exactly if it was taken, whether the block runs, raises or is not entered |
| `RateLimiter.ConcurrentRateLimiter.TakeSlot` | dramatiq/rate_limits/concurrent.py:46-51 | one or two enabled events of the concurrent limiter's machine: `add`, and if refused `incr` on the table that others have left by then; the slot is taken exactly if one is granted |
| `RateLimiter.ConcurrentRateLimiter.GiveSlot` | dramatiq/rate_limits/concurrent.py:53-54 | one enabled release of that machine |
| `RateLimiter.TakeWindowSlot` | dramatiq/rate_limits/window.py:53-65 | an acquisition on the stub, keys read off the clock twice and other threads in between, is two enabled events of the window limiter's machine, and a granted counter expires `window` seconds later |
| `Barrier.ClearedExactly` | dramatiq/rate_limits/barrier.py:86-94 | a wait reports cleared exactly from the last party on, or once the key has expired |
| `Barrier.LiveExactly` | dramatiq/rate_limits/barrier.py:62-86 | the key is live at the first waits exactly if each comes within a time-to-live of the one before |
| `Barrier.CallbacksPerSuccess` | dramatiq/middleware/group_callbacks.py:49-60 | nothing is enqueued before the last member, then the callbacks once per success from there on |
| `Barrier.CallbacksOnce` | dramatiq/middleware/group_callbacks.py:49-60 | if each member succeeds once, each callback is enqueued once and after all of them |
| `Barrier.GroupCompletes` | dramatiq/composition.py:287-292 | the same from the creation of the barrier under a new uuid, with the time-to-live conditions |
| `Barrier.GroupCallbacks.AfterProcessMessage` | dramatiq/middleware/group_callbacks.py:46-60 | the barrier is decremented for a success with a completion, and the callbacks are enqueued in order exactly if it then reports cleared |
| `Composition.Pipeline.constructor` | dramatiq/composition.py:45-57 | the messages are fresh copies of the flattened children, each sharing its options with its predecessor's target, nothing that existed before is modified, and the last message keeps any stale target |
| `Composition.Link` | dramatiq/composition.py:56-57 | linking forwards leaves every target pointing at the next message's own options, fields unchanged |
| `Composition.Copy` | dramatiq/message.py:125-128 | a copy has the fields of the original and options of its own |
| `Composition.StageTells` | dramatiq/message.py:125-128 | two messages have the same stage exactly if they agree in everything but their target and their place in memory |
| `Composition.Unfolds` | dramatiq/message.py:97-104 | encoding message i yields messages i, i+1 and so on, and ends there exactly if the last had no target |
| `Composition.EncodingExists` | dramatiq/message.py:121-123 | a message of a linked pipeline can be encoded exactly if the last one can, as it can without a stale target: linking adds no cycle |
| `Composition.EncodingUnique` | dramatiq/message.py:121-123 | a message has never more than one encoding |
| `Composition.NestingIrrelevant` | dramatiq/composition.py:50-54 | replacing a child pipeline by its messages changes nothing |
| `Composition.Or` | dramatiq/composition.py:63-65 | the messages of the pipeline, then those of the other side, all copied and linked |
| `Composition.Larger` | dramatiq/composition.py:121 | none exactly if both delays are absent or zero, else the larger of the two |
| `Composition.RunPipeline` | dramatiq/composition.py:109-123 | of all the pipeline's messages the first alone is added to what the broker was given, with the larger delay; an empty pipeline raises and adds nothing |
| `Composition.Mark` | dramatiq/composition.py:299-318 | one child of a group becomes one fresh linked chain whose last message alone carries the completion |
| `Composition.MarkAll` | dramatiq/composition.py:294-318 | every child does, in order; an empty pipeline raises |
| `Composition.RunAll` | dramatiq/composition.py:322-326 | each child is represented by its first message, in order, up to the first empty pipeline: a plain one with the delay asked for, a pipeline's with the larger of that and its own |
| `Composition.RunGroup` | dramatiq/composition.py:262-328 | without callbacks the children are enqueued as they are; with callbacks the barrier has one party per child, every child is marked once, and nothing is enqueued if that fails; and which inputs raise what |
| `PipelineRun.ExecutionIsFold` | dramatiq/middleware/pipelines.py:41-58 | message by message the middleware makes the calls of a left fold over the stages |
| `PipelineRun.FoldIsPrefix` | dramatiq/middleware/pipelines.py:47-58 | those calls are a prefix that stops at the first failure, each with its own arguments and the previous result unless ignored |
| `PipelineRun.ForwardShrinks` | dramatiq/middleware/pipelines.py:47-58 | exactly a message that succeeds and has a target hands on the next one, unchanged but for the result behind its arguments, unless ignored, and with its own delay; one stage is left less |
| `PipelineRun.PipelineRuns` | dramatiq/composition.py:109-123 | a linked pipeline, encoded and run, makes exactly the calls of a prefix of its messages, followed by those of a stale target if the last message had one |

## Left out

- Key strings of worker ids: `keys` with the pattern for one worker's lease sets is taken to match that worker only, since broker ids are UUIDs. Redis lists set members in an arbitrary order, as here.
- JSON and pickle: encoding is an inverse pair, and for pipelines a snapshot of the object graph. A payload that cannot be decoded is modelled as such in the consumer.
- Redis before 6.0.9, where an expired watched key does not make EXEC fail.
- `WindowLimiter.LimitExactly`: wall clock and monotonic clock are one, so a step of the wall clock is not modelled.
- `Optimistic.NeverAboveMaximum`: for increments by amounts that are not negative and decrements that stay at or above zero.
- `Workers.ConsumerThread.PostProcessMessage`: connection errors are finitely many; an unexpected exception of another kind ends the attempts, and the lease then waits for recovery.
- `Workers.WorkerThread.AfterProcessMessage`: the stored traceback, the lookup of options in message, actor and middleware, and whether the message to the `on_retry_exhausted` actor is delivered.
- `Composition.RunGroup`: groups inside groups.
- `Consumers.RedisConsumer.Next`: being in step needs stored payloads labelled with their ids and distinct message ids, positive heartbeat timeouts and successful calls; the bound by `prefetch` needs none of these.
- `NoLoss.NothingIsLost`: an enqueue that raises inside the retry middleware is followed by an ack, which counts as the message being done.
- `Barrier.GroupCallbacks.AfterProcessMessage`: the notification of blocked waiters, and an enqueue of a callback that raises.
- The cache of a restarting consumer is not given back by it; only a requeue or maintenance returns those leases.
- `compute_backoff` with fractional bounds; Python's float rounding is taken as exact arithmetic.
- The blocking `wait` of a barrier, the bucket limiter, results and their backends, generic actors.
- The RabbitMQ and stub brokers, the Memcached backend, whose counters change even when an operation reports failure.
- Threads, signals, processes, the command line, logging, metrics, the asyncio bridge and gevent.
- How the script finds Lua's stack limit; the unpack size is a positive parameter.
