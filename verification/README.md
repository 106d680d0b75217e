# QueueFair: the waiting room and the booking transaction

QueueFair puts a virtual queue in front of a ticket sale. Waiters join a Redis sorted set, any number
of leaderless processes release them through a shared token bucket and mint each a short-lived pass,
and the booking service turns a pass into a ticket under concurrency. This project models that core
and proves what the system promises about whole runs: every interleaving, any number of processes,
any clock readings, failures between any two steps.

How the files fit together:

- `SortedSet` is Redis's sorted set with ZRANK by counting and ZPOPMIN by repeated extraction;
  `EventKeys` is the key encoding; `WaiterState` is the arithmetic a waiter is shown.
- `QueueModel` is what an event's keys stand for: a join log, a cut point, a token bucket and a config,
  with a step per script. Bucket levels are scaled by 60000, so refilling is exact.
- `RedisStore` runs the three scripts on one flat, string-keyed store, as a class whose methods mutate
  it, and proves that each script takes exactly its `QueueModel` step on its own event and does nothing
  to any other. `AdmissionController` is one tick that runs to its end on that class.
- `TickLaws`, `RateBounds`, `Schedules`, `ExtraTicks` and `PassIssuer` prove what the bucket promises over
  single ticks and over runs of `QueueModel`. `Rejoins`, `ClockSkew`, `PerMinute` and `LiveLimit` take four promises that the code does
  not keep in general, and say exactly when it does; `OpeningCrowd` supplies their crowds.
- `Abandonment` adds removal from the middle of the queue, and gives the law by which the cheap position
  arithmetic then drifts from ZRANK.
- `AdmissionProtocol` interleaves any number of admitter processes, each of which may fail between pop,
  sign and record. `ProtocolRuns` shows that its queue is a run of the scripts and that one process left
  alone does what `admit_once` does; `PassKeys` says what the stored pass keys then mean, and `PassTimes`
  when the passes expire. `Booking`, `BookingTheorems` and
  `BookingProgress` interleave any number of `book_ticket` calls with row locks, unique constraints,
  rollback and crashes; `BookingService` is the same call seen by one caller.
  `EndToEnd` composes the two through the passes.

Where the code and its own documentation differ, the model follows the code:

- `admit_batch.lua:4-5` promises at most `rate_per_min` admissions a minute. The bucket opens full, so
  that holds only for the configs named by `PerMinute.MinuteLimitIff`. The bounds that do hold are
  `RateBounds.SlidingWindow` and `RateBounds.ForwardBound`.
- `admit_batch.lua:5` promises that each waiter is popped exactly once, ever. A token that joins again
  after its turn is popped again (`QueueModel.RejoinIsPoppedTwice`), and those are the only tokens that are
  (`Rejoins.PoppedAgainIff`). Passes are issued once per queue entry (`AdmissionProtocol.OnePassPerEntry`).
- `docs/design.md:608` calls the bucket's clock monotonic per key. The script stores the smaller reading
  when a clock steps back, and the same interval can be credited twice (`RateBounds.SkewCreditsTwice`);
  `ClockSkew.BoundHoldsIff` says which clock readings can break the bound.
- `core/keys.py:64-65` expects about rate × ttl live passes. The opening burst can push the number above
  that, for exactly the configs and lifetimes that fail the condition of `LiveLimit.ExpectedIff`. The bound
  that always holds is `PassIssuer.LivePassCap`.
- `core/admission.py:63-69` says a crash strands up to `batch_max` waiters. It is at most the smaller of
  `burst` and `batch_max` (`AdmissionProtocol.FailureLosesOneBatch`).
- A replayed pass is promised the original booking. That holds for a call that starts after the booking
  committed (`BookingTheorems.ReplayReturnsSame`); a duplicate, by token or by user, that looked up too
  early is told the event is sold out exactly when it is full (`BookingTheorems.LateDuplicate`).

## Model

| member | source | states |
|---|---|---|
| EventKeys.KeyIsInjective | queue_service/core/keys.py:25-73 | Two keys are equal only if both the event id and the suffix are, for event ids without a colon |
| EventKeys.EventsApart | queue_service/core/keys.py:25-73 | No key of one event lies in another event's part of the keyspace |
| EventKeys.KeysApart | queue_service/core/keys.py:25-73 | The five keys of an event and the pass keys of all its waiters are pairwise different |
| EventKeys.KeyLayout | queue_service/core/keys.py:10-73 | The names of the keys of one event, spelled out |
| EventKeys.KeyspacesMeetIff | queue_service/core/keys.py:25-73 | For arbitrary ids, two events can have a key in common if and only if one id followed by a colon begins the other |
| EventKeys.UnvalidatedIdsCollide | queue_service/core/validation.py:12-29 | Without the check on event ids, one event's queue key can be another event's pass key |
| SortedSet.FirstExists | queue_service/lua/admit_batch.lua:103 | The order by score and then by member has a first member in every nonempty set, so a pop never comes back short |
| SortedSet.ZPopMin | queue_service/lua/admit_batch.lua:103 | Popping n returns the n first members in order, or all of them if fewer, and keeps exactly the others |
| SortedSet.ScoresAreDense | queue_service/lua/join.lua:7-11 | In a set that stands for a log after a cut, exactly s - 1 - cut members have a score below s: there are no gaps |
| SortedSet.CardIsWaiting | queue_service/lua/admit_batch.lua:92 | ZCARD equals sequences issued minus waiters admitted |
| SortedSet.RankIsArithmetic | queue_service/lua/position.lua:50-69 | ZRANK, defined by counting, equals sequence minus admitted minus one |
| SortedSet.AddAppends | queue_service/lua/join.lua:54-59 | Adding a new member under the next sequence appends to the log |
| SortedSet.PopIsFront | queue_service/lua/admit_batch.lua:103-104 | What ZPOPMIN returns is the front of the log in arrival order, and what is left is the log after the moved cut |
| WaiterState.EtaSecondsFor | queue_service/core/state.py:97-109 | None exactly when paused; otherwise the least whole number of seconds in which that many waiters fit at the rate |
| RedisStore.DecodeInvertsFlat | queue_service/adapters/queue_repository.py:164-171 | Decoding a flat pop reply yields its tokens in arrival order when the reported count is theirs, and fails the assertion exactly when it is not |
| RedisStore.PositionIsAuthoritative | queue_service/lua/position.lua:46-73 | The reply is a position exactly for waiters, and then the true place in the log; the pass exactly for those who left the queue and have one |
| RedisStore.ShownIsTrue | queue_service/core/state.py:124-154 | A waiter is shown their own place in the log and, exactly unless the drop is paused, the estimate for it; someone let in is shown place 0 and no estimate; the totals are the queue's |
| RedisStore.FastPositionIsExact | queue_service/core/state.py:84-137 | For every waiter the subtraction equals the counted rank plus one, its clamp never fires, and both builders show the same state |
| RedisStore.OtherEventUntouched | queue_service/core/keys.py:25-73 | A store that changed only under one event's keys stands for the same queue and passes of every other event |
| RedisStore.PlacingAppends | queue_service/lua/join.lua:54-59 | The writes of a first join append one entry to this event's log and touch nothing else |
| RedisStore.PoppingMovesCut | queue_service/lua/admit_batch.lua:97-104 | The writes of a nonempty release move this event's cut and bucket and touch nothing else |
| RedisStore.PopDecodes | queue_service/adapters/queue_repository.py:164-171 | A popped batch, flattened and decoded, is the next stretch of the log |
| RedisStore.TakeTokens | queue_service/lua/admit_batch.lua:65-93 | The step-by-step refill, floor and three ceilings compute the model's grant, and grant plus remainder is the refilled level |
| RedisStore.Redis.constructor | queue_service/lua/join.lua:43-45 | An empty store stands for an unconfigured, empty queue of every event |
| RedisStore.Redis.Join | queue_service/lua/join.lua:43-65 | Without a config, or for a waiter already queued, nothing is written; anyone else is appended to the log; every other event and all passes are left alone, and the reply is right about the new state |
| RedisStore.Redis.AdmitBatch | queue_service/lua/admit_batch.lua:49-106 | Unconfigured or paused, nothing is written; otherwise the script takes its queue's tick; every other event and all passes are left alone, and its decoded reply is exactly the batch and the new total |
| RedisStore.Redis.Configure | queue_service/api/management/commands/create_event.py:58-65 | Only the config changes: everybody's place, the bucket, the passes and every other event stay |
| RedisStore.Redis.Reset | queue_service/api/management/commands/create_event.py:51-55 | Log, counters and bucket are those of a new event under the same config; passes and every other event stay |
| RedisStore.Redis.RecordAdmissions | queue_service/adapters/queue_repository.py:173-203 | Afterwards every token finds the last pass recorded for it, every token without one finds what it found before, and no queue changes |
| RedisStore.Redis.Expire | queue_service/adapters/queue_repository.py:182-201 | A pass key that runs out takes away that one pass and nothing else |
| AdmissionController.Controller.AdmitOnce | queue_service/core/admission.py:40-79 | A tick that runs to its end mints one pass per popped token in order, each with a jti never used before, all from one clock reading; every one of those waiters then finds exactly that pass, and nobody else's pass is touched |
| AdmissionController.ReleasedSeePass | queue_service/lua/position.lua:50-66 | A waiter just popped and recorded is answered with their pass, never as unknown |
| QueueModel.RunGrows | queue_service/lua/join.lua:5-9 | Without a reset the log only grows at its end and the cut only moves forward |
| QueueModel.AdmissionsTelescope | queue_service/lua/admit_batch.lua:104 | The admitted counter moves by exactly the sizes of the batches released in between |
| QueueModel.FirstInFirstOut | queue_service/lua/admit_batch.lua:90-106 | All batches of a run, concatenated in execution order, are exactly the stretch of the join log the cut moved over |
| QueueModel.WaitersAreDistinct | queue_service/lua/join.lua:47-59 | Through every run, resets included, no token is ever waiting twice |
| QueueModel.PositionsNeverRise | queue_service/core/state.py:84-94 | From join until pop a waiter keeps their entry and their position never rises; a position computed from any earlier admitted total is never too low |
| QueueModel.PoppedShowsOne | queue_service/core/state.py:84-94 | Nobody is ever shown a position below 1, and exactly those at the front or already let go are shown 1 |
| QueueModel.PauseLeavesNoTrace | queue_service/lua/admit_batch.lua:59-63 | After a pause of any length, with any joins and ticks during it, the queue and bucket are those of the run with the same joins and no pause |
| QueueModel.RejoinIsPoppedTwice | queue_service/lua/join.lua:47-58 | A run in which one token joins, is popped, joins again and is popped again |
| Rejoins.PoppedAgainIff | queue_service/lua/join.lua:47-58 | In every run that starts empty, a token is popped more than once if and only if the INCR branch ran for it after it had been popped and that later entry came up too |
| RateBounds.TickLaw | queue_service/lua/admit_batch.lua:84-97 | A tick leaves the bucket within 0 and burst, and what it releases is paid for by the refilled level |
| TickLaws.TickIsGreedy | queue_service/lua/admit_batch.lua:84-93 | A tick releases the largest number that the waiters present, the batch limit, the burst and the credited bucket all allow |
| TickLaws.NobodyHeldBack | queue_service/lua/admit_batch.lua:86-93 | After a tick nobody is left, or the batch was full, or less than one token remains |
| TickLaws.TickBalances | queue_service/lua/admit_batch.lua:69-97 | What a tick releases and leaves equals what was there and was credited, cut off at the cap; a clock that went backwards takes nothing away |
| TickLaws.NothingIsWasted | queue_service/lua/admit_batch.lua:59-97 | Over any stretch in which nothing exceeds the cap, with pauses, config changes and any clocks, releases plus the final level equal the starting level plus all credits |
| TickLaws.ResetStartsOver | queue_service/api/management/commands/create_event.py:51-55 | After a reset whoever joins is numbered from 1 again, under the config that was in force |
| TickLaws.ResetReopens | queue_service/api/management/commands/create_event.py:51-55 | The first tick after a reset releases a full burst of the new arrivals, whatever the bucket held before |
| RateBounds.SpendingIsPaidFor | queue_service/lua/admit_batch.lua:59-97 | Over any stretch of any run, with config changes, pauses, resets and clocks that jump either way, nothing is released that was not credited |
| RateBounds.ForwardBound | queue_service/lua/admit_batch.lua:76-97 | For arbitrary clocks, admissions in any stretch are at most the burst plus the rate over the clock's forward motion, and the bucket stays within 0 and burst |
| RateBounds.SlidingWindow | queue_service/lua/admit_batch.lua:76-97 | Between any two ticks of any run with nondecreasing clocks, at most the burst plus the rate over the time between them |
| RateBounds.SkewCreditsTwice | queue_service/lua/admit_batch.lua:76-97 | A run with one backward clock reading that exceeds the sliding-window bound |
| ClockSkew.BoundHoldsIff | queue_service/lua/admit_batch.lua:76-97 | For any window of joins and ticks, the sliding-window bound holds on every queue if and only if the clock's forward steps add up to no more than the time from first to last reading |
| ClockSkew.ForwardIsAttained | queue_service/lua/admit_batch.lua:84-97 | For any clock readings some reachable queue admits the burst plus the rate over the whole forward motion |
| Schedules.DrainLaw | queue_service/lua/admit_batch.lua:84-97 | While every tick is fully served and no refill is clipped, the bucket holds its starting level plus everything earned minus everything released, and less than one token |
| Schedules.ExactRate | queue_service/tests/test_admit_batch.py:245-269 | While the queue never runs dry, the total after a tick at t is exactly the burst plus the whole part of rate × (t - t0) / 60000, from any number of processes |
| Schedules.BoundedWait | queue_service/core/state.py:97-121 | Whoever is at position p at any moment after a tick and before the next, new arrivals included, has been popped by any tick at least their estimated seconds after that tick, whatever joins happen |
| Schedules.WaitFromNextTick | queue_service/core/state.py:97-121 | An estimate given before a tick, be it the event's first, is kept counting from that tick |
| ExtraTicks.RefillSplits | queue_service/lua/admit_batch.lua:84 | Refilling in two steps, capped each time, is refilling once |
| ExtraTicks.BothTick | queue_service/lua/admit_batch.lua:84-104 | The tick is monotone: a queue not behind another before a tick is not behind it after |
| ExtraTicks.ExtraTicksNeverHurt | queue_service/core/admission.py:81-90 | Of two runs with the same joins, the one with extra ticks inserted anywhere has the same arrivals and never a smaller admitted total at any common point |
| PerMinute.SpanAdmitsAtMost | queue_service/lua/admit_batch.lua:76-97 | No stretch of less than a given span admits more than the burst plus what the rate earns one millisecond short of it |
| PerMinute.SmallBurstKeepsLimit | queue_service/lua/admit_batch.lua:3-5 | With a paused drop, or a burst whose surplus is worth less than one millisecond of refill, no minute of any run admits more than the rate |
| PerMinute.Overrun | queue_service/lua/admit_batch.lua:69-74 | For every other config and a span of any length, some run admits exactly that most |
| PerMinute.MinuteLimitIff | queue_service/lua/admit_batch.lua:3-5 | The header's promise holds for every run of a freshly opened event if and only if the rate is 0 or 60000 × (burst - 1) is less than the rate |
| PassIssuer.PassLifetime | queue_service/adapters/pass_issuer.py:45-57 | A pass is for its own token and event, and lives at least ttl - 1 seconds from its tick and never ttl seconds or more |
| PassIssuer.JtisAreFresh | queue_service/adapters/pass_issuer.py:46 | The passes of one batch have different jtis, none of them used before |
| PassIssuer.LiveAreCovered | queue_service/adapters/pass_issuer.py:45-57 | The passes live at an instant all come from one stretch of ticks that starts with a still live one |
| PassIssuer.LivePassCap | queue_service/adapters/pass_issuer.py:45-57 | At any instant the unexpired passes number at most burst + rate × ttl / 60, with expiry rounded down to seconds as the code does |
| LiveLimit.LiveAtMost | queue_service/adapters/pass_issuer.py:45-57 | The live passes never outnumber what one lifetime can admit |
| LiveLimit.TooManyLive | queue_service/core/keys.py:60-66 | Where the condition fails, some run has more than rate × ttl / 60, rounded up, live at once |
| LiveLimit.ExpectedIff | queue_service/core/keys.py:60-66 | For every config and lifetime, live passes stay within rate × ttl / 60, rounded up, in every run if and only if the most that one lifetime can admit does |
| LiveLimit.FitsWholeMinutes | queue_service/core/keys.py:60-66 | For lifetimes of whole minutes that condition is the one under which the per-minute limit holds |
| Abandonment.EveryRunKeepsLedger | queue_service/lua/position.lua:13-19 | In every run of joins, releases and removals each sequence issued is waiting, popped or gone, exactly one of them, and the popped ones number the admitted counter |
| Abandonment.DriftLaw | queue_service/tests/test_position.py:100-118 | For every waiter, sequence minus admitted equals ZRANK plus one plus the number of earlier arrivals removed without admission |
| Abandonment.ExactIffNobodyLeft | queue_service/core/state.py:84-94 | The subtraction equals ZRANK plus one if and only if nobody who arrived earlier has left |
| Abandonment.TruePositionNeverRises | queue_service/lua/position.lua:13-19 | With removals too, the rank of a waiter who keeps their place never rises, and the drift of the arithmetic never falls |
| Abandonment.ReleaseTakesFront | queue_service/lua/admit_batch.lua:103-104 | A release of n takes exactly the n members of lowest rank, or all if fewer, counts each, and leaves the others as they were |
| Abandonment.LeavingShifts | queue_service/tests/test_position.py:100-118 | A removal moves exactly those behind up by one, and raises their drift by one, without the counters changing |
| Abandonment.LineFollowsQueue | queue_service/lua/join.lua:47-59 | While nobody leaves, joins and ticks act on the line exactly as on the log and cut of QueueModel |
| AdmissionProtocol.StepKeepsInv | queue_service/core/admission.py:50-79 | Every step of every process, failure, reset, reconfiguration, join and key expiry keeps the bookkeeping invariant and its agreement with the stored pass keys |
| AdmissionProtocol.EveryRunKeepsInv | queue_service/core/admission.py:95-109 | Hence every run of any number of looping processes keeps it |
| ProtocolRuns.QueueIsARun | queue_service/core/admission.py:3-11 | The queue of every protocol run is the queue after the scripts its actions ran, in order |
| ProtocolRuns.PopsAreAdmissions | queue_service/core/admission.py:3-11 | Everyone ever popped by any process is an admission of that run of scripts |
| ProtocolRuns.PassesArePaidFor | queue_service/lua/admit_batch.lua:29-32 | All passes ever minted by any number of processes, through failures, resets and config changes, are paid for by the credits of the one bucket |
| ProtocolRuns.WholeTickIsAdmitOnce | queue_service/core/admission.py:40-79 | A process that is not interrupted ends between ticks, having taken the queue's step and left every pass of the batch minted, recorded and under its key, just as the sequential tick does |
| AdmissionProtocol.EveryEntryIsSomewhere | queue_service/core/admission.py:50-79 | Each entry ever sequenced is in exactly one of waiting, held by exactly one process, recorded under its own pass, lost, or dropped by a reset |
| AdmissionProtocol.PassesAreForPopped | queue_service/core/admission.py:57-61 | Each pass ever minted belongs to the token of an entry that was popped |
| PassTimes.PassesExpireOnTime | queue_service/core/admission.py:57-61 | In every run each pass is for the event, its entry was released by one tick, and it lives at least ttl - 1 seconds from that tick's clock reading and never ttl seconds |
| AdmissionProtocol.OnePassPerEntry | queue_service/lua/admit_batch.lua:16-19 | No entry ever gets two passes, and no two passes share a jti |
| AdmissionProtocol.FailureLosesOneBatch | queue_service/core/admission.py:63-69 | A failure loses exactly what its process still held, at most min(burst, batch_max), and leaves the queue and recorded passes as they were |
| AdmissionProtocol.LossesPerFailure | queue_service/core/admission.py:95-109 | Over a whole run the entries lost are at most one batch per failure |
| PassKeys.KeysAreRecorded | queue_service/adapters/queue_repository.py:192-203 | A pass found under a token's key was minted for an entry of that token that is recorded under it, never for a lost or still held one |
| PassKeys.ParkedUntilTouched | queue_service/adapters/queue_repository.py:192-203 | From its SET on, an entry's pass is under its token's key if and only if the key has neither expired nor been written since |
| AdmissionProtocol.PopsAreCounted | queue_service/lua/admit_batch.lua:103-104 | The count of everyone ever popped grows by exactly each batch and by nothing else, even across resets |
| AdmissionProtocol.MintedFitPopped | queue_service/adapters/pass_issuer.py:3-10 | There are never more passes than people popped from the front of the queue |
| Booking.FindJti | booking_service/bookings/booking.py:83-88 | The lookup by token finds the first booking with that token, and none only if there is none |
| Booking.FindUser | booking_service/bookings/booking.py:83-88 | The lookup by user and event finds the first such booking, and none only if there is none |
| Booking.CommitKeepsTables | booking_service/bookings/models.py:18-52 | A commit keeps both unique constraints, the foreign key, the check constraint, and counter equal to rows |
| Booking.EveryRunKeepsInv | booking_service/bookings/booking.py:47-80 | Every interleaving of calls, rollbacks and crashes keeps the tables sound and at most one open claim per event row |
| BookingTheorems.NeverOversold | booking_service/bookings/models.py:18-52 | In every reachable state each event's counter equals its rows and is within capacity, no two rows share a token, and no user has two bookings for an event |
| BookingTheorems.SoldOutMeansSold | booking_service/bookings/booking.py:61-65 | A call is told sold out only if committed bookings fill the event, never because of a claim that was rolled back |
| BookingTheorems.RollbackLeaksNothing | booking_service/bookings/booking.py:73-77 | A crash or failed INSERT inside the transaction leaves both tables and every other call as they were and frees the row lock |
| BookingTheorems.CrashEndsCall | booking_service/bookings/booking.py:50-51 | A crash ends exactly the call it hits, changes no table and blocks nobody |
| BookingTheorems.ConflictFindsWinner | booking_service/bookings/booking.py:73-80 | After an IntegrityError a committed colliding booking exists and the second lookup returns one: the bare raise is never reached |
| BookingTheorems.OneCreator | booking_service/bookings/booking.py:67-72 | Of all calls with one token, or one user and event, at most one returns created=True |
| BookingTheorems.ReplayReturnsSame | booking_service/bookings/booking.py:47-49 | A call that starts after its token's booking committed returns that very booking with created=False, whatever else runs |
| BookingTheorems.SecondPassReturnsBooking | booking_service/bookings/booking.py:83-88 | A call that starts when its user already holds a booking for the event returns that booking or the one its own token made, and never creates one nor is told sold out |
| BookingTheorems.LateDuplicate | booking_service/bookings/booking.py:56-80 | A duplicate by token or by user that looked up too early is told sold out if and only if the event is full when it reaches the UPDATE; otherwise it returns the booking of its token, or else its twin's |
| BookingTheorems.ConcurrentDuplicateCanSellOut | booking_service/bookings/booking.py:47-65 | A run in which two calls with one token race for the last ticket and the second is told sold out |
| BookingTheorems.ExactSellThrough | booking_service/bookings/test_concurrency.py:162-180 | When calls with distinct users and tokens have all finished, exactly min(tickets left, calls) created a booking and every other one was told sold out |
| BookingProgress.SomeoneCanMove | booking_service/bookings/booking.py:51-71 | Whenever some call is unfinished, some call can take a step: the row lock and the unique index never deadlock |
| BookingProgress.StepsRunOut | booking_service/bookings/booking.py:47-80 | Every step that changes anything leaves strictly less to do, so no call is retried for ever |
| BookingProgress.CallsFinish | booking_service/bookings/booking.py:47-80 | From every point of every run all calls can be brought to their end without a crash, which is when the sell-through count applies |
| BookingService.FindExisting | booking_service/bookings/booking.py:83-88 | The double lookup finds a booking exactly when an INSERT of these claims would violate a unique constraint |
| BookingService.Service.BookTicket | booking_service/bookings/booking.py:35-80 | One call on its own: its outcome, exactly one new row and one increment if it created a booking, and untouched tables otherwise |
| BookingService.UndisturbedIsAlone | booking_service/bookings/booking.py:47-72 | The step-by-step protocol, undisturbed, returns the same outcome and tables as the sequential call |
| EndToEnd.EveryRunIsLinked | booking_service/bookings/booking.py:35-41 | If the event's claims were all minted, then in every interleaving of the two services every booking of the event was paid for with a minted pass of its own holder |
| EndToEnd.EachServiceRuns | queue_service/adapters/pass_issuer.py:3-10 | Whatever the interleaving, each service on its own has gone through a run of its own protocol |
| EndToEnd.GenuinePassesGetIn | booking_service/bookings/booking.py:35-41 | A call for the event starts exactly when some minted pass carries its claims |
| EndToEnd.BookingsWithinAdmissions | queue_service/adapters/pass_issuer.py:3-10 | An event's bookings never exceed its capacity nor the number of people ever popped from its queue |
| EndToEnd.BookingTracesToEntry | queue_service/core/admission.py:57-69 | Each booking traces back to one popped queue entry of its holder |
| EndToEnd.BookingsTraceApart | queue_service/lua/admit_batch.lua:16-19 | No two bookings trace back to the same entry |

## Left out

- EtaSecondsFor: uses the exact rational ceiling; the source divides floating-point numbers, and bit-exact rounding is not claimed.
- TakeTokens: exact integers scaled by 60000 stand for the script's doubles, so accumulated rounding of the token level is not modelled.
- ExactRate: needs batch_max ≥ burst and ticks close enough that no refill is clipped, since otherwise the script by design releases less.
- BoundedWait: has the same two conditions, and a config that does not change while the waiter waits.
- KeyIsInjective: uses only that ids contain no colon, not the rest of the id and token patterns.
- EveryRunIsLinked: lets a booking use an expired pass, which allows more runs than the booking service does.
- Pass keys and pass expiry: the key's TTL starts at the SET and the expiry at the earlier clock reading, so key expiry is a step that may happen at any time.
- Signing and verification: a pass is its claims, forging is impossible by assumption, and jti is a fresh number instead of a random UUID.
- Redis itself: each script, each SET and the DEL is one atomic step; script caching, pipelines, timeouts and retries are not modelled.
- A config hash with missing or non-numeric fields, which the scripts read as 0.
- `run_forever` as an unending loop: its ticks are the steps of AdmissionProtocol and the ticks of a QueueModel run, and its sleep is their arbitrary timing.
- Postgres beyond the row lock, the WHERE clause re-evaluated after waiting, the unique checks, commit and rollback; creating events, changing capacity and deleting rows.
- HTTP, cookies, settings, management-command parsing, metrics, logging, and the SSE fan-out that the documents design but the code does not have.
