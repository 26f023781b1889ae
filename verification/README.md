# Verified model of the lock and quota server

The server grants named locks with leases, meters how long callers hold them,
limits request rates with token quotas and reservations, watches groups of
callers through heartbeats and a dependency graph, and combines locks and tokens
in all-or-nothing transactions. Each manager is an object behind a mutex, so one
public call or timer callback is one atomic step.

The project models those steps and proves what holds over every run of them.

## How it is built

For each manager there are up to three layers.

* A value layer (`LockState`, `RateState`, `BudgetState`, `AlertState`,
  `HeartbeatGroups`) holds the manager's tables as one value and gives the effect
  of every operation as a function on it. Time is an integer number of
  nanoseconds; every operation carries its clock reading.
* A proof layer states invariants, bounds and theorems over all runs of those
  operations (`LockInvariant`, `WaitGraph`, `LockOrder`, `LockBatch`,
  `RateInvariant`, `RateReservations`, `RateBounds`, `RateSharp`, `RateEvents`,
  `RateStamps`, `RateRuns`, `RateCuts`, `BudgetMetering`, `BudgetPenalty`,
  `BudgetRuns`, `AlertWindow`, `TxLocks`, `TxTokens`), with concrete runs where a
  property ends (`WaitGraphWitness`, `RateWitness`). `LockEffects`, `RateEffects`
  and `BudgetEffects` say what single operations do, row by row and field by
  field, from the tables before them rather than by the function of the operation.
* A class in the source's own form (`LockManager`, `RateLimiter`, `LockBudget`,
  `RateAlert`, `Heartbeat`, `Topology`, `Orchestration`, and the searches in
  `DeadlockDetector` and `TopologySearch`) updates fields in place, with the
  source's branches and loops. Each method is proved to change the state exactly
  as the value layer says, so the theorems are theorems about the classes. Where
  a Go map is walked, the walk picks keys in an arbitrary order and the
  postcondition says that some order explains the result.

`Graphs` holds the facts about paths and cycles used by the wait-for graph, the
topology and the heartbeat groups, `Totals` sums over maps, `MapWalks` the walks,
`Rows` the rows of a list that a filter keeps, `Basics` the units of time and lists
without repeats.

The grant bounds of the token algorithms are proved in two steps: `RateBounds`
bounds what a list of events (polls, requests, returns, cuts) grants to one
binding, and `RateEvents` and `RateRuns` show that every operation of the limiter,
seen from one caller, is such a list, so the bounds hold over all its runs.

## Findings

* Granting a lock to a holder who is still queued for another lock can close a
  deadlock cycle that no check sees; `WaitGraphWitness.BusyGrantClosesCycle` is a
  run that does it, and `WaitGraph.HandOverClosesCycleIff` says exactly when: the
  first eligible waiter already waits for one behind it in the same queue.
* When a reservation ends, its caller's used tokens are cut down to the smaller
  limit, and what is cut off can be granted once more. Whether that happens when
  one reservation follows another depends on the order in which the map is walked:
  `RateWitness.CutGrantsAgain` is a run in which a bucket that never refills, with
  a limit of ten before and after every operation, grants fifteen tokens in one
  order and ten in the other. `RateCuts.WorstWalk` says how much a tick can cut
  off; `RateRuns.BucketRuns` and `WindowRuns` bound the grants with the cut, and
  `RateCuts.BucketRunsUncut` and `WindowRunsUncut` without it in every run whose
  ticks find nothing to cut off.
* A token bucket polled within a millisecond of its last refill keeps the old
  refill stamp, so the bound over a span T needs T plus one millisecond:
  `RateWitness.SharpRunBroken` is a run that takes six tokens in 99.5 ms from a
  bucket of five that refills one per second. `RateRuns.SharpRunsIff` says, for
  every rate and limit, exactly when the millisecond is not needed: when the next
  tick stamps the refill time, or the tokens in use cover whatever the first tick
  that does can free.
* Between reservation ticks the active reservations alone can exceed a policy's
  limit (`RateWitness.ActiveOverlapsBetweenTicks`), but only while one of them has
  run out (`RateReservations.ActiveFits`), so never after a tick.
* The sweep can refuse a reservation that starts exactly when another ends
  (`Sweep.BackToBackRefused`), because its sort does not order ties, and accepts
  the same two when the new one is the earlier (`Sweep.BackToBackAccepted`). In
  whatever order the map is walked it agrees with overload unless counting end
  points creates an overload that was not there without them
  (`RateReservations.ConflictExact`). For all orders of the events together, also
  those that no walk builds, that condition is exact (`Sweep.SweepExactIff`).
* Rebinding a caller (`BindCaller` on an existing one) keeps the ledgers balanced
  exactly when its borrowed, lent and reserved tokens allow it
  (`RateInvariant.RebindLedgers`); `RateWitness.RebindLosesReserved` is a run
  after which they do not.
* A period reset that finds a whole number of periods elapsed opens a period that
  is already over (`BudgetMetering.ResetCovers`, with the run
  `BudgetMetering.ResetAlreadyOver`).
* A period hands on what it consumed over its limit only if something was charged
  in it (`BudgetRuns.CarryLaw`): an idle period that began over its limit because
  of the one before drops that debt (`BudgetRuns.DebtDropped`). What is charged
  only at the end of a period is not handed on either, apart from its penalty
  (`BudgetEffects.CarriedOver`).
* Deleting a heartbeat group can leave a dependent degraded for no reason
  (`HeartbeatGroups.DeleteLeavesOrphan`), exactly in the case given by
  `HeartbeatGroups.DeleteKeepsCausedIff`.
* Pruning the rate-alert window by a prefix is exact while timestamps are in
  order. Out of order it can keep a stale record behind a valid one
  (`AlertWindow.OutOfOrderKeepsStale`) or miss one dropped earlier that is young
  enough again (`AlertWindow.OutOfOrderMissesDropped`), and fails in no other way
  (`AlertWindow.WindowIsTrueIff`).

## Model

| member | source | states |
|---|---|---|
| DeadlockDetector.CycleDetector.Dfs | internal/lock/manager.go:878-914 | the search with recursion stack: a reported path is a genuine cycle, otherwise every node it finished sees no cycle and the stack is as before |
| DeadlockDetector.DetectCycle | internal/lock/manager.go:878-929 | true exactly when some cycle is reachable from the start node, for every map iteration order; the lock names label the cycle's edges |
| DeadlockDetector.CheckDeadlock | internal/lock/manager.go:931-965 | a deadlock is reported exactly when the graph with the prospective edge has a cycle reachable from the waiter; the report is a closed chain of labelled edges |
| LockManager.LockManager.BuildWaitGraph | internal/lock/manager.go:834-876 | the adjacency map has exactly the wait-for edges of the tables and every label is a lock its waiter queues for and its holder holds |
| LockManager.LockManager.AcquireLock | internal/lock/manager.go:162-368 | outcome and new tables of every branch; every edge of a reported cycle is genuine in the tables, or is the requested one |
| LockManager.LockManager.TryGrantNext | internal/lock/manager.go:437-524 | drops timed-out and over-budget waiters, grants to the first other one; ends because the queue shrinks |
| LockManager.LockManager.ReleaseLock | internal/lock/manager.go:370-435 | the new tables and which of the five answers is given when; the last count hands the lock on as an expiry does |
| LockManager.LockManager.ExpireLock | internal/lock/manager.go:590-639 | an expiry takes a held lock from its holder at whatever count: its lease and timer end, the first waiter to be served holds it under one new lease, those before that one are gone and those behind it keep their order, or it is free and nobody waits; every other lock is as before |
| LockManager.LockManager.CheckWaitQueueTimeouts | internal/lock/manager.go:655-679 | removes exactly the timed-out rows, one by one, in order |
| LockManager.LockManager.CancelWaitForHolder | internal/lock/manager.go:790-810 | removes exactly the holder's rows and counts them |
| LockManager.LockManager.RenewLease | internal/lock/manager.go:526-582 | new expiry and timer, capped while the lock is in accelerated mode; refused exactly when there is no live lease of that holder |
| LockManager.LockManager.ShortenLease | internal/lock/manager.go:1202-1249 | the expiry only moves earlier |
| LockEffects.ExpireEffect | internal/lock/manager.go:590-639 | told row by row for every state: what ExpireLock's row says |
| LockEffects.ReleaseEffect | internal/lock/manager.go:370-435 | a release by the holder gives back one count or hands the lock on; any other release changes nothing |
| LockEffects.AcquireAnswers | internal/lock/manager.go:162-305 | the condition for each answer to an acquire |
| LockEffects.AcquiredEffect | internal/lock/manager.go:307-368 | a free lock is held once, under one new lease of the seconds asked for or the cooldown of accelerated mode, with its timer |
| LockEffects.WaitingEffect | internal/lock/manager.go:234-305 | otherwise one more count, one more row that waits thirty seconds, in front for a gold caller, or no change |
| LockEffects.TimeoutsEffect | internal/lock/manager.go:655-679 | the rows that stay are those whose time is not over, in order |
| LockEffects.CancelEffect | internal/lock/manager.go:790-810 | the rows that stay are those of other holders, in order |
| LockEffects.RenewEffect | internal/lock/manager.go:526-582 | the live lease of that holder moves by the seconds asked for, or by the cooldown where the cap applies, and its timer with it; no other row changes |
| LockEffects.ShortenEffect | internal/lock/manager.go:1202-1249 | the expiry becomes the earlier of the old one and the one asked for |
| LockManager.LockManager.AcquireLocksBatch | internal/lock/manager.go:993-1078 | the whole batch as one step, with its rollback |
| LockManager.LockManager.RollbackBatch | internal/lock/manager.go:1180-1186 | releases last one first |
| LockTables.DequeueEffect | internal/storage/sqlite.go:1191-1223 | Dequeue takes the oldest row of its lock and leaves every other queue alone |
| LockTables.MoveToFrontEffect | internal/storage/sqlite.go:5935-5972 | the delete-and-reinsert of a gold holder's row puts it first, keeps all others in order and touches no other lock's queue |
| LockInvariant.GrantNextEffect | internal/lock/manager.go:437-524 | the grant goes to the first eligible waiter; those before it are gone, those behind it stay in order |
| LockInvariant.StepKeepsInv | internal/lock/manager.go:132-148 | every step keeps: held iff one active lease of that holder, count and armed timer; free locks have no lease, timer or waiters; no holder waits twice for a lock or for its own |
| LockInvariant.RunKeepsInv | internal/lock/manager.go:173-524 | the invariant holds after every run |
| WaitGraph.DeadlockVerdict | internal/lock/manager.go:255-266 | without deadlock so far, a request is refused as one exactly when the lock's holder already waits for the requester |
| WaitGraph.HandOverClosesCycleIff | internal/lock/manager.go:437-524 | from an acyclic state a release or expiry closes a cycle exactly when the first eligible waiter of the lock has a name and already waits, directly or through others, for a waiter behind it; told from the state before the call |
| WaitGraph.StepKeepsAcyclic | internal/lock/manager.go:255-305 | every step but a grant to a holder queued elsewhere keeps the wait-for graph acyclic |
| WaitGraph.RunKeepsAcyclic | internal/lock/manager.go:255-305 | over every run in which no holder is queued on two locks at once the graph stays acyclic |
| WaitGraph.WaiterChainEnds | internal/lock/manager.go:834-876 | in an acyclic state every waiter's chain ends at a holder that waits for nothing, as long as holders are named (the graph skips unnamed ones) |
| WaitGraphWitness.BusyGrantClosesCycle | internal/lock/manager.go:437-524 | a reachable acyclic state and a release that deadlocks two callers |
| LockOrder.StepNoOvertaking | internal/lock/manager.go:437-453 | while x is queued ahead of y, no step grants to y or lets y pass |
| LockOrder.RunNoOvertaking | internal/lock/manager.go:437-453 | the same over every run |
| LockOrder.GoldEntersInFront | internal/lock/manager.go:268-305 | a gold request enters in front, any other at the back, and nobody else moves |
| LockBatch.BatchAllOrNothing | internal/lock/manager.go:993-1078 | a batch succeeds exactly when lease, names, locks and budgets allow it; then it holds everything and nothing else changed, otherwise holders, counts, leases, timers and queues are as before |
| Sweep.SortCorrect | internal/ratelimit/manager.go:1163-1169 | the exchange sort sorts by time and permutes, whatever order ties end in |
| Sweep.SortEvents | internal/ratelimit/manager.go:1163-1169 | the two nested loops on the array compute that sort in place |
| Sweep.SweepEvents | internal/ratelimit/manager.go:1163-1179 | sort and running sum answer true exactly when some prefix exceeds the limit |
| Sweep.SweepSound | internal/ratelimit/manager.go:1135-1180 | no conflict means the half-open load is within the limit at every instant; a conflict exhibits an instant with the closed load above it |
| Sweep.SweepExact | internal/ratelimit/manager.go:1135-1180 | when no start ties an end, a conflict is reported exactly when some instant is overloaded |
| Sweep.SweepExactIff | internal/ratelimit/manager.go:1135-1180 | if an overload that counts end points implies one that does not, the verdict equals overload at some instant for every order of the events; that condition is needed for all orders together, which include orders that no walk of the map builds |
| Sweep.BackToBackAccepted | internal/ratelimit/manager.go:1149-1179 | two touching intervals of full size are accepted when the new one is the earlier, although end points alone overload an instant |
| Sweep.BackToBackRefused | internal/ratelimit/manager.go:1135-1180 | with a tie the sweep can refuse although no instant is overloaded |
| RateInvariant.TickLowers | internal/ratelimit/manager.go:262-318 | a tick of any algorithm only lowers used tokens, not below zero, and touches no ledger |
| RateInvariant.RequestOk | internal/ratelimit/manager.go:584-694 | requests keep ledgers, limits and reservations |
| RateInvariant.ReturnOk | internal/ratelimit/manager.go:1282-1310 | so do token returns |
| RateInvariant.LoanOk | internal/ratelimit/manager.go:823-836 | a loan is booked on both sides and the clamp after it never cuts anything off |
| RateInvariant.BorrowOk | internal/ratelimit/manager.go:786-870 | borrowing keeps total borrowed equal to total lent and everyone within limits |
| RateInvariant.GiveBackOk | internal/ratelimit/manager.go:872-937 | so does giving back |
| RateInvariant.AdjustOk | internal/ratelimit/manager.go:939-968 | a new quota keeps used tokens within the effective limit |
| RateInvariant.NewPolicyOk | internal/ratelimit/manager.go:491-518 | a new policy disturbs nothing |
| RateInvariant.BindNewOk | internal/ratelimit/manager.go:542-582 | binding a new caller keeps the invariant |
| RateInvariant.RebindLedgers | internal/ratelimit/manager.go:542-582 | binding an existing caller again keeps the ledgers exactly when its old entries allow it |
| RateWitness.RebindLosesReserved | internal/ratelimit/manager.go:542-582 | a run from the empty limiter after which a second bind breaks the ledgers |
| RateReservations.AdmissionSound | internal/ratelimit/manager.go:1084-1090 | an admitted reservation fits beside all pending and active ones at every instant |
| RateReservations.RefusalWitness | internal/ratelimit/manager.go:1084-1090 | a refusal comes with an instant whose closed load is over the limit |
| RateReservations.ConflictExact | internal/ratelimit/manager.go:1135-1180 | unless end points alone overload some instant, a booking is refused exactly when it overloads one beside the live reservations, in whatever order the map is walked |
| RateReservations.ReservedCovers | internal/ratelimit/manager.go:393-397 | a caller's reserved tokens cover each of its active reservations, so the clamp to zero is never taken |
| RateReservations.ReserveOk | internal/ratelimit/manager.go:1035-1133 | creating a reservation keeps the invariant |
| RateReservations.CancelOk | internal/ratelimit/manager.go:1182-1239 | cancelling keeps it |
| RateReservations.AdvanceAllOk | internal/ratelimit/manager.go:338-418 | a reservation tick keeps it in whatever order the map is walked, and leaves none active outside its interval |
| RateReservations.ActiveFits | internal/ratelimit/manager.go:338-355 | in any state that keeps the invariant, the active reservations of a policy alone are within its limit when none of them has run out |
| RateReservations.ActiveFitsAfterTick | internal/ratelimit/manager.go:338-355 | after a tick the active reservations of a policy alone are within its limit |
| RateWitness.ActiveOverlapsBetweenTicks | internal/ratelimit/manager.go:1092-1121 | between ticks they may not be: a run from the empty limiter that ends with ten tokens active under a limit of five |
| RateReservations.RefillTickOk | internal/ratelimit/manager.go:223-260 | the background tick keeps the invariant |
| RateReservations.GrantQueuedOk | internal/ratelimit/manager.go:420-476 | granting from the wait queue keeps it and only removes items |
| RateReservations.RunOk | internal/ratelimit/manager.go:140-156 | in every reachable state borrowed and lent tokens are not negative and their totals agree, reserved tokens are the sum of active reservations, 0 <= used <= effective limit, and no policy is over-reserved at any instant |
| RateEffects.LimitIs | internal/ratelimit/manager.go:140-156 | a caller's limit is the smaller of quota and policy maximum, plus borrowed and reserved, less lent, and never negative |
| RateEffects.RequestEffect | internal/ratelimit/manager.go:584-694 | a request is granted exactly when it fits the limit after the tick; otherwise it queues for the time asked for or thirty seconds, or is refused |
| RateEffects.ReturnEffect | internal/ratelimit/manager.go:1282-1310 | a return takes tokens off the used ones, down to zero, after the tick |
| RateEffects.AdjustEffect | internal/ratelimit/manager.go:939-968 | the new quota, and used tokens cut down to the limit it leaves |
| RateEffects.SlidingTick | internal/ratelimit/manager.go:298-317 | a sliding window keeps a factor of its used tokens, rounded down |
| RateEffects.BucketTick | internal/ratelimit/manager.go:273-297 | a bucket takes exactly what flowed in off the used tokens; nothing within a millisecond of the stamp; less than a tenth of a token is lost |
| RateEffects.BorrowEffect | internal/ratelimit/manager.go:786-870 | a loan is granted exactly when the lender has that much left after the ticks; both ledgers rise by the amount, also for one caller, and nothing else changes |
| RateEffects.GiveBackEffect | internal/ratelimit/manager.go:872-937 | what ReturnQuota's row says, for every state |
| RateEffects.LoanRoundTrip | internal/ratelimit/manager.go:786-937 | after a successful borrow the return of the same amount succeeds and puts the state back to the two ticks before the loan, with everybody's ledgers and limits as before |
| RateEffects.AdvanceEffect | internal/ratelimit/manager.go:338-418 | a reservation's turn in the tick moves it to where it stands now, adds or takes back what it reserves, and cuts used tokens down to the limit left |
| RateEffects.ActivateUnbound | internal/ratelimit/manager.go:357-388 | a pending reservation of a caller that is not bound is cancelled at its start |
| RateEffects.AdvanceAllEffect | internal/ratelimit/manager.go:338-355 | after the tick, in whatever order, every reservation stands where it should: pending before its start, active until its end, completed from then on |
| RateEffects.CancelEffect | internal/ratelimit/manager.go:1182-1239 | a live reservation is cancelled with what it reserved; any other stays |
| RateEffects.ReserveEffect | internal/ratelimit/manager.go:1035-1133 | when a booking succeeds, and the row, status and limit it leaves |
| RateEffects.QueueStep | internal/ratelimit/manager.go:420-476 | an item of the queue is dropped, granted all its tokens or kept, and why |
| RateEffects.DropExpiredEffect | internal/ratelimit/manager.go:320-336 | the items that stay are those whose time is not over, in order |
| RateEffects.RefillEffect | internal/ratelimit/manager.go:223-260 | after a background pass every reservation stands where it should, another tick would change nobody, and whoever still waits has time left and asks for more than its caller has |
| RateBounds.RequestIsAsk | internal/ratelimit/manager.go:584-694 | a request acts on its caller's binding as a tick and a charge of what is granted |
| RateBounds.ReturnIsBack | internal/ratelimit/manager.go:1282-1310 | a return acts as a tick and a refund |
| RateBounds.BucketDrop | internal/ratelimit/manager.go:273-297 | one tick of a bucket frees at most ten times the refill of the time it accounts for, and leaves less than a millisecond unaccounted |
| RateBounds.BucketRunBound | internal/ratelimit/manager.go:273-297 | what polls, requests, returns and cuts on one binding grant over a span T is at most L + 10 * RefillRate * (T + 1 ms) plus what comes back, however often it is polled |
| RateSharp.TickFrees | internal/ratelimit/manager.go:273-297 | a tick that stamps the refill time frees at most what flowed in, rounded up, and exactly that, cut off at the limit, when all of the limit is used; nothing below a tenth of a token |
| RateSharp.SharpBoundIff | internal/ratelimit/manager.go:273-297 | for every rate and limit: without the millisecond the bound holds for every continuation on the binding exactly when the last refill stamp is a millisecond old, or the used tokens and the allowance since the start cover what any first stamping tick can free |
| RateSharp.DueIsCovered | internal/ratelimit/manager.go:273-297 | that is so when the used tokens cover the allowance since the last refill |
| RateBounds.TenthSecondPollFreesToken | internal/ratelimit/manager.go:278-293 | the factor ten is reached: a poll every tenth of a second frees a whole token at one token per second |
| RateBounds.WindowTick | internal/ratelimit/manager.go:264-272 | a window moves by whole widths and covers now afterwards; used tokens drop to zero exactly when it moves |
| RateBounds.WindowRunBound | internal/ratelimit/manager.go:262-272 | what polls, requests, returns and cuts on one binding grant in a half-open interval as long as its window is at most 2L plus what comes back |
| RateEvents.QueueTold | internal/ratelimit/manager.go:420-476 | the grant loop over a queue of any length acts on a caller as one request per item of its own, and grants it exactly what those are granted |
| RateEvents.StepExplained | internal/ratelimit/manager.go:223-318 | every operation that ends with the caller's effective limit where it was (requests, returns, loans, quotas, policies, bookings, cancellations, reservation and refill ticks, status queries, by any caller) changes its meter as a list of events that grants and gives back the same tokens |
| RateRuns.RunIsTold | internal/ratelimit/manager.go:223-318 | so does every run: its final meter, its grants to requests and queue items, and what it returned or had cut off are those of its events, in time order |
| RateStamps.RunStamped | internal/ratelimit/manager.go:262-318 | in every reachable state no window start or refill stamp is ahead of the clock |
| RateRuns.BucketRuns | internal/ratelimit/manager.go:273-297 | over every run in which a caller's effective limit L is the same before and after each operation, a bucket grants it at most L + 10 * RefillRate * (T + 1 ms), plus what it returns, plus what reservation ticks cut off |
| RateRuns.BucketRunsSharp | internal/ratelimit/manager.go:273-297 | the same without the millisecond, counted from an instant that satisfies the condition of SharpBoundIff |
| RateRuns.SharpRunsIff | internal/ratelimit/manager.go:273-297 | that condition is exact: it holds if and only if the bound without the millisecond holds over every legal run from that instant on that keeps the caller's limit |
| RateRuns.SharpRunFails | internal/ratelimit/manager.go:274-277 | where it does not hold, two requests are a legal run that breaks the bound |
| RateWitness.SharpRunBroken | internal/ratelimit/manager.go:274-277 | from the empty limiter: five tokens half a millisecond after the bind and one at a tenth of a second, against a limit of five and an allowance of 0.995 |
| RateRuns.WindowRuns | internal/ratelimit/manager.go:262-272 | over every such run inside a half-open interval as long as its window a caller is granted at most 2L, plus what it returns, plus what reservation ticks cut off |
| RateStamps.WindowStartsRuns | internal/ratelimit/manager.go:264-272 | over every legal run, whatever happens to the caller's limit, its window starts move by whole widths |
| RateStamps.WindowsFromBind | internal/ratelimit/manager.go:264-272 | every window of every run starts a whole number of widths after the bind time |
| RateCuts.WorstWalk | internal/ratelimit/manager.go:388-418 | no walk of a reservation tick cuts off more than the used tokens above the limit that remains once the expired reservations have given their tokens back, and some walk cuts off exactly that much |
| RateCuts.NoneEnding | internal/ratelimit/manager.go:338-355 | a tick at which no active reservation of the caller has run out finds nothing to cut off |
| RateCuts.BucketRunsUncut | internal/ratelimit/manager.go:388-418 | the bucket's bound without the cut, over every run whose reservation ticks find nothing to cut off |
| RateCuts.WindowRunsUncut | internal/ratelimit/manager.go:388-418 | the window's bound without the cut, over every such run |
| RateWitness.OnShiftReached | internal/ratelimit/manager.go:1035-1133 | the state from which the next run starts is reached from the empty limiter |
| RateWitness.CutGrantsAgain | internal/ratelimit/manager.go:404-406 | with a cut the bounds of the limit alone fail: fifteen tokens granted under a limit of ten, nothing returned and no refill, for one order of the walk, and ten for the other |
| RateLimiter.RateLimiter.TickFields | internal/ratelimit/manager.go:262-318 | the three algorithms with their branches leave the fields the tick function gives |
| RateLimiter.RateLimiter.RequestTokens | internal/ratelimit/manager.go:584-694 | new tables and outcome |
| RateLimiter.RateLimiter.ReturnTokens | internal/ratelimit/manager.go:1282-1310 | new tables |
| RateLimiter.RateLimiter.BorrowQuota | internal/ratelimit/manager.go:786-870 | new tables and answer, also when lender and borrower are the same caller |
| RateLimiter.RateLimiter.ReturnQuota | internal/ratelimit/manager.go:872-937 | succeeds exactly when both callers are bound and the ledgers show that much borrowed and lent; then both are lower by the amount, also when they belong to one caller, used tokens are cut down to the limit left, and nothing else changes |
| RateLimiter.RateLimiter.AdjustQuota | internal/ratelimit/manager.go:939-968 | new tables |
| RateLimiter.RateLimiter.BindCaller | internal/ratelimit/manager.go:542-582 | new tables, replacing an old binding |
| RateLimiter.RateLimiter.CreatePolicy | internal/ratelimit/manager.go:491-518 | only new names are added |
| RateLimiter.RateLimiter.CheckConflict | internal/ratelimit/manager.go:1135-1180 | the sweep over the policy's live reservations in some order of the map |
| RateLimiter.RateLimiter.CreateReservation | internal/ratelimit/manager.go:1035-1133 | the eight answers in the source's order, and the new tables |
| RateLimiter.RateLimiter.ProcessReservationTick | internal/ratelimit/manager.go:338-355 | the tick of every reservation in some order of the map |
| RateLimiter.RateLimiter.CancelReservation | internal/ratelimit/manager.go:1182-1239 | new tables; succeeds exactly on live reservations |
| RateLimiter.RateLimiter.TryGrantFromQueue | internal/ratelimit/manager.go:420-476 | items granted and kept, in queue order |
| RateLimiter.RateLimiter.Refill | internal/ratelimit/manager.go:223-260 | one background pass |
| RateLimiter.RateLimiter.GetCallerStatus | internal/ratelimit/manager.go:696-739 | the tokens between the used ones and the limit, and the ticks a status query performs |
| BudgetMetering.StepMetered | internal/lockbudget/manager.go:440-495 | every operation keeps: no holding is charged for more time than it was metered, and an uninterrupted one for exactly that time |
| BudgetMetering.RunMetered | internal/lockbudget/manager.go:440-495 | the same over every run |
| BudgetMetering.ChargedForTimeHeld | internal/lockbudget/manager.go:839-880 | at release a lock has been charged at most the seconds held, rounded up, across resets, new budgets and arrears; exactly that if uninterrupted, and the reported units are then between once and twice that |
| BudgetMetering.PollingIndependent | internal/lockbudget/manager.go:440-495 | a lock held d seconds within one period is charged exactly ceil(d) whatever ticks, refreshes, renewals, transfers and other locks come in between |
| BudgetMetering.AdvanceCovers | internal/lockbudget/manager.go:205-232 | the periods stepped over start by now, and the last covers now unless a whole number of periods has elapsed |
| BudgetMetering.ResetCovers | internal/lockbudget/manager.go:198-264 | a reset opens a period that covers now exactly when the seconds since the old one ended are no positive whole number of periods |
| BudgetMetering.ResetAlreadyOver | internal/lockbudget/manager.go:205-232 | a run of a new caller whose reset opens a period that ends at that instant |
| BudgetPenalty.PenaltyBand | internal/lockbudget/manager.go:416-438 | for every way of splitting a period's charges the penalty is between ceil(O/2) and O, and consumed - penalty = carry + raw |
| BudgetPenalty.OneChunkCostsLeast | internal/lockbudget/manager.go:416-438 | one chunk reaches the lower end |
| BudgetPenalty.SecondsCostMost | internal/lockbudget/manager.go:416-438 | charging second by second reaches the upper end |
| BudgetPenalty.FinalizeLedger | internal/lockbudget/manager.go:295-308 | the closing charges of a settlement stay in the band |
| BudgetPenalty.RunLedger | internal/lockbudget/manager.go:198-308 | over every run the balance adds up and the penalty is in the band in each period whose limit and balance nobody moved |
| BudgetPenalty.NewCallerRuns | internal/lockbudget/manager.go:198-308 | both hold after every run of a new caller |
| BudgetEffects.MeterEffect | internal/lockbudget/manager.go:440-495 | for every order of the map: what MeterCaller's row says |
| BudgetEffects.TickedUpToDate | internal/lockbudget/manager.go:440-495 | after a tick every holding expires later, and less than a second of it is unmetered, in arrears nothing |
| BudgetEffects.FinalizeEffect | internal/lockbudget/manager.go:266-308 | a settlement charges every holding its whole seconds up to the end of the period, and notes no overdraft for them |
| BudgetEffects.StopEffect | internal/lockbudget/manager.go:839-880 | a release charges the seconds since the last metering, rounded up, removes the holding and reports all that was added for it in this period |
| BudgetEffects.SetBudgetEffect | internal/lockbudget/manager.go:512-580 | a new budget begins now with nothing consumed and every holding metered afresh |
| BudgetEffects.ResetEffect | internal/lockbudget/manager.go:198-264 | for every order of the map: what CheckPeriodReset's row says |
| BudgetEffects.CarriedOver | internal/lockbudget/manager.go:198-264 | the same carry across a whole refresh |
| BudgetRuns.NewCallerInOrder | internal/lockbudget/manager.go:198-495 | over every run of a new caller the charges of a period cover those of its uninterrupted holdings, and in a period whose limit and balance nobody moved the overdraft noted is the excess once anything was charged |
| BudgetRuns.HeldIsConsumed | internal/lockbudget/manager.go:440-803 | in the setting of PollingIndependent, unless limit or balance were moved, a refresh leaves at least the carry and the whole seconds held consumed, so the caller is refused once they reach limit and overdraft |
| BudgetRuns.CarryLaw | internal/lockbudget/manager.go:198-264 | over every run of a new caller, in such a period: the carry is the excess, if anything was charged, and the penalty, with that of the closing charges; when nothing is left to charge it is max(0, consumed - limit) + penalty exactly when something was charged or the old carry was within the limit |
| BudgetRuns.DebtDropped | internal/lockbudget/manager.go:239-246 | a run in which a debt of the first period is dropped after an idle second one |
| LockBudget.CallerBudget.ApplyOverdraftPenalty | internal/lockbudget/manager.go:416-438 | units to add and the penalty among them |
| LockBudget.CallerBudget.MeterCaller | internal/lockbudget/manager.go:440-495 | exactly the expired holdings are gone; out of arrears every other one is charged the whole seconds since its last metering, and the balance rises by their sum and a penalty in the band; in arrears nothing is charged and metering goes on from now |
| LockBudget.CallerBudget.FinalizeCurrentPeriod | internal/lockbudget/manager.go:266-308 | the closing charges, in some order of the map |
| LockBudget.CallerBudget.CheckPeriodReset | internal/lockbudget/manager.go:198-264 | nothing before the end of the period; after it a period that begins a whole number of periods later, holdings metered afresh, overdraft and penalty zero, and as carry and consumption the overdraft last noted and the whole penalty of the old period, closing charges included, or zero in arrears |
| LockBudget.CallerBudget.AdvancePeriodStart | internal/lockbudget/manager.go:215-232 | the loop adds one period length per skipped period |
| LockBudget.CallerBudget.Refresh | internal/lockbudget/manager.go:501-506 | reset, then metering |
| LockBudget.CallerBudget.SetBudgetWithOverdraft | internal/lockbudget/manager.go:512-580 | refused limits and periods, settlement of the old budget, a clean new one |
| LockBudget.CallerBudget.CheckAcquire | internal/lockbudget/manager.go:680-803 | arrears and freezes first; otherwise allowed exactly below limit plus effective overdraft, and refused for the overdraft or for the budget as there is an overdraft or not |
| LockBudget.CallerBudget.StartHolding | internal/lockbudget/manager.go:805-837 | metering starts at the acquisition or at the period start |
| LockBudget.CallerBudget.StopHolding | internal/lockbudget/manager.go:839-880 | the last charge is rounded up; the units reported |
| LockBudget.CallerBudget.TransferTo | internal/lockbudget/manager.go:608-678 | both sides refreshed, refused exactly when the sender has too little left |
| LockBudget.TransferConserves | internal/lockbudget/manager.go:647-663 | consumed units are conserved exactly when the receiver has consumed at least the amount; the sender stays within its limit |
| HeartbeatGroups.DegradedIsDownstream | internal/heartbeat/manager.go:613-668 | a degraded group reaches an unhealthy one along its dependencies |
| HeartbeatGroups.RestoreUnique | internal/heartbeat/manager.go:670-733 | clearing flags until every degraded group has a bad dependency has one outcome, whatever the order of the cascade |
| HeartbeatGroups.RestoredStatus | internal/heartbeat/manager.go:670-733 | a group cleared by a restore is healthy exactly when its alive count reaches its threshold, unhealthy otherwise, and none of its dependencies is unhealthy or degraded in the end |
| HeartbeatGroups.DeleteKeepsCausedIff | internal/heartbeat/manager.go:509-559 | deleting a group keeps every degraded group caused exactly when none loses its only bad dependency |
| HeartbeatGroups.DeleteLeavesOrphan | internal/heartbeat/manager.go:509-559 | a deletion that leaves a group degraded without a cause |
| Heartbeat.GroupManager.CreateGroup | internal/heartbeat/manager.go:470-507 | a new healthy group, and when it is refused |
| Heartbeat.GroupManager.TryRestoreGroup | internal/heartbeat/manager.go:670-733 | terminates because the degraded groups get fewer; clears only flags whose groups have no bad dependency in the end, and reaches the fixpoint in which every degraded group it had to look at has one |
| Heartbeat.GroupManager.CheckCascadeDegrade | internal/heartbeat/manager.go:613-668 | an unhealthy group flags exactly its direct dependents; any other group only triggers restores |
| Heartbeat.GroupManager.UpdateGroupHealth | internal/heartbeat/manager.go:561-611 | the group is unhealthy exactly when fewer members than its threshold are healthy, suspect or recovered, and healthy otherwise; then its direct dependents are flagged or restores follow; degraded groups stay caused |
| Heartbeat.GroupManager.WouldCreateCycle | internal/heartbeat/manager.go:786-806 | true exactly when the dependency already depends on the group |
| Heartbeat.GroupManager.AddGroupDependency | internal/heartbeat/manager.go:735-784 | accepts exactly the edges between existing groups that keep the graph acyclic; then an unhealthy dependency flags exactly its direct dependents, the new one among them, and otherwise only the row is new; degraded groups stay caused |
| Heartbeat.GroupManager.RemoveGroupDependency | internal/heartbeat/manager.go:808-830 | removes the row and restores what it may; degraded groups stay caused |
| Heartbeat.GroupManager.DeleteGroup | internal/heartbeat/manager.go:509-559 | removes the group and its rows both ways; the exact case in which a group loses its cause |
| TopologySearch.HasCycleDFS | internal/topology/manager.go:171-204 | true exactly when the lists close a cycle, for every order of the nodes |
| TopologySearch.CollectAncestors | internal/topology/manager.go:411-430 | exactly the strict ancestors, each once per child it has among the target and its ancestors; on a DAG every occurrence comes after all its own ancestors |
| TopologySearch.CollectDescendants | internal/topology/manager.go:553-575 | every strict descendant exactly once, in any graph |
| Topology.NoDuplicatesIff | internal/topology/manager.go:411-430 | no ancestor is listed twice exactly when each has one child in the family |
| Topology.TopologyManager.RegisterNode | internal/topology/manager.go:84-119 | a new node, and when it is refused |
| Topology.TopologyManager.DeclareEdge | internal/topology/manager.go:121-169 | accepts exactly the new edges between nodes that keep the graph acyclic; the two maps stay duplicate-free transposes |
| Topology.TopologyManager.RemoveEdge | internal/topology/manager.go:751-785 | removes exactly that edge from both maps, which stay duplicate-free transposes |
| Topology.TopologyManager.CollectAncestorsOf | internal/topology/manager.go:411-430 | the acquire order of a cascade lists ancestors before descendants |
| AlertWindow.WindowIsTrue | internal/ratealert/manager.go:205-257 | after any run in time order the pruned window is the filter of all consumption recorded since the rule was set, and an alert is counted exactly when its sum reaches the maximum and twice the time since the last alert is at least a window; the N-th counted one freezes |
| AlertWindow.WindowIsTrueIff | internal/ratealert/manager.go:205-257 | after any run, in time order or not, a recording leaves exactly the consumption recorded since the rule was set that is at most a window old, if and only if no record dropped earlier is that young and no stale record in the window follows a valid one |
| AlertWindow.OutOfOrderKeepsStale | internal/ratealert/manager.go:228-241 | a run with a six-second window, recording at 10 s, 4 s and 11 s, that keeps a stale record |
| AlertWindow.OutOfOrderMissesDropped | internal/ratealert/manager.go:228-241 | a run with a six-second window, recording at 1 s, 8 s and 7 s, that misses a record dropped earlier |
| AlertWindow.UnfrozenBelowThreshold | internal/ratealert/manager.go:259-285 | after any run, in time order or not, a caller that is not frozen has fewer than N alerts counted |
| AlertWindow.FreezeTakesTime | internal/ratealert/manager.go:259-313 | a freeze comes on the N-th counted alert, at least (N - 1) half windows after the first |
| RateAlert.ValidIndex | internal/ratealert/manager.go:103-113 | the index loop finds the first valid record, or the length when all are stale |
| RateAlert.CallerAlert.RecordConsumption | internal/ratealert/manager.go:205-257 | new window, counters and freeze; frozen exactly when the alert counted is the N-th |
| RateAlert.CallerAlert.CleanupExpiredRecords | internal/ratealert/manager.go:93-118 | the records before the first one within the window are gone, the others stay |
| RateAlert.CallerAlert.SetRule | internal/ratealert/manager.go:120-171 | a rule starts window and counters afresh and leaves a freeze alone |
| RateAlert.CallerAlert.Unfreeze | internal/ratealert/manager.go:319-350 | the freeze lifted and the counter reset |
| TxTokens.TickAgain | internal/ratelimit/manager.go:262-318 | a second tick at the same instant changes nothing, whatever was charged in between |
| TxTokens.TakeEffect | internal/orchestration/manager.go:220-245 | requests stop at the first that does not fit; all are granted exactly when together they fit |
| TxTokens.ReturnsUndo | internal/orchestration/manager.go:247-250 | the returns, last one first, undo the charges exactly |
| TxLocks.TakeLocksEffect | internal/orchestration/manager.go:183-218 | acquires stop at the first lock that cannot be granted; all succeed exactly when all are grantable |
| TxLocks.UndoRestores | internal/orchestration/manager.go:251-254 | the rollback restores locks, leases and timers, and the queues minus the holder's own entries |
| Orchestration.AllOrNothing | internal/orchestration/manager.go:157-278 | a transaction commits exactly when all locks are grantable and the tokens fit together, then it holds and has charged everything; otherwise only ticks and the holder's own wait entries differ |
| Orchestration.Orchestrator.CreateTx | internal/orchestration/manager.go:157-278 | the source's loops and rollback on a lock manager and a rate limiter compute that transaction |

## Left out

- Storage never fails: every branch that undoes a step after a storage error is left out, as are history, audit, event and report rows.
- One clock reading per operation: where the source reads the clock several times within one call, the model reads it once. Timers and background loops are operations that may happen at any time.
- The budget, bronze-limit and gold answers during an acquire or a grant, the arrears and freeze answers of a budget check, and the member statuses of a heartbeat group are inputs of the operation.
- Sorting and removing duplicates from the names of a batch, and sorting the locks of a transaction, are preparation of the input: batches take names without repeats, and transactions are proved for every order.
- Wait-queue row ids: a row is known by its position in the table.
- The transient Expired status of a lock between expiry and hand-over is collapsed into the expiry step.
- The exponential decay of the sliding window is any factor between 0 and 1 that depends on elapsed time and window; other floating-point arithmetic is exact real arithmetic.
- Fixed-window policies with a window of zero or less, for which the source divides by zero, are excluded; amounts, tokens and policy maxima are non-negative, as the request binding rules demand.
- RateRuns.BucketRuns: needs one millisecond more than the span, because a tick within a millisecond of the last refill keeps the old stamp, and what reservation ticks cut off, because of RateWitness.CutGrantsAgain; like RateRuns.WindowRuns it speaks about runs in which the caller's limit is the same between operations.
- Settlement bills, period summaries, creation of arrears, peak and exhaust counters of the lock budget: they are written and not read by the metering.
- RateAlert and LockBudget are modelled per caller; the maps of callers add nothing but the lookup.
- Heartbeat registration, missed-beat detection, and the disposal of a lost caller's resources: simple status machines around UpdateGroupHealth.
- Orchestration.Orchestrator.CreateTx: no interleaving with other callers and a clock that stands still, because the source takes the two managers' mutexes call by call. ReleaseTx, which releases the locks and returns no tokens, and timeoutTx, which does both, are left out.
- Cascade acquire and release of the topology: a queued failure leaves a wait entry and a budget refusal counts as acquired, so atomicity does not hold in the source.
- Restart and load paths, handover, HTTP handlers, heatmap, reputation scores, circuit breaker, shadow plans and list functions.
