# Verified model of the job queue's scheduling core

This project models the scheduling core of `cloud_dog_jobs` in Dafny and proves what it keeps over
whole runs:

* the dependency tracker and the deadlock guard, with their explicit-stack cycle searches;
* the concurrency manager, the resource pool and the dispatcher that combines them greedily with a
  rollback between the two;
* the in-memory backend, the submit facade with idempotency keys, the fallback policies, and the
  worker's turn with all its exits;
* any number of workers interleaving their steps over one tracker and one backend;
* the Redis backend as atomic steps over job hashes, the sorted-set index and expiring lease keys;
* tenant quotas, the weighted pick, and the priority queue on a binary heap.

Objects of the source are classes whose methods state the whole new state through a specification
function; the theorems are lemmas about those functions and about runs (sequences of calls) of
them. For each main operation some theorem fixes what it does in the fields it reads and writes
alone, without naming the operation's own function. The clock, fresh ids, the handler's outcome, a rival worker's claim, the notifier's failure
and the order in which a scan yields keys are parameters. `Store.log` (memory backend) and `stamps`
(Redis) are history: every status write, and when each job was last queued.

## What the code does not guarantee

Each item has a lemma that shows it happen, on a concrete input or run or on every one of a family,
and the exact condition where it is a matter of the input.

* A job id that acquires resources while already holding some strands the first slots
  (`DoubleAcquireLeaks`, `GrantConservesIff`).
* A concurrency release nobody is owed can unbalance the counters, because each is clamped on its
  own (`UnmatchedReleaseUnbalances`, `GiveBalancesIff`).
* A job type without a handler leaves its job running and its slots taken, because the lookup comes
  before the `try` (`UnhandledJobKeepsItsSlot`, `TurnRestoresSlotsIff`).
* Moving a Redis job to `queued` by `update_status` does not index it (`TakenBackIsNotIndexed`,
  `UpdateKeepsIndexIff`).
* A Redis heartbeat that comes too late does not bring the lease back, and the next reap requeues
  the job under its worker (`MissedBeatIsReaped`, `LeasedIffBeatsInTime`).
* A filtered Redis dequeue can miss matching jobs beyond its window (`MatchBeyondTheWindow`,
  `FilteredDequeueIff`), and the packed score turns the priority order over after 10,000,000,000 ms
  per priority step (`OldJobOvertakesPriority`, `DequeueRefinesScanIff`).
* `max_per_minute` does not bound every minute: a minute across a window boundary can hold exactly
  twice as many submissions, for every quota that admits anything at all (`TwoBurstsInOneMinute`,
  `RateHoldsIff`, `RateBound`).
* A timed-out dependency is reported as given up although the table lets the job recover, and an
  archived one is not reported although it cannot (`GivenUpIff`).
* With `limit = 1`, as the worker asks, a blocked job at the head hides runnable ones
  (`BlockedHeadHidesTheRest`, `SelectionNonEmptyIff`).
* A tenant's own completions can leave another tenant further ahead than the fair-share bound
  (`OwnCompletionsOpenAGap`); they keep the bound exactly when the tenant can spare the jobs
  (`OwnCompletionsKeepFairIff`, `RunsStayFairIff`), and `RunsAreFairUpToOwnCompletions` is what
  holds in every run.

An idempotency key is remembered before the cycle check. That does no harm as long as a job id is
never named as a dependency before it is drawn, which holds for the random ids `submit` draws
(`FreshIsNeverRejected`, `HistoriesDeduplicate`); `KeysStayBackedIff` is the exact condition, and
`PhantomDuplicate` shows what an id named in advance would do.

## Layout

| file | content |
|---|---|
| Basics, Sorting, BinaryHeaps, Graphs | dictionaries with defaults, stable sort, heaps, wait-for graphs and stack search |
| JobStates | lifecycle states and transition table |
| DependencyTracker, DeadlockGuard | cycle detection, runs, draining of wait-for graphs |
| ResourcePool, Concurrency | slot books and their conservation |
| MemoryBackend, Dispatcher, FirstFit, Draining | dequeue order, greedy selection, progress by dependencies |
| JobQueue | submit and idempotency |
| FallbackPolicies, Worker, WorkerTurns | one worker's turn: every exit, its answer, its writes and its charges |
| WorkerRuns | turns in sequence: slots, statuses, draining with dead letters |
| OrderedDraining | one worker's turns through a queue of jobs that wait for one another |
| SharedRuns, SharedTheorems | interleavings of many workers |
| RedisBackend, RedisRuns, RedisJobs, RedisRefinement | the lease protocol, each job on its own, and the index |
| FairShare, RateLimit, PriorityQueue | quotas, weighted pick, reprioritisation |

Check everything with `dafny verify dfyconfig.toml`.

## Model

| member | source | states |
|---|---|---|
| `JobStates.Transition` | cloud_dog_jobs/domain/state_machine.py:84-88 | the requested status is returned exactly when the table allows the transition; otherwise the error |
| `JobStates.RunsAgainIffNotFinished` | cloud_dog_jobs/domain/state_machine.py:25-44 | over all paths of the default table: a job can still reach `running` if and only if it is not succeeded, failed, cancelled, ttl_expired, dead_lettered or archived |
| `JobStates.EnteredFrom` | cloud_dog_jobs/domain/state_machine.py:25-44 | the table read by columns: for each status, exactly the statuses it may be entered from |
| `JobStates.FinishedHistories` | cloud_dog_jobs/domain/state_machine.py:25-44 | every legal history of a finished job is one of: nothing more, archived, or after a failure dead-lettered and then perhaps archived |
| `JobStates.SucceedsIffNotFinished` | cloud_dog_jobs/domain/state_machine.py:25-44 | a job can still reach succeeded if and only if it has succeeded or is not finished |
| `DependencyTracking.DependencyTracker.DetectCycle` | cloud_dog_jobs/scheduler/dependency.py:66-85 | the stack search terminates on every graph; it answers True exactly when a listed dependency reaches the job, and on an acyclic graph exactly when the new edges would close a cycle |
| `DependencyTracking.DependencyTracker.ValidateAndRegister` | cloud_dog_jobs/scheduler/dependency.py:87-99 | refuses exactly when a cycle would close; a refusal or an empty list leaves all edges alone, else only the job's edges are replaced |
| `DependencyTracking.DependencyTracker.Register` | cloud_dog_jobs/scheduler/dependency.py:52-59 | records a nonempty list without a check |
| `DependencyTracking.DependencyTracker.Unregister` | cloud_dog_jobs/scheduler/dependency.py:61-64 | removes the job's edges and nothing else |
| `DependencyTracking.DependencyTracker.IsRunnable` | cloud_dog_jobs/scheduler/dependency.py:106-120 | True exactly when every dependency is known and succeeded |
| `DependencyTracking.DependencyTracker.HasFailedDependency` | cloud_dog_jobs/scheduler/dependency.py:122-140 | returns, in order, exactly the dependencies that are failed, cancelled, timed out, ttl_expired or dead_lettered; when there is one the job is not runnable |
| `DependencyTracking.GivenUpIff` | cloud_dog_jobs/scheduler/dependency.py:25-32 | a dependency counts as given up if and only if it timed out, or is not archived and no legal path leads from its status to succeeded |
| `DependencyTracking.RegisterKeepsAcyclicIff` | cloud_dog_jobs/scheduler/dependency.py:66-99 | replacing a job's edges keeps an acyclic graph acyclic if and only if no new dependency reaches the job |
| `DependencyTracking.RunsStayAcyclic` | cloud_dog_jobs/scheduler/dependency.py:87-99 | every run of validated registrations and removals keeps the wait-for graph acyclic |
| `DependencyTracking.UncheckedRegisterIff` | cloud_dog_jobs/scheduler/dependency.py:52-59 | `register` performs no check: it keeps the graph acyclic if and only if the skipped check would have passed |
| `Graphs.NewEdgesCloseCycleIff` | cloud_dog_jobs/scheduler/dependency.py:66-85 | changing one node's edges in an acyclic graph closes a cycle if and only if a new successor already reaches the node |
| `Graphs.MinimalMember` | cloud_dog_jobs/scheduler/dependency.py:106-120 | in an acyclic wait-for graph every nonempty set of jobs has a member that waits for no other member |
| `DeadlockAvoidance.DeadlockGuard.AddDependency` | cloud_dog_jobs/broker/deadlock.py:23-34 | an edge is refused exactly when it would close a cycle; a refusal changes nothing |
| `DeadlockAvoidance.DeadlockGuard.YieldTo` | cloud_dog_jobs/broker/deadlock.py:54-60 | the waiter's edge to the holder is added exactly when it is safe |
| `DeadlockAvoidance.DeadlockGuard.RemoveJob` | cloud_dog_jobs/broker/deadlock.py:36-42 | the job loses its edges and leaves every waiting set |
| `DeadlockAvoidance.DeadlockGuard.GetBlockedJobs` | cloud_dog_jobs/broker/deadlock.py:44-47 | lists each job with a nonempty waiting set exactly once |
| `DeadlockAvoidance.DeadlockGuard.WouldCycle` | cloud_dog_jobs/broker/deadlock.py:62-76 | the search answers exactly reachability of the tail from the head |
| `DeadlockAvoidance.RunsStayAcyclic` | cloud_dog_jobs/broker/deadlock.py:23-42 | every run of additions and removals keeps the graph acyclic |
| `DeadlockAvoidance.RunsRecordEdges` | cloud_dog_jobs/broker/deadlock.py:23-42 | after every run an edge is there if and only if it was at the start or was added while safe, and neither end has been removed since |
| `DeadlockAvoidance.SomeWaitedForJobIsFree` | cloud_dog_jobs/broker/deadlock.py:44-47 | whenever some job is blocked, some job it or another waits for is not blocked |
| `DeadlockAvoidance.GreedyDrainIsBounded` | cloud_dog_jobs/broker/deadlock.py:36-42 | whatever unblocked jobs are removed in turn, removals never outnumber jobs, and as many removals as jobs leave the graph empty |
| `DeadlockAvoidance.DrainExists` | cloud_dog_jobs/broker/deadlock.py:36-47 | from any acyclic graph removing unblocked jobs one by one empties it |
| `ResourcePools.ResourcePool.CanAcquireNow` | cloud_dog_jobs/scheduler/resource_pool.py:74-86 | False exactly when some requested pool has a configured limit that its used count plus the request passes |
| `ResourcePools.ResourcePool.Acquire` | cloud_dog_jobs/scheduler/resource_pool.py:88-98 | refused exactly on such a pool and then unchanged; otherwise every used count rises by the request and the holding is recorded under the job |
| `ResourcePools.ResourcePool.Release` | cloud_dog_jobs/scheduler/resource_pool.py:100-105 | the job's holding is taken from each used count, never below zero, and forgotten; unknown jobs change nothing |
| `ResourcePools.ResourcePool.BlockedCount` | cloud_dog_jobs/scheduler/resource_pool.py:65-72 | the number of configured pools with no slot left |
| `ResourcePools.RunsConserve` | cloud_dog_jobs/scheduler/resource_pool.py:88-105 | in every run where no id acquires while holding, each pool's used count equals the sum over holders and stays within its limit |
| `ResourcePools.AcquireIsExact` | cloud_dog_jobs/scheduler/resource_pool.py:74-98 | refused if and only if some requested pool has a limit that used plus requested passes; otherwise all requested slots are charged |
| `ResourcePools.RefusedIffHeldOut` | cloud_dog_jobs/scheduler/resource_pool.py:74-105 | in every run without double acquisition a request is refused if and only if what all holders together hold of some limited pool leaves no room for it |
| `ResourcePools.UnlimitedIsGranted` | cloud_dog_jobs/scheduler/resource_pool.py:79-82 | a request naming only pools without a configured limit is always granted |
| `ResourcePools.ClampIdle` | cloud_dog_jobs/scheduler/resource_pool.py:100-105 | with the books right no holding exceeds the used count, so the clamp at zero never fires |
| `ResourcePools.GrantConservesIff` | cloud_dog_jobs/scheduler/resource_pool.py:88-98 | a grant keeps used equal to held if and only if the job held no slots before: a second acquire overwrites the holder entry |
| `ResourcePools.DoubleAcquireLeaks` | cloud_dog_jobs/scheduler/resource_pool.py:95-97 | a concrete run: acquire twice, release once, and one slot stays used with no holder |
| `Concurrency.ConcurrencyManager.Acquire` | cloud_dog_jobs/scheduler/concurrency.py:52-60 | a slot is charged to all four counters exactly when all four limits allow it |
| `Concurrency.ConcurrencyManager.Release` | cloud_dog_jobs/scheduler/concurrency.py:62-67 | one is taken from each of the four counters, never below zero |
| `Concurrency.RunsAccount` | cloud_dog_jobs/scheduler/concurrency.py:43-67 | in every run of takes and matched gives each counter equals the outstanding tickets of its key and no counter passes its limit |
| `Concurrency.GrantedIffBelowLimits` | cloud_dog_jobs/scheduler/concurrency.py:43-60 | in every such run a take is granted if and only if the outstanding tickets, all and by type, tenant and user, are below the four limits |
| `Concurrency.RunsBalance` | cloud_dog_jobs/scheduler/concurrency.py:43-67 | and the type, tenant and user counters each sum to the global counter |
| `Concurrency.GiveBalancesIff` | cloud_dog_jobs/scheduler/concurrency.py:62-67 | an arbitrary release keeps those sums equal if and only if nothing is running or all three of its own counters are positive |
| `Concurrency.UnmatchedReleaseUnbalances` | cloud_dog_jobs/scheduler/concurrency.py:62-67 | a concrete take and a release for another tenant: nothing runs, yet the first tenant's counter says one |
| `MemoryBackend.MemoryQueueBackend.Enqueue` | cloud_dog_jobs/backends/memory_backend.py:36-40 | the job is stored under its id; a known id keeps its place in the order |
| `MemoryBackend.MemoryQueueBackend.DequeueJobs` | cloud_dog_jobs/backends/memory_backend.py:42-58 | returns the stored objects of the filtered, stably sorted, truncated list and changes nothing |
| `MemoryBackend.MemoryQueueBackend.ClaimJob` | cloud_dog_jobs/backends/memory_backend.py:60-69 | succeeds exactly on a queued job, which becomes running and claimed; nothing else changes |
| `MemoryBackend.MemoryQueueBackend.Release` | cloud_dog_jobs/backends/memory_backend.py:71-80 | a stored job becomes queued and unclaimed |
| `MemoryBackend.MemoryQueueBackend.UpdateStatus` | cloud_dog_jobs/backends/memory_backend.py:96-104 | a stored job's status is overwritten |
| `MemoryBackend.DequeueIsBestFirst` | cloud_dog_jobs/backends/memory_backend.py:42-58 | only wanted jobs, no repeats, best priority then oldest first, nothing better passed over, and all of them when the limit covers the queue |
| `MemoryBackend.DequeueWrittenOut` | cloud_dog_jobs/backends/memory_backend.py:42-58 | in the jobs' own status, type, queue, priority and stamp: eligible jobs only, each once, best first, none left out that is better than one returned |
| `MemoryBackend.DequeueSize` | cloud_dog_jobs/backends/memory_backend.py:58 | as many as asked for, all when fewer, and for a negative limit all but that many |
| `MemoryBackend.EachJobRunsAlone` | cloud_dog_jobs/backends/memory_backend.py:36-104 | jobs do not interfere: in every run of enqueues, claims, releases and status updates each job goes exactly as a machine of its own |
| `MemoryBackend.ReleaseUndoesClaim` | cloud_dog_jobs/backends/memory_backend.py:60-80 | release after claim leaves the order and every other job as they were and the job claimable again; the job itself is restored if and only if it named no claimant before |
| `Sorting.SortIsStable` | cloud_dog_jobs/backends/memory_backend.py:57 | sorting keeps tied elements in the order they had |
| `Sorting.SortedIsUnique` | cloud_dog_jobs/backends/memory_backend.py:57 | when no two different elements tie there is only one sorted arrangement |
| `Dispatching.Dispatcher.SelectEligible` | cloud_dog_jobs/scheduler/dispatcher.py:51-68 | the loop computes the greedy pass over the dequeued jobs: same selection, same final counters, backend untouched |
| `Dispatching.Dispatcher.ReleaseJob` | cloud_dog_jobs/scheduler/dispatcher.py:70-75 | gives the job's concurrency slot and resources back |
| `Dispatching.AdmitIsExact` | cloud_dog_jobs/scheduler/dispatcher.py:60-66 | a job is admitted if and only if it fits both kinds of slots, and a refused one leaves every counter and the holders as they were |
| `Dispatching.GreedySelectsReady` | cloud_dog_jobs/scheduler/dispatcher.py:55-67 | the selection is an order-preserving part of the dequeued jobs, all with dependencies succeeded |
| `Dispatching.SelectedIff` | cloud_dog_jobs/scheduler/dispatcher.py:55-67 | a dequeued job is selected if and only if it is ready and fits what the selections before it left |
| `FirstFit.FirstFitWrittenOut` | cloud_dog_jobs/scheduler/dispatcher.py:51-68 | in starting counters and records: a dequeued job is selected if and only if its dependencies succeeded, the jobs selected before it leave room below all four concurrency limits, and its request plus theirs passes no pool's limit |
| `FirstFit.UnlimitedIsSelected` | cloud_dog_jobs/scheduler/dispatcher.py:51-68 | a ready job with room below the concurrency limits that asks only for unlimited pools is always selected |
| `Dispatching.GreedyIsMaximal` | cloud_dog_jobs/scheduler/dispatcher.py:51-68 | no ready job that was skipped would fit the slots left at the end |
| `Dispatching.GreedyAccounting` | cloud_dog_jobs/scheduler/dispatcher.py:60-67 | the counters rise by exactly the selected jobs' needs and the new holders are exactly the selected jobs that asked for resources |
| `Dispatching.GreedyKeepsPoolBooks` | cloud_dog_jobs/scheduler/dispatcher.py:62-66 | when no dequeued id holds slots, used counts still equal what is held and stay within the limits |
| `Dispatching.GreedyKeepsTickets` | cloud_dog_jobs/scheduler/dispatcher.py:60-65 | the concurrency counters account for the earlier tickets plus one per selected job |
| `Draining.SelectedIffRunnable` | cloud_dog_jobs/scheduler/dispatcher.py:51-68 | with only the tracker and a limit covering the queue, exactly the queued jobs whose dependencies succeeded are selected, each once |
| `Draining.SomethingIsSelected` | cloud_dog_jobs/scheduler/dispatcher.py:51-68 | deadlock freedom: with all jobs queued or succeeded and some queued, the selection is not empty |
| `Draining.RoundsFinishEverything` | cloud_dog_jobs/scheduler/dispatcher.py:51-68 | n rounds of select, claim, succeed finish all n queued jobs, each once and after all its dependencies |
| `Draining.SubmittedWorkFinishes` | cloud_dog_jobs/scheduler/dispatcher.py:51-68 | from submit to success: after every history of n such submits to an empty queue, n rounds finish every stored job, each once and after all its dependencies |
| `Draining.SelectionNonEmptyIff` | cloud_dog_jobs/scheduler/dispatcher.py:53 | for any limit the selection is nonempty if and only if a runnable job is among the first `limit` jobs |
| `Draining.BlockedHeadHidesTheRest` | cloud_dog_jobs/worker/worker.py:101 | a concrete queue where limit 1 selects nothing although another job could run |
| `Submission.IdempotencyManager.RegisterOrGet` | cloud_dog_jobs/idempotency/manager.py:30-37 | a live key answers with its job and is unchanged; otherwise the key is bound to the new job until now plus the window |
| `Submission.JobQueue.SubmitJob` | cloud_dog_jobs/queue.py:50-68 | duplicate, cycle refusal and acceptance: the result and the whole state after each; what the stored job carries is fixed by `HistoriesStoreAsRequested` |
| `Submission.HistoriesDeduplicate` | cloud_dog_jobs/queue.py:50-68 | over every history with a non-decreasing clock and fresh ids: jobs stored under one key are at least the window apart and every call returned the id of a stored job |
| `Submission.FromEmptyDeduplicates` | cloud_dog_jobs/queue.py:50-68 | the same for every history that starts from an empty queue |
| `Submission.HistoriesStoreAsRequested` | cloud_dog_jobs/queue.py:50-68 | over every history from an empty queue: the stored jobs are exactly the accepted calls' and still carry each request's type, queue, priority, resources, dependencies and stamp, queued, unclaimed, without source; a request without a key is accepted; a keyed one is answered with an earlier accepted call's job exactly while that call's window lasts |
| `Submission.ReturnedIdIsStored` | cloud_dog_jobs/queue.py:59-68 | a keyed request is a duplicate exactly while its key is live; a duplicate changes nothing; the returned id is stored |
| `Submission.FreshIsNeverRejected` | cloud_dog_jobs/queue.py:64-65 | an id nobody named as a dependency cannot close a cycle |
| `Submission.KeysStayBackedIff` | cloud_dog_jobs/queue.py:59-66 | every remembered key keeps naming a stored job if and only if the submit is not a keyed new request that the cycle check refuses |
| `Submission.PhantomDuplicate` | cloud_dog_jobs/queue.py:59-66 | a concrete history in which an id is named as a dependency before it is drawn: a later submit is answered with the id of a refused, never stored job |
| `Submission.SubmitKeepsWellSubmitted` | cloud_dog_jobs/queue.py:64-66 | submitting through the tracker keeps edges equal to the jobs' own lists, dependencies stored and the graph acyclic |
| `Submission.HistoriesAreWellSubmitted` | cloud_dog_jobs/queue.py:50-68 | over every history of submits through the tracker that name stored dependencies: all stored jobs are queued, edges equal the jobs' own lists, the graph is acyclic, and there are no more jobs than submits |
| `FallbackPolicies.FallbackPolicyManager.Apply` | cloud_dog_jobs/extensions/fallback_policies.py:78-130 | each policy's status write, the dead letter it enqueues, and, action by action, the decision or the notifier error |
| `FallbackPolicies.PoliciesSettle` | cloud_dog_jobs/extensions/fallback_policies.py:74-130 | job by job: the new status of the failed job, the dead letter's type, queue, priority, stamp and source, and every other job unchanged; an unlisted type is retried |
| `FallbackPolicies.FallbackPolicyManager.SetPolicy` | cloud_dog_jobs/extensions/fallback_policies.py:70-72 | replaces the policy of one job type |
| `Working.Worker.RunTurn` | cloud_dog_jobs/worker/worker.py:90-152 | one turn over the real objects computes the specified outcome on every exit path; what each exit answers and writes is fixed by the `WorkerTurns` rows |
| `Working.Worker.HandleFailure` | cloud_dog_jobs/worker/worker.py:121-148 | the timeout write, then `failed` or the fallback policy, and what is raised |
| `Working.Worker.constructor` | cloud_dog_jobs/worker/worker.py:77-84 | a dispatcher exists exactly when a pool, a concurrency manager or a tracker is given |
| `WorkerTurns.ChosenIsBest` | cloud_dog_jobs/worker/worker.py:103 | without a dispatcher the turn takes the best eligible job of its queue, and none exactly when there is none |
| `WorkerTurns.DispatchedIsBestIfItFits` | cloud_dog_jobs/worker/worker.py:101 | with one it takes that same job if its dependencies are done and all its slots are free, charging exactly what its record asks for, and otherwise none |
| `WorkerTurns.DeniedIffUnauthorised` | cloud_dog_jobs/worker/worker.py:97-98 | PermissionError if and only if not authorised, and then nothing is touched |
| `WorkerTurns.IdleAndUnhandledExits` | cloud_dog_jobs/worker/worker.py:104-114 | False if and only if nothing was selected or a rival claimed it; the unknown job type if and only if the claimed job has no handler |
| `WorkerTurns.RunningExits` | cloud_dog_jobs/worker/worker.py:114-152 | for a turn that runs its job, each answer if and only if: True after success or a dead-lettered, notified or ignored failure; the handler's error or the timeout under retry or without a policy; the notifier's error when it fails |
| `WorkerTurns.OnlyRunningTurnsAnswer` | cloud_dog_jobs/worker/worker.py:114-152 | those answers come from no other turn |
| `WorkerTurns.TurnsThatRunNothing` | cloud_dog_jobs/worker/worker.py:97-114 | refused and idle turns write nothing; a lost or unhandled job is left running under its claimant with that one write |
| `WorkerTurns.RunningWrites` | cloud_dog_jobs/worker/worker.py:108-148 | a turn that runs its job writes exactly running and then succeeded, or timeout if it timed out and then failed or retry_wait; the job keeps everything but status and claimant, every other job everything, and only the policy's dead letter is added |
| `WorkerTurns.SubmittedResourcesAreCharged` | cloud_dog_jobs/scheduler/dispatcher.py:60-66 | from submit to slots: a turn that selects an accepted call's job charges exactly the resources its request named |
| `WorkerTurns.SelectedHoldWhatTheyAsked` | cloud_dog_jobs/scheduler/dispatcher.py:60-66 | and in a selection of any size each selected job holds what its request named |
| `WorkerRuns.TurnRestoresSlotsIff` | cloud_dog_jobs/worker/worker.py:100-152 | when no queued job holds slots, a turn restores all slot counts and holders if and only if not: authorised, with a dispatcher, a selected job that takes slots, no rival, and no handler for its type |
| `WorkerRuns.UnhandledJobKeepsItsSlot` | cloud_dog_jobs/worker/worker.py:108-116 | a concrete worker without handlers: its turn raises, leaves the job running, and nothing fits the slots any more |
| `WorkerRuns.RunsRestoreSlots` | cloud_dog_jobs/worker/worker.py:100-152 | over every run of turns with all handlers registered, no queued job and no dead-letter id holding slots, the slots end as they started, whatever others hold |
| `WorkerRuns.TurnFollowsTheTable` | cloud_dog_jobs/worker/worker.py:108-148 | under every configuration and ending: every write of the turn is an edge of the table for a stored job, each write starts where the job's last one ended, and they take old jobs from their old status and a new dead letter from queued to the status they have |
| `WorkerRuns.RunsFollowTheTableToo` | cloud_dog_jobs/worker/worker.py:108-148 | the same over every run of turns, including dead letters taken up by later turns |
| `WorkerRuns.ProductiveTurn` | cloud_dog_jobs/worker/worker.py:90-152 | a turn that does not return False settles exactly one waiting job of the worker's queue; without a dispatcher it returns False exactly when none waits |
| `WorkerRuns.IdleTurnIff` | cloud_dog_jobs/worker/worker.py:100-106 | with a dispatcher an undisturbed turn returns False if and only if nothing waits or the one job it looks at is not ready or does not fit its slots |
| `WorkerRuns.QueueDrains` | cloud_dog_jobs/worker/worker.py:90-152 | each productive turn lowers the queue by one, and without a dispatcher n turns drain n jobs; all that left ended succeeded, failed or retry_wait, and dead-lettered failures and new dead letters match one to one by source id |
| `WorkerRuns.AdmissibleQueueDrains` | cloud_dog_jobs/worker/worker.py:90-152 | with a dispatcher, when every waiting job is ready and fits the free slots on its own, n turns drain n jobs and leave the slots as they were |
| `OrderedDraining.HeadIsAdmissible` | cloud_dog_jobs/worker/worker.py:100-106 | when every unfinished dependency waits in the same queue and is dequeued earlier, and each job fits the free slots, the one job a turn looks at can always be selected |
| `OrderedDraining.OrderedQueueDrains` | cloud_dog_jobs/worker/worker.py:90-152 | then n succeeding turns finish all n waiting jobs, change no other job and leave the slots as they were |
| `OrderedDraining.SubmittedQueueIsServed` | cloud_dog_jobs/worker/worker.py:90-152 | from submit to success through the worker: after every history of submits whose requests name only stored jobs of their own queue, no younger and of no lower priority, n succeeding turns finish the n jobs of a queue |
| `SharedRuns.MoveKeepsInv` | cloud_dog_jobs/worker/worker.py:100-148 | every step of any worker or submitter keeps: chosen jobs' dependencies succeeded, executing jobs running, no job executed twice |
| `SharedTheorems.ClaimsAreSafe` | cloud_dog_jobs/scheduler/dispatcher.py:57-59 | in every interleaving each successful claim finds all registered dependencies of its job succeeded |
| `SharedTheorems.JobsKeepTheirTerms` | cloud_dog_jobs/backends/memory_backend.py:60-104 | in every interleaving every stored job keeps its type, queue, priority, stamp, dependencies, resources and source |
| `SharedTheorems.SettledJobsStay` | cloud_dog_jobs/worker/worker.py:130-148 | in every interleaving a job that succeeded, failed or waits for retry keeps its status |
| `SharedTheorems.RunsFollowTheTable` | cloud_dog_jobs/domain/state_machine.py:25-44 | in every interleaving every new status write is an edge of the default table for a stored job, each write starts where the job's last one ended, and the writes take every job to its final status: old jobs from their old status, jobs submitted or dead-lettered on the way from queued |
| `SharedTheorems.RunsFromEmptyFollowTheTable` | cloud_dog_jobs/domain/state_machine.py:25-44 | in every run from an empty backend the whole log obeys the table and spells out, for every stored job, a legal path from queued to its status |
| `SharedTheorems.FailedDependencyBlocksForever` | cloud_dog_jobs/scheduler/dependency.py:122-140 | in every interleaving a queued job with a given-up dependency is never claimed and stays queued |
| `SharedTheorems.ReportedFailureIsFinal` | cloud_dog_jobs/scheduler/dependency.py:122-140 | in every interleaving a queued job for which `has_failed_dependency` lists a dependency stays queued |
| `SharedTheorems.EachJobIsClaimedAtMostOnce` | cloud_dog_jobs/backends/memory_backend.py:60-69 | over every interleaving: while no job has been claimed twice and no queued one at all, that stays so |
| `SharedTheorems.RunsFromEmptyClaimOnce` | cloud_dog_jobs/backends/memory_backend.py:60-69 | in every run from an empty backend no job is claimed twice, and a job still queued has not been claimed |
| `SharedTheorems.TurnIsARun` | cloud_dog_jobs/worker/worker.py:90-152 | a turn of a worker with a tracker, even racing a rival, changes the store exactly as a run of the interleaved steps |
| `RedisBackend.RedisQueueBackend.EnqueueJob` | cloud_dog_jobs/backends/redis_backend.py:216-222 | hash written, indexed under the packed score |
| `RedisBackend.RedisQueueBackend.DequeueIds` | cloud_dog_jobs/backends/redis_backend.py:224-244 | the first matching ids of the reverse-ranked window of three entries per job asked for |
| `RedisBackend.RedisQueueBackend.ClaimJob` | cloud_dog_jobs/backends/redis_backend.py:36-56 | check, status and claimant, unindex, lease, as one step; any other status changes nothing |
| `RedisBackend.RedisQueueBackend.HeartbeatJob` | cloud_dog_jobs/backends/redis_backend.py:59-73 | True exactly for a running job; only a lease that still exists is extended |
| `RedisBackend.RedisQueueBackend.ReleaseJob` | cloud_dog_jobs/backends/redis_backend.py:280-296 | queued, unclaimed, indexed with a new score, lease deleted |
| `RedisBackend.RedisQueueBackend.SetStatus` | cloud_dog_jobs/backends/redis_backend.py:323-344 | status overwritten, unindexed unless queued, lease deleted only for the listed terminal states; the status stored is fixed by `WrittenStatusStays` |
| `RedisBackend.RedisQueueBackend.ReapExpiredLeases` | cloud_dog_jobs/backends/redis_backend.py:421-437 | the scan loop releases and reports in scan order |
| `RedisRuns.ReapIsExact` | cloud_dog_jobs/backends/redis_backend.py:421-437 | in whatever order and with whatever repetitions keys are scanned, exactly the running jobs without a lease are requeued, reindexed as of now and reported once; every other job, index entry, stamp and lease is untouched |
| `RedisRuns.HeldThroughout` | cloud_dog_jobs/backends/redis_backend.py:58-73 | when the steps alone show heartbeats before the lease time runs out and nobody writes the status, through any interleaving with other claims, heartbeats and reaps the job stays running with its claimant |
| `RedisRuns.NeverReapedWhileHeld` | cloud_dog_jobs/backends/redis_backend.py:421-437 | and no reap of such a run reports it |
| `RedisRuns.LeasedIffBeatsInTime` | cloud_dog_jobs/backends/redis_backend.py:58-73 | when nobody writes its status a held job has its lease after every step if and only if each heartbeat comes before the lease time runs out |
| `RedisRuns.ClaimThenBeats` | cloud_dog_jobs/backends/redis_backend.py:36-73 | from a won claim on, such a schedule keeps the job with its claimant and out of every reap |
| `RedisRuns.MissedBeatIsReaped` | cloud_dog_jobs/backends/redis_backend.py:421-437 | once the lease time has passed without a heartbeat, the next reap that scans the job requeues it |
| `RedisRuns.LeaseLostOnlyByTime` | cloud_dog_jobs/backends/redis_backend.py:36-73 | a held lease is lost by a step if and only if the step moves the clock to its expiry |
| `RedisRuns.LeaseLastsItsTime` | cloud_dog_jobs/backends/redis_backend.py:54-71 | a claim or a heartbeat buys exactly the lease time |
| `RedisRuns.LapsedUntilReaped` | cloud_dog_jobs/backends/redis_backend.py:58-73 | a lapsed lease is not revived by heartbeats, claims, time or reaps that do not scan the job, and the first reap that scans it requeues and reports it |
| `RedisRuns.ReapedJobsAreClaimable` | cloud_dog_jobs/backends/redis_backend.py:280-296 | a lapsed job is, after the next reap, indexed, unclaimed, without a lease and claimable |
| `RedisRuns.LeaseOwnerIsClaimant` | cloud_dog_jobs/backends/redis_backend.py:46-54 | in every run with fresh ids a lease carries the owner recorded in its job, and a job in a terminal state has none |
| `RedisRuns.IndexStaysExact` | cloud_dog_jobs/backends/redis_backend.py:216-344 | in every run where enqueued jobs are queued and no status update moves a job to queued, the sorted set holds exactly the queued jobs under their scores |
| `RedisRuns.UpdateKeepsIndexIff` | cloud_dog_jobs/backends/redis_backend.py:339-341 | a status update keeps the index exact if and only if it does not move a non-queued job to queued |
| `RedisRuns.TakenBackIsNotIndexed` | cloud_dog_jobs/backends/redis_backend.py:339-341 | a concrete run: a claimed job moved back by `update_status` is queued, not indexed, and no dequeue returns it |
| `RedisRuns.EnqueueKeepsIndexIff` | cloud_dog_jobs/backends/redis_backend.py:216-222 | an enqueue keeps it exact if and only if the job comes in queued |
| `RedisRuns.ClaimsUseUpQueuings` | cloud_dog_jobs/backends/redis_backend.py:41-55 | in every run the successful claims of a job never exceed the times it entered queued |
| `RedisRuns.TwoClaimsNeedARequeue` | cloud_dog_jobs/backends/redis_backend.py:41-55 | between two successful claims of a job it was queued again |
| `RedisJobs.EachJobRunsAlone` | cloud_dog_jobs/backends/redis_backend.py:36-73 | jobs do not interfere: in every run of all steps each job's hash, lease and index scores go exactly as a machine of its own, written in those fields alone |
| `RedisJobs.WrittenStatusStays` | cloud_dog_jobs/backends/redis_backend.py:323-344 | after an update, through any run that neither writes, claims nor reaps the job, it has the status written, and type, queue, priority and claimant as before |
| `RedisJobs.SettledStatusStays` | cloud_dog_jobs/backends/redis_backend.py:36-73 | a written status other than queued and running, succeeded in particular, survives every claim, heartbeat and reap until somebody writes the job |
| `RedisJobs.UpdateTouchesOnlyItsJob` | cloud_dog_jobs/backends/redis_backend.py:323-344 | the lease goes exactly for succeeded, failed, cancelled, ttl_expired and dead_lettered; all other jobs, leases and entries stay |
| `RedisJobs.ReleaseTakesBack` | cloud_dog_jobs/backends/redis_backend.py:280-296 | even under a live lease: queued, unclaimed, lease gone, indexed as of now, claimable by anybody, all other jobs untouched |
| `RedisJobs.TermsStay` | cloud_dog_jobs/backends/redis_backend.py:36-56 | in every run a job not enqueued anew keeps type, queue and priority |
| `RedisJobs.DequeueWrittenOut` | cloud_dog_jobs/backends/redis_backend.py:224-244 | the first matching entries, as many as asked for, among the first three per job asked for and at least one |
| `RedisJobs.StrLeqIsLexicographic` | cloud_dog_jobs/backends/redis_backend.py:231 | entries of equal score rank by their ids' lexicographic order |
| `RedisRefinement.DequeueRefinesScan` | cloud_dog_jobs/backends/redis_backend.py:224-244 | while each higher priority was queued less than the priority gap times 10,000,000,000 ms after each lower one, and no two jobs of a priority at the same moment, the unfiltered dequeue equals the memory backend's filter, sort and truncate |
| `RedisRefinement.DequeueRefinesScanIff` | cloud_dog_jobs/backends/redis_backend.py:216-244 | with an exact index and no shared stamps inside a priority, every unfiltered dequeue equals the scan if and only if the priority gaps cover the waiting times in that way |
| `RedisRefinement.RunsRefineTheScanIff` | cloud_dog_jobs/backends/redis_backend.py:216-344 | the same at the end of every run from an empty server that keeps the index exact, against the memory store built from its queued jobs |
| `RedisRefinement.RunsWithinOneUnitRefineTheScan` | cloud_dog_jobs/backends/redis_backend.py:216-344 | at the end of every such run, when no queued job waits 10,000,000,000 ms longer than another, every unfiltered dequeue equals the scan |
| `RedisRefinement.OldJobOvertakesPriority` | cloud_dog_jobs/backends/redis_backend.py:216-244 | a run: a job of priority 1 enqueued 10,000,000,001 ms after one of priority 0, and the dequeue returns the older, lower one first |
| `RedisRefinement.FilteredDequeueIff` | cloud_dog_jobs/backends/redis_backend.py:231-244 | a filtered dequeue returns the best matching jobs if and only if the window holds enough of them or nothing beyond it matches |
| `RedisRefinement.MatchBeyondTheWindow` | cloud_dog_jobs/backends/redis_backend.py:231-244 | a concrete run: three jobs of other types ahead of the only match, and a filtered dequeue with limit 1 returns nothing |
| `FairShare.TenantQuota.CanSubmit` | cloud_dog_jobs/broker/fairshare.py:28-36 | True if and only if fewer jobs are active than allowed and the current minute, or a new one after 60 seconds, has room; the window is refreshed only below the concurrency limit |
| `FairShare.TenantQuota.RecordSubmit` | cloud_dog_jobs/broker/fairshare.py:38-40 | both counters go up by one |
| `FairShare.TenantQuota.RecordComplete` | cloud_dog_jobs/broker/fairshare.py:42-43 | the active count goes down, never below zero |
| `FairShare.FairShareScheduler.NextEligibleTenant` | cloud_dog_jobs/broker/fairshare.py:87-105 | the loop returns the first unregistered candidate or the running best, and refreshes exactly the windows it looked at |
| `FairShare.FairShareScheduler.RecordSubmit` | cloud_dog_jobs/broker/fairshare.py:79-81 | charges the tenant and nobody else; an unknown one is created with the default limits and weight 1 |
| `FairShare.BestIsLeast` | cloud_dog_jobs/broker/fairshare.py:93-105 | the pick is an eligible candidate of least active-to-weight ratio, the first of those, and None only when nobody is eligible |
| `FairShare.PickWrittenOut` | cloud_dog_jobs/broker/fairshare.py:93-105 | among registered candidates the pick b has active_b * max(weight_c, 0.01) <= active_c * max(weight_b, 0.01) for every c that may submit, strictly for earlier ones, and is None if and only if none may |
| `FairShare.NewcomerIsPicked` | cloud_dog_jobs/broker/fairshare.py:97-98 | the first unregistered candidate is picked whatever the others' load |
| `FairShare.HeavierStaysPicked` | cloud_dog_jobs/broker/fairshare.py:101 | a larger weight never costs a tenant the pick |
| `FairShare.RunsKeepTerms` | cloud_dog_jobs/broker/fairshare.py:38-43 | no run changes a weight or limit or forgets a tenant |
| `FairShare.RunsAreFair` | cloud_dog_jobs/broker/fairshare.py:87-105 | with w = max(weight, 0.01): through every run of recorded picks and other tenants' completions, (active_i - 1)/w_i <= active_j/w_j for every i and every j always offered and not refused |
| `FairShare.RunsAreFairUpToOwnCompletions` | cloud_dog_jobs/broker/fairshare.py:38-105 | with w = max(weight, 0.01): through every run of recorded picks and anybody's completions, (active_i - 1)/w_i <= (active_j + own completions)/w_j for every i and every j always offered and not refused |
| `FairShare.RunsFromIdleAreFair` | cloud_dog_jobs/broker/fairshare.py:38-105 | the same from tenants that are all idle |
| `FairShare.OwnCompletionsKeepFairIff` | cloud_dog_jobs/broker/fairshare.py:42-43 | k completions of its own leave a tenant fairly treated if and only if beforehand every other active tenant had (active_i - 1)/w_i <= max(0, active_j - k)/w_j |
| `FairShare.RunsStayFairIff` | cloud_dog_jobs/broker/fairshare.py:38-105 | over every run with j always offered and not refused the bound holds after every step if and only if each completion of j comes when j can spare that job |
| `FairShare.OwnCompletionsOpenAGap` | cloud_dog_jobs/broker/fairshare.py:42-43 | a concrete run from idle tenants: three picks and one completion, and the other tenant is two weighted jobs ahead |
| `RateLimit.RateBound` | cloud_dog_jobs/broker/fairshare.py:28-43 | over every history on a non-decreasing clock any half-open 60-second interval holds at most twice max_per_minute submissions, and active never exceeds max_concurrent |
| `RateLimit.TwoBurstsInOneMinute` | cloud_dog_jobs/broker/fairshare.py:33-36 | every quota that admits anything has a history, one job at a time, that puts exactly twice max_per_minute into one minute |
| `RateLimit.RateHoldsIff` | cloud_dog_jobs/broker/fairshare.py:28-43 | over all histories of a new quota every half-open minute holds at most max_per_minute submissions if and only if max_per_minute or max_concurrent is zero |
| `RateLimit.ActiveIsOutstanding` | cloud_dog_jobs/broker/fairshare.py:38-43 | the active count is exactly the submissions not yet finished |
| `RateLimit.AttemptGoesThroughIff` | cloud_dog_jobs/broker/fairshare.py:28-36 | after every history an attempt is a submission if and only if fewer jobs are outstanding than max_concurrent and the current window, or a new one after a minute, has room |
| `PriorityQueues.PriorityQueue.Put` | cloud_dog_jobs/broker/priority.py:49-59 | the item joins at the end of the arrival order |
| `PriorityQueues.PriorityQueue.Take` | cloud_dog_jobs/broker/priority.py:61-66 | `get` removes the earliest-put item of the best level waiting, critical before high before normal before bulk, and leaves the rest in order |
| `PriorityQueues.PriorityQueue.Peek` | cloud_dog_jobs/broker/priority.py:68-74 | shows that same item and its priority |
| `PriorityQueues.PriorityQueue.AdjustPriority` | cloud_dog_jobs/broker/priority.py:76-97 | matching items get the new priority, all items keep stamps and places, the heap is restored and the number of matches returned |
| `PriorityQueues.PriorityQueue.CountByPriority` | cloud_dog_jobs/broker/priority.py:103-109 | the items waiting at each level, adding up to the length |
| `PriorityQueues.DrainIsStableSort` | cloud_dog_jobs/broker/priority.py:61-66 | emptying the queue returns the items stably sorted by current priority |
| `PriorityQueues.DrainsLevelByLevel` | cloud_dog_jobs/broker/priority.py:20-23 | emptying the queue returns all critical items, then all high, normal and bulk ones, each level in arrival order |
| `PriorityQueues.CountIsLevelSize` | cloud_dog_jobs/broker/priority.py:103-109 | each count is the number of waiting items of that level |
| `BinaryHeaps.Heapify` | cloud_dog_jobs/broker/priority.py:95 | an arbitrary list becomes a heap of the same items |

## Left out

- Thread locks, thread pools, sleeping and the async variants: every locked method is one step. Within one selection pass the statuses are read once, not job by job.
- Redis commands inside `release`, `enqueue`, `update_status` and the reap pass: each method is one atomic step, although the source sends several commands, so command-level interleavings are not covered.
- Redis stores scores as doubles; the model keeps exact integers, which agree below 2^53. A key whose remaining time is exactly zero counts as expired.
- A lease time of zero or less, which Redis refuses as an expiry after the claim script has already written.
- `updated_at`, `started_at`, `finished_at`, heartbeat stamps, attempts, progress, results and the payload beyond the dead letter's source id: written, never read by the modelled code. The memory backend's heartbeat only writes such a stamp, so it is not modelled.
- SQL and hybrid backends, the repository, admin service, bulk operations and maintenance reaper: they write statuses without the transition table and take no part in the runs.
- DequeueRefinesScanIff: two jobs of one priority queued in the same millisecond are not compared; Redis orders them by id, the memory backend by insertion.
- State extensions per job type: only the default table is modelled.
- Several workers sharing one `ResourcePool`: exact restoration is proved for one worker; shared pools are exposed to the overwriting acquire above.
- Handlers that take part in the queue themselves: a handler's outcome is completion, exception or timeout.
- The notifier call, metrics, audit, logging, secret and payload checks: only a failing notifier matters here.
- `blocked_jobs_with_reasons`, `utilisation`, `stats`, `held_by`, `peek`-like getters: they only read what the methods above state.
- `CapacityEnforcer`, fan-out, backoff, TTL predicates, registries: easy members.
- The standard library's heap functions walk the list differently from the ones here, so the arrangement inside the heap may differ; what they return does not.
- Negative slot requests, pool limits and tenant quotas: they are natural numbers here (concurrency limits are integers).
