# Systems laboratory, modelled

The repository is a laboratory of small programs, each built around one concurrent protocol or one exact algorithm.
This project models those protocols in Dafny and proves what they are for, over all inputs and all interleavings.

| module | program | main result |
|---|---|---|
| `DeadlockOrdering` | transfers under row locks | ordered locking never deadlocks and every transfer succeeds at once; argument order can; money is conserved through aborts |
| `WriteSkew` | doctors going off call | a variant keeps every shift covered if and only if it is FOR UPDATE or serializable retried as a whole |
| `LostUpdate` | withdrawals, five variants | four variants lose nothing; the fifth is an unlocked increment, and what it can lose is exact for each number of workers and requests |
| `SkipLockedQueue` | queue workers | nothing is done twice; an empty claim by everybody means an empty queue, exactly for batches of at least one |
| `Race` | unlocked counter and cache | the exact set of results for every number of threads, with and without the lock |
| `Locality` | shuffled successor array | one cycle for every shuffle, fair shuffle, exact total in machine integers |
| `HandRolledPool` | condition-variable pool | no lost wakeup, when exactly it can hang, where every run ends, which connection is handed out, accounting under four policies |
| `LittlesLaw` | its makespan | the floor for every schedule, and equality without idle waiting |
| `TimedPool` | the pool against a clock | its runs are such schedules; exactly which time limits can fire |
| `TokenBucket` | three retry budgets | the level is the tightest window; grants in any window |
| `RetryStorm` | the clients around them | amplification bounds over every run |
| `Upstream` | the dependency behind them | permits survive clients that leave; when its breaker refuses, over every history |
| `OrderHandler` | the `/order` endpoint | deadline, reserve and call bounds for every upstream timing; what it takes from budget and breaker; when its breaker refuses, over every history |
| `ClientHello` | TLS ClientHello walk | round trip, what exactly becomes of every truncated record and of every list in any bytes |
| `Framing` | request framing | independence of read sizes; which paths survive |
| `SocketReuse` | a socket reused after a timeout | when exactly a wait reads its own answer, and by how much it is off |
| `PoolOutlivesDns` | TTL cache under a pool | what the cache answers and asks; outage and handshake bounds with a maximum lifetime; pinned for ever without, exactly |
| `Dataloader` | batching on ticks | one query per tick with a load; loads settle once and right; equal lists at N + 1, 2 and N + 1 queries |
| `LsnRouting` | read your own writes | exactly which routing rules never give a stale read |
| `Common` | | sums, distinctness, pigeonhole |

Concurrent programs are step systems: a state, events with an enabling condition, and `Run` over any list of enabled
events, so a lemma about `Run` or `Reachable` speaks of every schedule of every number of participants. The program's
own loops, classes and in-place updates are methods and classes with the same steps; `Execute` methods show
that the in-place form and the step system agree. Histories that only a specification reads (of a breaker, a budget, a
log of commits) are sequences with the newest entry first.

## Environment

What the programs cannot decide is an arbitrary parameter: schedules, draws, jitter, answers, latencies, arrival
of bytes, failures. What they rely on is stated as rules:

- PostgreSQL: FOR UPDATE and UPDATE wait for the holder of a row lock, and locks last to commit or rollback (section
  13.3.2 of its manual); at read committed a statement sees the latest commit and re-checks its WHERE clause after a
  wait (13.2.1); at repeatable read an UPDATE of a row changed since the snapshot fails with 40001 (13.2.2); at
  serializable, as at repeatable read, and a commit that would complete two consecutive rw conflicts whose last
  transaction committed first fails (13.2.3); a deadlock victim lies on a waits-for cycle (13.3.4).
- `ORDER BY id FOR UPDATE` locks the rows one at a time in id order.
- A condition variable may wake spuriously; the system picks which waiter a notification wakes; newcomers may barge in.
- A call with timeout t ends within t, and at once when t is not positive.
- A random draw between 0 and a limit is any number from 0 to the limit.
- A read of a socket takes all the bytes that have arrived, up to the size it asks for.
- In `TimedPool` a sleep takes exactly its time and everything but sleeping and waiting takes none.
- Node runs the callbacks of `process.nextTick` when the code that scheduled them has ended, and the promise
  continuations due after it: that is the end of a tick.
- Time does not go back. Clock readings within one request come in order.
- Times, token counts and ratios are real numbers, so the floating-point constants 0.1 and 0.05 are exact.
- Python threads interleave at loads and stores, in sequentially consistent order.

## Where the code and its comments differ

- "half-open: let one through" (02-network/lab/api/app.py:141): the code lets every caller through until a verdict is
  recorded. `OrderHandler.HalfOpenAdmitsEveryone`. So does the breaker of the retry storm
  (02-network/03-timeouts-as-a-first-principle/python/retry_storm_and_budget.py:146), whose cool-down also begins again
  with late failures: `Upstream.RefusesExactly`, `Upstream.LateFailureReopens`.
- A retry under `full` is decided with more than the reserve left but starts after a sleep, and may be given a slice
  that is zero or negative (02-network/lab/api/app.py:404-413). `OrderHandler.RetryMayStartTooLate` says when.
- "deadlock: possible in B" (03-data/05-locking-and-deadlocks/python/skip_locked_queue.py:101): the claims themselves
  scan and lock in id order and cannot deadlock with each other. `SkipLockedQueue.ClaimsNeverDeadlock`.
- "From here every response on this connection is off by one, forever"
  (02-network/03-timeouts-as-a-first-principle/cpp/poll_deadline.cpp:258-264): so it is while
  each read finds one response. A read that finds two takes both, and the next is in step again; and a response that
  arrives in parts puts even a client that closes its socket on timeouts out of step.
  `SocketReuse.BehindByAbandoned`, `SocketReuse.OneReadTakesBoth`, `SocketReuse.InStepAfter`.
- `call_count[0] += 1` (01-machine/04-races-and-atomicity/python/race.py:68) is itself an unlocked load and store: the
  count printed for the unlocked cache may be below the runs of `compute`. `Race.UnlockedStampedeRange`.
- A ClientHello cut inside its last extension may parse without an error, and with a list of groups missing.
  `ClientHello.CutRecord`, `ClientHello.UnnoticedCut`.

## Model

| member | source | states |
|---|---|---|
| `DeadlockOrdering.WorkerBody` | 03-data/05-locking-and-deadlocks/python/deadlock_ordering.py:85-117 | the nested loops, for every outcome of every attempt: `done` is the number of commits met, `deadlocks` the number of deadlock victims met, request by request until one commits or five attempts have failed, `gave_up` the number of requests of which no attempt commits; one to five attempts each; and the step system's worker goes through the same states |
| `DeadlockOrdering.CountersCount` | 03-data/05-locking-and-deadlocks/python/deadlock_ordering.py:85-117 | over every run, locks ordered or not: the workers' `done` sum to the commit events and their `deadlocks` to the aborts of deadlock victims, serialization failures not among them |
| `DeadlockOrdering.MoneyConserved` | 03-data/05-locking-and-deadlocks/python/deadlock_ordering.py:79-82 | in every reachable state, locks ordered or not, aborts included: the rows of committed transfers sum to the start; with no transaction open the real rows are exactly start plus credits minus debits of committed transfers; committed transfers are the `done` counts |
| `DeadlockOrdering.CommittedTotal` | 03-data/05-locking-and-deadlocks/python/deadlock_ordering.py:137-150 | the `conserved` check: any list of transfers among existing accounts leaves the total unchanged |
| `DeadlockOrdering.RunsTerminate` | 03-data/05-locking-and-deadlocks/python/deadlock_ordering.py:92-114 | every run, whatever the schedule and the aborts, has at most 30 steps per request |
| `DeadlockOrdering.OrderedHasNoCycle` | 03-data/05-locking-and-deadlocks/python/deadlock_ordering.py:67-74 | with ordered locking no reachable state of any number of workers over any accounts has a waits-for cycle |
| `DeadlockOrdering.OrderedNeverAborts` | 03-data/05-locking-and-deadlocks/python/deadlock_ordering.py:67-74 | with ordered locking at read committed no abort is ever possible, and while a transfer is unfinished some transaction can take a step that is not an abort |
| `DeadlockOrdering.OrderedRunsSucceed` | 03-data/05-locking-and-deadlocks/python/deadlock_ordering.py:67-96 | a maximal ordered run ends with every request done at its first attempt, no deadlock and none given up, and the money conserved |
| `DeadlockOrdering.OrderedRunHasNoFailures` | 03-data/05-locking-and-deadlocks/python/deadlock_ordering.py:85-117 | no reachable state of an ordered run at read committed has counted a deadlock, a retry or a surrender |
| `DeadlockOrdering.StuckMeansCycle` | 03-data/05-locking-and-deadlocks/python/deadlock_ordering.py:76-78 | a state where every unfinished transfer waits contains a waits-for cycle |
| `DeadlockOrdering.AlwaysProgress` | 03-data/05-locking-and-deadlocks/python/deadlock_ordering.py:85-117 | with the server's deadlock detection no unfinished state is without an enabled step |
| `DeadlockOrdering.AbortReleasesWaiter` | 03-data/05-locking-and-deadlocks/python/deadlock_ordering.py:97-108 | aborting a deadlock victim enables the lock step of a transaction that was waiting for it |
| `DeadlockOrdering.ArgumentOrderDeadlocks` | 03-data/05-locking-and-deadlocks/python/deadlock_ordering.py:76-78 | for any two distinct accounts, two opposite transfers in argument order reach a state where both wait for ever |
| `DeadlockOrdering.Bank.RestoreRows` | 03-data/05-locking-and-deadlocks/python/deadlock_ordering.py:66 | rollback in place, newest image first, gives the rows of the undo specification |
| `Common.ReleaseInPlace` | 03-data/05-locking-and-deadlocks/python/deadlock_ordering.py:66 | commit and rollback release exactly the transaction's own row locks |
| `DeadlockOrdering.Bank.AddTo` | 03-data/05-locking-and-deadlocks/python/deadlock_ordering.py:79-82 | the UPDATE of one balance in place, keeping the image for a rollback |
| `DeadlockOrdering.Bank.Execute` | 03-data/05-locking-and-deadlocks/python/deadlock_ordering.py:66-82 | any schedule executed on the rows in place ends in the state the step system reaches, so all of the above holds of the rows |
| `WriteSkew.GoOffCall` | 03-data/01-isolation-levels/python/write_skew.py:59-108 | one request through the whole-transaction retry: exactly one of wrote, declined, gave_up; aborts = retries + gave_up; it gives up exactly when all six attempts fail; the counters of a rolled-back attempt are taken back |
| `WriteSkew.ForUpdateKeepsCover` | 03-data/01-isolation-levels/python/write_skew.py:72-80 | for any doctors, shifts, requests and interleaving with retries, no shift that had a doctor on call loses its last one under FOR UPDATE at read committed, even if only the UPDATE is retried |
| `WriteSkew.SerializableKeepsCover` | 03-data/01-isolation-levels/python/write_skew.py:54 | the same under serializable with whole-transaction retry |
| `WriteSkew.CommitSawAll` | 03-data/01-isolation-levels/python/write_skew.py:81-97 | with whole-transaction retry a transaction that may commit at serializable saw every write to its shift that committed before it |
| `WriteSkew.WritesExactlyWhenTwo` | 03-data/01-isolation-levels/python/write_skew.py:72-95 | in every run of every variant with whole-transaction retry, a committed request has taken its doctor off if and only if it had counted more than one doctor of the shift on call, in its snapshot or over the rows it locked |
| `WriteSkew.WeakIsolationBreaks` | 03-data/01-isolation-levels/python/lockstep_psql.py:79-89 | at read committed and at repeatable read two doctors of one shift reach a committed state with nobody on call |
| `WriteSkew.SecondCommitRefused` | 03-data/01-isolation-levels/python/lockstep_psql.py:89-111 | the same schedule at serializable reaches a state after the first commit where the second transaction can only fail: its commit is refused |
| `WriteSkew.RetryingTheUpdateBreaks` | 03-data/01-isolation-levels/python/write_skew.py:62-65 | from there, retrying only the UPDATE at serializable reaches a broken shift |
| `WriteSkew.SafeExactly` | 03-data/01-isolation-levels/python/write_skew.py:48-56 | over all tables, requests and interleavings, a variant never leaves a covered shift uncovered if and only if it locks the rows it reads or is serializable with whole-transaction retry |
| `WriteSkew.EveryRequestAccounted` | 03-data/01-isolation-levels/python/write_skew.py:98-106 | at every moment of every run wrote, declined, gave_up and the requests still to do account for each worker's requests, and aborts = retries + gave_up |
| `WriteSkew.TalliesMatchCommits` | 03-data/01-isolation-levels/python/write_skew.py:89-108 | in every run `wrote` sums to the commits that wrote and `declined` to those that did not |
| `WriteSkew.Roster.CountRows` | 03-data/01-isolation-levels/python/write_skew.py:76-85 | counting the rows whose flag is set gives the doctors on call after all commits |
| `WriteSkew.Roster.CommitOne` | 03-data/01-isolation-levels/python/write_skew.py:90-93 | the committed UPDATE overwrites exactly its own row, and the table stays that of the commits |
| `WriteSkew.Roster.Execute` | 03-data/01-isolation-levels/python/write_skew.py:69-108 | any schedule executed on the rows in place ends in the state the step system reaches |
| `LostUpdate.WorkerBody` | 03-data/01-isolation-levels/python/lost_update.py:79-100 | the nested loops, for every outcome of every attempt: each request ends at its first attempt that does not fail, as ok or declined, or is given up after nine; the counters are those of the outcomes met, and the step system's worker goes through the same states |
| `LostUpdate.NothingLost` | 03-data/01-isolation-levels/python/lost_update.py:66-72 | in every reachable state of the other four variants the balance is start - ok * AMOUNT, and a non-negative start never goes negative |
| `LostUpdate.DeclinesOnlyWhenShort` | 03-data/01-isolation-levels/python/lost_update.py:39-66 | in those variants a request is declined only while the account holds less than the amount |
| `LostUpdate.PlainBound` | 03-data/01-isolation-levels/python/lost_update.py:106-115 | plain read-modify-write at read committed: 0 <= lost <= ok - 1 (0 when ok = 0) in every reachable state |
| `LostUpdate.PlainLosses` | 03-data/01-isolation-levels/python/lost_update.py:39-52 | for every number of workers and of requests per worker and a balance that covers them, the losses a finished run can have are exactly 0..W*k - 2 for two or more of each (0..W - 1 for one request each, 0 for one worker), so 0..498 for 20 workers of 25 |
| `LostUpdate.PlainEnd` | 03-data/01-isolation-levels/python/lost_update.py:86-115 | every finished run of the plain variant confirms every request and is, step for step, a run of unlocked increments: what it loses is what their counter misses |
| `LostUpdate.LoseSome` | 03-data/01-isolation-levels/python/lost_update.py:39-52 | and every run of the increments is a run of the withdrawals: a schedule that loses any number they can |
| `LostUpdate.LossesOverAllShapes` | 03-data/01-isolation-levels/python/lost_update.py:106-115 | over all numbers of workers and requests with ok confirmed withdrawals: exactly 0..ok - 1 |
| `LostUpdate.EveryRequestAccounted` | 03-data/01-isolation-levels/python/lost_update.py:90-97 | at every moment aborts = retries + gave_up and the counters account for the worker's requests; read committed never aborts |
| `LostUpdate.CountersCount` | 03-data/01-isolation-levels/python/lost_update.py:86-97 | over every run of every variant `ok` sums to the commits, `declined` to the requests declined and `aborts` to the failures |
| `LostUpdate.Account.Execute` | 03-data/01-isolation-levels/python/lost_update.py:86-97 | any schedule executed on the row in place ends in the state the step system reaches |
| `SkipLockedQueue.WorkerBody` | 03-data/05-locking-and-deadlocks/python/skip_locked_queue.py:91-112 | the loop: it leaves at the first empty claim or at the deadline, a deadlock error only costs a turn, what it reports is the concatenation of its claims, and `batches` counts the claims that returned, the empty one included |
| `SkipLockedQueue.NoDuplicates` | 03-data/05-locking-and-deadlocks/python/skip_locked_queue.py:116-129 | over all runs with commits and rollbacks, with and without SKIP LOCKED, no id is reported twice and the reported ids are exactly the jobs done |
| `SkipLockedQueue.HeldByOne` | 03-data/05-locking-and-deadlocks/python/skip_locked_queue.py:66-75 | a held job is held by one worker and is not done: ready, held and done are disjoint |
| `SkipLockedQueue.ClaimWithinBatch` | 03-data/05-locking-and-deadlocks/python/skip_locked_queue.py:66-75 | in every run no worker holds more than a batch |
| `SkipLockedQueue.LoneClaimTakesFirst` | 03-data/05-locking-and-deadlocks/python/skip_locked_queue.py:66-75 | a worker alone with the table claims exactly the first ready ids in id order, as many as the batch allows and there are |
| `SkipLockedQueue.DrainedMeansEmpty` | 03-data/05-locking-and-deadlocks/python/skip_locked_queue.py:106-108 | once all workers have left by an empty claim no job is left, although each may have left while others still held rows |
| `SkipLockedQueue.EmptyBatchLeavesJobs` | 03-data/05-locking-and-deadlocks/python/skip_locked_queue.py:56 | with a batch of 0 that is false: any number of workers can all leave with every job still ready |
| `SkipLockedQueue.DrainsExactly` | 03-data/05-locking-and-deadlocks/python/skip_locked_queue.py:56-108 | workers that have all left on empty claims have emptied the queue, in every run, if and only if the batch is not 0 |
| `SkipLockedQueue.ClaimsNeverDeadlock` | 03-data/05-locking-and-deadlocks/python/skip_locked_queue.py:100-102 | with or without SKIP LOCKED some unfinished worker can always step: the claims take rows in id order and cannot deadlock among themselves |
| `SkipLockedQueue.Jobs.MarkRows` | 03-data/05-locking-and-deadlocks/python/skip_locked_queue.py:67 | the UPDATE marks exactly the claimed rows done, in place |
| `SkipLockedQueue.Jobs.Execute` | 03-data/05-locking-and-deadlocks/python/skip_locked_queue.py:91-112 | any schedule executed on the rows in place ends in the state the step system reaches |
| `Race.UnlockedRange` | 01-machine/04-races-and-atomicity/python/race.py:42-45 | for every n >= 1 threads and k >= 1 unlocked increments the values the joined counter can have are exactly 2..n*k for n and k of at least 2, 1..n for one increment each, and k for one thread |
| `Race.LockedIsExact` | 01-machine/04-races-and-atomicity/python/race.py:47-50 | with the lock a run can end, and the values it can end at are exactly n*k |
| `Race.LockedProgress` | 01-machine/04-races-and-atomicity/python/race.py:47-50 | and a locked run never gets stuck before that |
| `Race.UnlockedStampedeRange` | 01-machine/04-races-and-atomicity/python/race.py:66-75 | n threads filling a cold cache unlocked can run `compute` m times and return the count c, itself kept by an unlocked load and store, exactly for 1 <= c <= m <= n |
| `Race.LockedStampedeOnce` | 01-machine/04-races-and-atomicity/python/race.py:77-81 | locked, once, and every thread returns the answer |
| `Race.LockedStampedeExactly` | 01-machine/04-races-and-atomicity/python/race.py:77-89 | a locked run can end, and does so with exactly one run of `compute` and a count of one |
| `Race.Counter.Execute` | 01-machine/04-races-and-atomicity/python/race.py:38-59 | any schedule of loads and stores executed on the shared counter ends in the state the step system reaches |
| `Race.Cache.Execute` | 01-machine/04-races-and-atomicity/python/race.py:62-89 | any schedule of looks, computations and fills executed on the shared cache ends in the state the step system reaches |
| `Locality.Shuffle` | 01-machine/01-memory-locality/cpp/locality.cpp:30-34 | the in-place loop computes the Fisher-Yates permutation of its draws |
| `Locality.ShufflePermutes` | 01-machine/01-memory-locality/cpp/locality.cpp:30-34 | for every sequence of draws the result is a permutation with the same sum |
| `Locality.ShuffleIsFair` | 01-machine/01-memory-locality/cpp/locality.cpp:30-34 | every permutation arises from exactly one sequence of draws |
| `Locality.Build` | 01-machine/01-memory-locality/cpp/locality.cpp:18-38 | both layouts: values are 0..n-1 and the successor array links the order in a single n-cycle, within the machine integers |
| `Locality.RingIsSingleCycle` | 01-machine/01-memory-locality/cpp/locality.cpp:35-37 | an array that links a permutation to its rotation is a single cycle from every starting point |
| `Locality.LapsVisitEvenly` | 01-machine/01-memory-locality/cpp/locality.cpp:40-49 | following a single cycle for n * laps steps meets every node exactly `laps` times, sums to laps * n(n-1)/2 and returns to its start |
| `Locality.Traverse` | 01-machine/01-memory-locality/cpp/locality.cpp:40-49 | the loop returns the sum of the visited values in 64 bits |
| `Locality.Bench` | 01-machine/01-memory-locality/cpp/locality.cpp:51-60 | build and traverse together: the total is laps * n(n-1)/2 for either layout and every shuffle |
| `Locality.FileConstantsFit` | 01-machine/01-memory-locality/cpp/locality.cpp:15-16 | with the file's constants nothing overflows 32 or 64 bits |
| `HandRolledPool.PoolIsSound` | 02-network/02-connection-pooling-and-pool-exhaustion/cpp/hand_rolled_pool.cpp:85-144 | in every reachable state of every policy, idle and held connections are disjoint, duplicate-free and together exactly ids 1..created; created = size except when unbounded; if a waiter is parked, idle connections never outnumber woken waiters plus pending notifications; refusals and timeouts occur only under their policy |
| `HandRolledPool.NeverHangs` | 02-network/02-connection-pooling-and-pool-exhaustion/cpp/hand_rolled_pool.cpp:111-113 | with size >= 1, or under a policy that makes nobody wait, while any thread is unfinished some step other than a timeout or a spurious wakeup is enabled, although the notification is sent outside the lock and newcomers can barge in |
| `HandRolledPool.RunsTerminate` | 02-network/02-connection-pooling-and-pool-exhaustion/cpp/hand_rolled_pool.cpp:177-194 | a run has at most six steps per client plus two per spurious wakeup |
| `HandRolledPool.EveryClientAnswered` | 02-network/02-connection-pooling-and-pool-exhaustion/cpp/hand_rolled_pool.cpp:85-144 | where a run can go no further every client is dealt with: served == clients when unbounded or blocking (on at least one connection), served + timedOut == clients under a time limit, served + refused == clients when shedding |
| `HandRolledPool.BlockForeverServesAll` | 02-network/02-connection-pooling-and-pool-exhaustion/cpp/hand_rolled_pool.cpp:111-113 | a block-forever run that can go no further has served every client, each of which is over, with no connection beyond the pool |
| `HandRolledPool.EmptyPoolHangs` | 02-network/02-connection-pooling-and-pool-exhaustion/cpp/hand_rolled_pool.cpp:75-81 | with size 0 that is false: any number of clients all park, and only time limits and spurious wakeups are left |
| `HandRolledPool.HangsExactly` | 02-network/02-connection-pooling-and-pool-exhaustion/cpp/hand_rolled_pool.cpp:95-123 | a pool with clients can reach such a state exactly when its size is 0 and its policy is to wait |
| `HandRolledPool.NobodyWaits` | 02-network/02-connection-pooling-and-pool-exhaustion/cpp/hand_rolled_pool.cpp:95-109 | no thread ever waits when unbounded or shedding |
| `HandRolledPool.HandsOutMostRecent` | 02-network/02-connection-pooling-and-pool-exhaustion/cpp/hand_rolled_pool.cpp:125-141 | in every run of every policy, whoever takes from a pool that is not empty (a newcomer, a woken waiter, one at its time limit) gets, of the idle connections, the one whose last release is the latest event; those never released come before all others, in id order |
| `HandRolledPool.ReturnedIsNext` | 02-network/02-connection-pooling-and-pool-exhaustion/cpp/hand_rolled_pool.cpp:125-142 | a connection that comes back is the next one handed out, if nobody returns another or takes one in between |
| `HandRolledPool.Pool.constructor` | 02-network/02-connection-pooling-and-pool-exhaustion/cpp/hand_rolled_pool.cpp:75-81 | ids 1..size idle in order, created = size |
| `HandRolledPool.Pool.HandOut` | 02-network/02-connection-pooling-and-pool-exhaustion/cpp/hand_rolled_pool.cpp:125-132 | hands out, of the idle connections, the one put back last, by the order of the object's whole history; the constructor's count as put in before all others, in id order |
| `HandRolledPool.Pool.EnterAcquire` | 02-network/02-connection-pooling-and-pool-exhaustion/cpp/hand_rolled_pool.cpp:85-136 | the four policies of `acquire` when nothing is idle, and the handout when something is |
| `HandRolledPool.Pool.Recheck` | 02-network/02-connection-pooling-and-pool-exhaustion/cpp/hand_rolled_pool.cpp:111-113 | a woken waiter takes a connection or waits again |
| `HandRolledPool.Pool.GiveUpWaiting` | 02-network/02-connection-pooling-and-pool-exhaustion/cpp/hand_rolled_pool.cpp:115-120 | the time limit looks once more before giving up |
| `HandRolledPool.Pool.PutBack` | 02-network/02-connection-pooling-and-pool-exhaustion/cpp/hand_rolled_pool.cpp:138-142 | the connection is back, as the newest of the history, before the notification is sent |
| `HandRolledPool.Pool.NotifyOne` | 02-network/02-connection-pooling-and-pool-exhaustion/cpp/hand_rolled_pool.cpp:143 | one parked waiter is woken, any one of them |
| `HandRolledPool.Pool.Execute` | 02-network/02-connection-pooling-and-pool-exhaustion/cpp/hand_rolled_pool.cpp:85-144 | any schedule executed on the object ends in the state the step system reaches |
| `LittlesLaw.MakespanFloor` | 02-network/02-connection-pooling-and-pool-exhaustion/cpp/hand_rolled_pool.cpp:19-24 | no schedule of n holds of H ticks on `size` connections ends before n*H/size |
| `LittlesLaw.ZeroDelayMakespan` | 02-network/02-connection-pooling-and-pool-exhaustion/cpp/hand_rolled_pool.cpp:177-204 | if a connection is never idle while a client waits and all come at once, the end is exactly ceil(n/size)*H |
| `LittlesLaw.RoundsIsLeast` | 02-network/02-connection-pooling-and-pool-exhaustion/cpp/hand_rolled_pool.cpp:203-204 | that ceiling is the least number of rounds with n places |
| `LittlesLaw.WaitBound` | 02-network/02-connection-pooling-and-pool-exhaustion/cpp/hand_rolled_pool.cpp:34-38 | while every connection has been busy and not all n clients are served, at most ceil(n/size) - 1 rounds have passed |
| `TimedPool.OverloadDrains` | 02-network/02-connection-pooling-and-pool-exhaustion/cpp/hand_rolled_pool.cpp:177-194 | against a clock that moves only when all threads sleep or wait, every finished run of the waiting pool, whoever its wakeups favour, has served every client, timed none out, never left a connection idle beside a waiter nor used one twice at once, and ends its last hold at exactly ceil(n/size)*H |
| `TimedPool.OverloadCanDrain` | 02-network/02-connection-pooling-and-pool-exhaustion/cpp/hand_rolled_pool.cpp:177-194 | for all sizes, holds and numbers of clients such a run exists |
| `TimedPool.TimesOutExactly` | 02-network/02-connection-pooling-and-pool-exhaustion/cpp/hand_rolled_pool.cpp:217-222 | some client can time out if and only if there are more clients than connections and the limit is not above (ceil(n/size) - 1)*H: a longer limit never fires |
| `TimedPool.ProgramRows` | 02-network/02-connection-pooling-and-pool-exhaustion/cpp/hand_rolled_pool.cpp:216-222 | 40 clients, 4 connections, 100 ms: 1000 ms and no timeout without a limit and with 2 s; with 300 ms clients can time out |
| `TimedPool.SettledIsBusy` | 02-network/02-connection-pooling-and-pool-exhaustion/cpp/hand_rolled_pool.cpp:138-144 | when no thread can act, nobody waits beside an idle connection: every connection is in use now |
| `TokenBucket.LevelIsTightestWindow` | 02-network/03-timeouts-as-a-first-principle/python/retry_storm_and_budget.py:115-121 | after every history the bucket holds exactly the least room left over all windows ending now |
| `TokenBucket.TokenMeansRoom` | 02-network/03-timeouts-as-a-first-principle/python/retry_storm_and_budget.py:123-127 | a token is there if and only if every window ending now has room for one more grant |
| `TokenBucket.RoomIsAllowanceLessGrants` | 02-network/03-timeouts-as-a-first-principle/python/retry_storm_and_budget.py:120-127 | the room of a window is its cap (or the initial level) plus ratio per request less the grants in it |
| `TokenBucket.WindowBound` | 02-network/lab/api/app.py:112-126 | in any window of any lawful history grants <= cap + ratio * requests, with the initial level in place of the cap for a window from the start |
| `TokenBucket.RetryBudget.OnRequest` | 02-network/03-timeouts-as-a-first-principle/python/retry_storm_and_budget.py:120-121 | adds ratio up to the cap and keeps the level that of its history |
| `TokenBucket.RetryBudget.TrySpend` | 03-data/07-connection-pools/python/retry_storm.py:106-114 | grants exactly when every window has room; a refusal changes nothing |
| `RetryStorm.AttemptCap` | 02-network/03-timeouts-as-a-first-principle/python/retry_storm_and_budget.py:171-181 | attempts <= maxAttempts * clients in every reachable state, whatever the answers |
| `RetryStorm.NaiveTriples` | 02-network/03-timeouts-as-a-first-principle/python/retry_storm_and_budget.py:171-181 | the naive client reaches 3 attempts per client for every number of clients |
| `RetryStorm.DisciplinedAmplification` | 02-network/03-timeouts-as-a-first-principle/python/retry_storm_and_budget.py:184-211 | attempts <= 1.1 * clients + 100 in every reachable state, for any breaker and any interleaving |
| `RetryStorm.PoolClientAmplification` | 03-data/07-connection-pools/python/retry_storm.py:142-165 | the bucket that starts empty keeps retries <= 0.1 * requests at every prefix of every run |
| `RetryStorm.BudgetBoundsLoad` | 02-network/03-timeouts-as-a-first-principle/python/retry_storm_and_budget.py:184-211 | attempts are bounded by requests plus grants, and grants by the initial level plus ratio per request |
| `RetryStorm.CountersCount` | 02-network/03-timeouts-as-a-first-principle/python/retry_storm_and_budget.py:171-211 | over every run the clients are those offered, `attempts` the calls sent and the good ones the calls answered |
| `RetryStorm.DisciplinedClient` | 02-network/03-timeouts-as-a-first-principle/python/retry_storm_and_budget.py:184-211 | one client against the shared bucket while others use it in any way: it sends only what the breaker allows, stops at the first answer and counts that good, and otherwise stops only at the breaker's refusal, at a retry the bucket refused, or after three attempts; every attempt after the first is paid for by a grant, and every verdict is recorded |
| `Upstream.PermitsConserved` | 02-network/03-timeouts-as-a-first-principle/python/retry_storm_and_budget.py:67-105 | over every run, for any capacity and queue limit, clients leaving at any moment: free permits plus calls being served are the capacity, the line keeps to its limit, and every counter is what it counts |
| `Upstream.NeverStuck` | 02-network/03-timeouts-as-a-first-principle/python/retry_storm_and_budget.py:76-98 | while a call waits a permit is free or another call will give one back |
| `Upstream.LeavingFreesNothing` | 02-network/03-timeouts-as-a-first-principle/python/retry_storm_and_budget.py:89-105 | a client that gives up frees no permit: only finished work does |
| `Upstream.WastedIsLate` | 02-network/03-timeouts-as-a-first-principle/python/retry_storm_and_budget.py:89-105 | over every run `wasted` is the number of calls that finished after their client had left while they were being served |
| `Upstream.Server.ArriveOne` | 02-network/03-timeouts-as-a-first-principle/python/retry_storm_and_budget.py:76-83 | an arrival is refused exactly when the line is full |
| `Upstream.Server.Execute` | 02-network/03-timeouts-as-a-first-principle/python/retry_storm_and_budget.py:55-105 | any schedule executed on the counters in place ends in the state the step system reaches |
| `Upstream.CircuitBreaker.Allows` | 02-network/03-timeouts-as-a-first-principle/python/retry_storm_and_budget.py:142-151 | after any history of verdicts and half-openings: refuses exactly while open and before the cool-down is over, and then counts the refusal; letting somebody in after it is a half-opening, and the verdicts are forgotten |
| `Upstream.CircuitBreaker.Record` | 02-network/03-timeouts-as-a-first-principle/python/retry_storm_and_budget.py:153-160 | adds exactly its verdict to the history, and the counters and the opening time stay those the history defines |
| `Upstream.RefusesExactly` | 02-network/03-timeouts-as-a-first-principle/python/retry_storm_and_budget.py:131-160 | over every history, the verdicts counted out from each position back to the half-opening before it: a call is refused if and only if it is within the cool-down of the last verdict since the last half-opening that found at least `minimum` verdicts and more than the threshold of them failures |
| `Upstream.LateFailureReopens` | 02-network/03-timeouts-as-a-first-principle/python/retry_storm_and_budget.py:153-160 | a failure that comes in right after the breaker has tripped moves its opening time |
| `OrderHandler.WithDeadline` | 02-network/lab/api/app.py:376-419 | under `budget` and `full`, for every upstream timing: the handler ends no later than its deadline, makes no call when total <= reserve, starts every hop with a positive slice, makes at most 9 calls (3 under `budget`), and `budget` leaves the reserve unspent; each outcome says where, why and when it stopped; under `full` each hop begun is one request to the budget, each call after the first of its hop is one granted retry, each call one verdict |
| `OrderHandler.FullHop` | 02-network/lab/api/app.py:396-417 | one hop under `full`: one request to the budget, one grant for each retry made and none for a retry that was not, one verdict for each call (exactly, with nobody else about; at least, in any company); no call at all exactly when the breaker refuses at the start |
| `OrderHandler.TakeTurn` | 02-network/lab/api/app.py:400-417 | one turn of the loop: a call unless the breaker refuses, its verdict recorded, and another turn only with a token granted and after the drawn sleep |
| `OrderHandler.SpendAndSleep` | 02-network/lab/api/app.py:408-414 | the retry is granted exactly when every window of the budget's history has room for it, it and nothing else is added to that history, and only a granted retry sleeps |
| `OrderHandler.Attempt` | 02-network/lab/api/app.py:404 | one call given a slice ends within it, at once when the slice is not positive |
| `OrderHandler.FlatOrder` | 02-network/lab/api/app.py:367-374 | under `flat` the time is exactly that of the calls made, each cut at five seconds whatever came before, so up to fifteen; the answer is 504 at the first failure |
| `OrderHandler.Order` | 02-network/lab/api/app.py:349-419 | the endpoint: the caller's total cut to the service's own is the deadline of the trace, the bounds of each profile hold, and only `full` uses the budget and the breaker |
| `OrderHandler.PlaceInTrace` | 02-network/lab/api/app.py:384-414 | the trace of a request is hops in order and attempts in order, which is what makes nine calls the limit |
| `OrderHandler.EarlierHopsAnswered` | 02-network/lab/api/app.py:384-417 | every hop before the current one was answered |
| `OrderHandler.CutWhereItShould` | 02-network/lab/api/app.py:94-109 | in every trace a call is cut short only after one second or where the reserve begins (or at once, when it begins past that) |
| `OrderHandler.RetrySliceInTrace` | 02-network/lab/api/app.py:404-417 | in every trace a retry was decided with more than the reserve left and slept no longer than its backoff; its slice is zero or less exactly when the sleep used up what was above the reserve, which then was no more than the backoff |
| `OrderHandler.RetryMayStartTooLate` | 02-network/lab/api/app.py:404-413 | after a failed call some draw of the jitter gives the retry a slice of zero or less exactly when what is left above the reserve is no more than the backoff |
| `OrderHandler.LateRetry` | 02-network/lab/api/app.py:396-417 | a run of the retry loop, on a fresh budget and breaker, that makes a call with a negative slice |
| `OrderHandler.Breaker.Allows` | 02-network/lab/api/app.py:137-143 | after any history of verdicts and half-openings: refuses exactly while the failures that opened the breaker are the last thing recorded and the cool-down since then runs; letting somebody in after it is a half-opening, and nothing else is recorded |
| `OrderHandler.Breaker.Record` | 02-network/lab/api/app.py:145-153 | adds exactly its verdict to the history, and the counter and the opening time stay those the history defines |
| `OrderHandler.RefusesExactly` | 02-network/lab/api/app.py:129-153 | over every history, half-openings included: a call is refused exactly when some failure opened the breaker (one after a half-opening, otherwise the last of `threshold` in a row), only failures followed, and it is within the cool-down of that failure |
| `OrderHandler.HalfOpeningsApart` | 02-network/lab/api/app.py:140-142 | two half-openings of one breaker are more than a cool-down apart |
| `OrderHandler.HalfOpenAdmitsEveryone` | 02-network/lab/api/app.py:140-142 | of callers that ask an open breaker with no verdict coming in, all pass but those that asked before the first one after the cool-down, and only that one half-opens it: at most one passes exactly when at most one asks from then on |
| `OrderHandler.HalfOpens` | 02-network/lab/api/app.py:137-153 | and a breaker gets there: after `threshold` failures and a cool-down it lets in two callers in a row |
| `ClientHello.ParseClientHello` | 02-network/01-what-a-connection-actually-costs/python/handshake_phases.py:170-216 | the parser with its loops, on every byte string: it ends, with the specified answer or the specified exception |
| `ClientHello.RefusedExactly` | 02-network/01-what-a-connection-actually-costs/python/handshake_phases.py:176-180 | on every byte string: refused as no handshake record exactly for fewer than five bytes or another first byte, as no ClientHello exactly for another message type; every other failure runs out of bytes |
| `ClientHello.ReadExtensions` | 02-network/01-what-a-connection-actually-costs/python/handshake_phases.py:196-214 | the extension walk, which ends on every byte string |
| `ClientHello.ExtensionsAreTheChain` | 02-network/01-what-a-connection-actually-costs/python/handshake_phases.py:198-202 | on every byte string: one extension for each header of the chain that the lengths spell out, the last one cut where the bytes end, and an exception exactly when the chain breaks off at a header that is not all there |
| `ClientHello.ReadGroups` | 02-network/01-what-a-connection-actually-costs/python/handshake_phases.py:204-207 | the group list loop |
| `ClientHello.GroupsExactly` | 02-network/01-what-a-connection-actually-costs/python/handshake_phases.py:205-207 | on every payload: half the stated length of groups, rounded up, each from its own place, and an exception exactly when the payload does not hold them |
| `ClientHello.ReadShares` | 02-network/01-what-a-connection-actually-costs/python/handshake_phases.py:208-214 | the key share loop |
| `ClientHello.SharesAreTheChain` | 02-network/01-what-a-connection-actually-costs/python/handshake_phases.py:209-214 | on every payload: one (group, length) pair for each header of the chain, and an exception exactly when the chain breaks off at a header that the stated length has room for |
| `ClientHello.RoundTrip` | 02-network/01-what-a-connection-actually-costs/python/handshake_phases.py:170-216 | for every well-formed hello of section 4.1.2 of RFC 8446 in one record, any session id, ciphers and extensions in any order, whatever bytes follow: exactly the encoded groups and (group, key length) pairs |
| `ClientHello.CutRecord` | 02-network/01-what-a-connection-actually-costs/python/handshake_phases.py:176-216 | what the parser makes of every proper prefix of an encoded hello, down to which exception: one unless the cut falls in the payload of the last extension, and there exactly this answer |
| `ClientHello.UnnoticedCut` | 02-network/01-what-a-connection-actually-costs/python/handshake_phases.py:201-214 | a cut payload passes unnoticed exactly when the extension is of another kind, or fewer than two of its bytes are left, or only key bytes of the last share are missing |
| `Framing.ServeConn` | 02-network/03-timeouts-as-a-first-principle/cpp/poll_deadline.cpp:72-108 | for every way the reads fall and any number of writes that succeed, the answers are those of splitting the whole stream; slow requests started and finished are counted, the one whose write fails included |
| `Framing.SplitIsUnique` | 02-network/03-timeouts-as-a-first-principle/cpp/poll_deadline.cpp:74-85 | the frames and the remainder are the only way to split a stream into heads ended by their first blank line and a rest without one |
| `Framing.FirstFrame` | 02-network/03-timeouts-as-a-first-principle/cpp/poll_deadline.cpp:74-85 | a blank line once found stays the first one whatever is read after it |
| `Framing.HeadIsClean` | 02-network/03-timeouts-as-a-first-principle/cpp/poll_deadline.cpp:152-155 | a request ends at its own blank line if and only if its path holds none |
| `Framing.PathRoundTrip` | 02-network/03-timeouts-as-a-first-principle/cpp/poll_deadline.cpp:87-92 | the server finds the requested path if and only if it holds no space |
| `Framing.PathOfExactly` | 02-network/03-timeouts-as-a-first-principle/cpp/poll_deadline.cpp:87-92 | the path is all that stands between the first two spaces of any head, and "/" when there are fewer |
| `Framing.BodyRoundTrip` | 02-network/03-timeouts-as-a-first-principle/cpp/poll_deadline.cpp:101-104 | the client reads back exactly the body written, for every path |
| `Framing.EveryChunkingAnswersInOrder` | 02-network/03-timeouts-as-a-first-principle/cpp/poll_deadline.cpp:72-108 | however the bytes of a run of requests are cut, even inside the blank line, the i-th body answers the i-th path |
| `Framing.EveryChunkingCountsSlow` | 02-network/03-timeouts-as-a-first-principle/cpp/poll_deadline.cpp:94-99 | and the requests held first are exactly those whose path begins with "/slow" |
| `Framing.StreamIsAll` | 02-network/03-timeouts-as-a-first-principle/cpp/poll_deadline.cpp:78-81 | read by non-empty read, the stream is all the bytes in order |
| `SocketReuse.WaitOnce` | 02-network/03-timeouts-as-a-first-principle/cpp/poll_deadline.cpp:160-170 | one wait: it takes all that has arrived by its deadline, up to 4096 bytes, or times out exactly when nothing has; what is buffered and on its way stays the stretch of the stream the positions say |
| `SocketReuse.Converse` | 02-network/03-timeouts-as-a-first-principle/cpp/poll_deadline.cpp:236-270 | a client of any number of waits: each reads the bytes its position in the stream of responses says, whatever arrives when, with the socket kept or closed on a timeout |
| `SocketReuse.ReadsOwnExactly` | 02-network/03-timeouts-as-a-first-principle/cpp/poll_deadline.cpp:160-170 | a wait reads its own response, whole and alone, if and only if nothing earlier is unread when its request is sent and the whole response arrives in time and fits the buffer |
| `SocketReuse.InStepAfter` | 02-network/03-timeouts-as-a-first-principle/cpp/poll_deadline.cpp:160-170 | the next request finds nothing unread if and only if this wait took all that was owed, or timed out and closed the socket |
| `SocketReuse.StaysInStepExactly` | 02-network/03-timeouts-as-a-first-principle/cpp/poll_deadline.cpp:258-264 | a conversation stays in step if and only if every wait got its whole response or, where a timeout closes the socket, nothing at all |
| `SocketReuse.LeadingIsOldest` | 02-network/03-timeouts-as-a-first-principle/cpp/poll_deadline.cpp:236-256 | a read that has the oldest outstanding response whole gives the body of that request, followed by whatever else was buffered |
| `SocketReuse.BehindByAbandoned` | 02-network/03-timeouts-as-a-first-principle/cpp/poll_deadline.cpp:258-264 | on a kept socket where each wait takes one response or none, the client is behind by exactly the waits abandoned so far |
| `SocketReuse.KeptSocketStaysBehind` | 02-network/03-timeouts-as-a-first-principle/cpp/poll_deadline.cpp:258-264 | and so each later wait reads the response to the request that many earlier |
| `SocketReuse.WholeReadBody` | 02-network/03-timeouts-as-a-first-principle/cpp/poll_deadline.cpp:236-256 | its body is that request's, and is its own only if the two paths are equal |
| `SocketReuse.OneReadTakesBoth` | 02-network/03-timeouts-as-a-first-principle/cpp/poll_deadline.cpp:160-170 | where one read finds the late response and the next together, it returns both as one body, and the wait after it reads its own |
| `SocketReuse.ClosedSocketMatches` | 02-network/03-timeouts-as-a-first-principle/cpp/poll_deadline.cpp:262-263 | with a socket closed on every timeout, where each wait gets its whole response or nothing, every body read is that of its request |
| `SocketReuse.MarkerReadsSlow` | 02-network/03-timeouts-as-a-first-principle/cpp/poll_deadline.cpp:239-256 | the experiment, for any two paths: the abandoned answer comes late and whole, and is read as the answer to the second request |
| `SocketReuse.KeptOrClosed` | 02-network/03-timeouts-as-a-first-principle/cpp/poll_deadline.cpp:236-270 | with the server's own responses: on a kept socket the second request is answered with the body of the first, on one that the timeout closed with its own |
| `PoolOutlivesDns.Resolver.SetRecord` | 02-network/05-dns-ttls-and-the-dead-ip/python/pool_outlives_dns.py:118-119 | repointing a name changes its record and leaves the cache as it is |
| `PoolOutlivesDns.Resolver.Resolve` | 02-network/05-dns-ttls-and-the-dead-ip/python/pool_outlives_dns.py:121-129 | a cached answer until it expires, otherwise the record, cached for the time to live; a missing record is a KeyError after the query was counted; the next five rows say what that comes to over runs |
| `PoolOutlivesDns.CachedUntilExpiry` | 02-network/05-dns-ttls-and-the-dead-ip/python/pool_outlives_dns.py:121-129 | over every run of any clients and lookups: once a lookup that missed was stored at t, every lookup of that name asked before t + time to live gives the same port without a query, repointed or not |
| `PoolOutlivesDns.ExpiredAsksAgain` | 02-network/05-dns-ttls-and-the-dead-ip/python/pool_outlives_dns.py:121-129 | the first lookup of the name asked at or after t + time to live gives the record there is then, at one more query, and stores it |
| `PoolOutlivesDns.EveryLookUpCounted` | 02-network/05-dns-ttls-and-the-dead-ip/python/pool_outlives_dns.py:121-129 | queries + cache_hits is the number of lookups, over every run |
| `PoolOutlivesDns.QueryBound` | 02-network/05-dns-ttls-and-the-dead-ip/python/pool_outlives_dns.py:121-129 | up to time R a name is queried at most floor(R / time to live) + 1 times, by whatever clients |
| `PoolOutlivesDns.UnknownName` | 02-network/05-dns-ttls-and-the-dead-ip/python/pool_outlives_dns.py:121-127 | a client of a name that was never pointed anywhere records nothing and keeps no connection |
| `PoolOutlivesDns.Client.Request` | 02-network/05-dns-ttls-and-the-dead-ip/python/pool_outlives_dns.py:157-192 | one request: retirement, connecting, failures of either kind, what is kept and what is recorded |
| `PoolOutlivesDns.Client.ShouldRetireNow` | 02-network/05-dns-ttls-and-the-dead-ip/python/pool_outlives_dns.py:148-155 | maximum lifetime and idle expiry |
| `PoolOutlivesDns.LifetimeBoundsTheOutage` | 02-network/05-dns-ttls-and-the-dead-ip/python/pool_outlives_dns.py:157-192 | over every run of many clients on one resolver: after the name is repointed at s, a request later than s + time to live + maximum lifetime is served by the new server or fails by itself |
| `PoolOutlivesDns.HandshakeBound` | 02-network/05-dns-ttls-and-the-dead-ip/python/pool_outlives_dns.py:148-192 | for any network and idle expiry, handshakes up to time R are at most floor(R / maximum lifetime) + 1, plus the requests that ended without a connection, plus the connections retired for being idle; none of the former on a healthy network |
| `PoolOutlivesDns.ZeroLifetimeIsNoPool` | 02-network/05-dns-ttls-and-the-dead-ip/python/pool_outlives_dns.py:150-152 | a lifetime of 0 means one handshake per request |
| `PoolOutlivesDns.OneHandshakeExactly` | 02-network/05-dns-ttls-and-the-dead-ip/python/pool_outlives_dns.py:150-152 | with a maximum lifetime alone and a healthy network a client connects just once if and only if no request comes more than that lifetime after the first |
| `PoolOutlivesDns.PinnedForEver` | 02-network/05-dns-ttls-and-the-dead-ip/python/pool_outlives_dns.py:148-192 | without a maximum lifetime and on a healthy network there is no further handshake if and only if no gap between requests exceeds the idle expiry; then the same server answers for ever, and once the name has moved it does so only then |
| `PoolOutlivesDns.ErrorWindow` | 02-network/05-dns-ttls-and-the-dead-ip/python/pool_outlives_dns.py:195-200 | time from the switch to the first success against the new server, none if there is none |
| `PoolOutlivesDns.HoldsWhoServed` | 02-network/05-dns-ttls-and-the-dead-ip/python/pool_outlives_dns.py:157-192 | after any requests on any network a client holds a connection exactly when the last request was answered, to the server that answered it; each request is recorded once, as answered exactly when a server was reached and replied |
| `Dataloader.CountingClient.SelectCustomers` | 03-data/06-finding-n-plus-1/nodejs/dataloader_batching.js:64-71 | one counted query returns each existing distinct id once, in any order |
| `Dataloader.BatchLoader.AddLoad` | 03-data/06-finding-n-plus-1/nodejs/dataloader_batching.js:88-102 | a load joins the queue and schedules a flush if none is |
| `Dataloader.BatchLoader.RunFlush` | 03-data/06-finding-n-plus-1/nodejs/dataloader_batching.js:104-111 | a flush takes exactly what was queued since the last one, and is never run with an empty queue |
| `Dataloader.BatchLoader.RunEndTick` | 03-data/06-finding-n-plus-1/nodejs/dataloader_batching.js:94-111 | the end of a tick: the scheduled flush runs there and nowhere else, and sends one batch of everything loaded since the last one, or nothing |
| `Dataloader.Await` | 03-data/06-finding-n-plus-1/nodejs/dataloader_batching.js:88-117 | awaiting ends the tick and lets every answer come: all that was queued has settled with its direct lookup, at one more query if the tick had a load and none if not |
| `Dataloader.BatchLoader.FetchByKey` | 03-data/06-finding-n-plus-1/nodejs/dataloader_batching.js:119-128 | the batch function: one query, and for every key what a direct lookup gives |
| `Dataloader.BatchLoader.RunArrive` | 03-data/06-finding-n-plus-1/nodejs/dataloader_batching.js:109-115 | a batch's answer or failure settles exactly its promises |
| `Dataloader.SettlesOnce` | 03-data/06-finding-n-plus-1/nodejs/dataloader_batching.js:88-117 | over every interleaving of loads, ticks and answers no promise is settled twice or changed |
| `Dataloader.EveryLoadSettles` | 03-data/06-finding-n-plus-1/nodejs/dataloader_batching.js:104-117 | over every possible run, when nothing is queued or in flight every load has settled: rejected if and only if the query of the batch that holds it failed, and otherwise with what a direct lookup of its key returns |
| `Dataloader.OneQueryPerTick` | 03-data/06-finding-n-plus-1/nodejs/dataloader_batching.js:94-111 | over every possible run of loads, ends of ticks and answers, the batches sent are exactly as many as the ended ticks with at least one load |
| `Dataloader.SameTickSameBatch` | 03-data/06-finding-n-plus-1/nodejs/dataloader_batching.js:94-111 | two loads are sent in the same batch if and only if they were made in the same tick |
| `Dataloader.EveryQueryArrives` | 03-data/06-finding-n-plus-1/nodejs/dataloader_batching.js:104-117 | every query sent has been answered or is still in flight |
| `Dataloader.ResolverPerField` | 03-data/06-finding-n-plus-1/nodejs/dataloader_batching.js:134-152 | the list of direct lookups, or a TypeError at the first missing customer; N + 1 queries |
| `Dataloader.DataloaderSameTick` | 03-data/06-finding-n-plus-1/nodejs/dataloader_batching.js:154-163 | the same list or TypeError; all loads are made in one tick, hence 2 queries, 1 when there are no orders; rows N plus the distinct customers |
| `Dataloader.DataloaderAcrossTicks` | 03-data/06-finding-n-plus-1/nodejs/dataloader_batching.js:165-179 | the same list or TypeError; each await ends a tick, hence N + 1 queries again |
| `Dataloader.Compare` | 03-data/06-finding-n-plus-1/nodejs/dataloader_batching.js:181-185 | measured one after the other the three variants give equal replies at N + 1, 2 and N + 1 queries |
| `LsnRouting.Router.WriteRow` | 03-data/08-replication-lag/python/lsn_token.py:93-109 | the write as steps of the system, with any steps of others between commit and token: the row, the token and the time become the session's, and the token covers the row's commit |
| `LsnRouting.Servers.Execute` | 03-data/08-replication-lag/python/lsn_token.py:93-109 | any schedule executed on the servers and the sessions in place ends in the state the step system reaches |
| `LsnRouting.Router.ReadRow` | 03-data/08-replication-lag/python/lsn_token.py:111-136 | each strategy's routing and counters, with any steps of others while `wait` blocks and between check and query; a token compared with what was replayed always finds the session's rows |
| `LsnRouting.TokenReadsOwnWrite` | 03-data/08-replication-lag/python/lsn_token.py:118-125 | over every interleaving of any number of sessions a read of any own row under `lsn`, or under `wait` once it returns, with the latest token finds it |
| `LsnRouting.SafeExactly` | 03-data/08-replication-lag/python/repl_lab.py:142-153 | a strategy never gives a stale read in any run if and only if it takes a token, after the commit, and compares it with what was replayed |
| `LsnRouting.StaleExactly` | 03-data/08-replication-lag/python/lsn_token.py:114-117 | a read is stale exactly when sent to a replica that has not replayed the commit; for `sticky`, when the window has passed and the lag has not |
| `LsnRouting.LsnIsPrecise` | 03-data/08-replication-lag/python/lsn_token.py:118-121 | with nothing logged between commit and token, `lsn` uses the primary exactly when the replica would be stale |
| `LsnRouting.CaughtUpServesAll` | 03-data/08-replication-lag/python/lsn_token.py:111-125 | a replica that has replayed everything serves every read, except a `sticky` one within its window; `wait` does not block |
| `LsnRouting.StaleAfterCommit` | 03-data/08-replication-lag/python/repl_lab.py:145-148 | stale reads for `none`, `sticky` at any window, and tokens compared with the received position |
| `LsnRouting.StaleEarlyToken` | 03-data/08-replication-lag/python/lsn_token.py:105-107 | a stale read when the token is captured before the commit |

## Left out

- The `none` profile of `/order`: a call without a timeout need not end, so the handler need not either.
- HTTPX applies a timeout to each phase of a call rather than to the whole; a call is taken to end within it.
- The service time of the upstream and its slowdown: a call is finished at an arbitrary moment.
- `pool_timeout`, middleware and the other endpoints of the lab service.
- The pool's elapsed times and `max_wait_`, and the timing of its shedding and unbounded policies, where nobody waits.
- The claim of the queue program is one scan of the ready ids of a snapshot; `refill` and the churn measurement are not modelled.
- The body of a request other than its head (Content-Length of requests is not read by the server either), and partial
  writes.
- The demoted server's status code is the arbitrary `ok` of a reply.
- Dataloader.ResolverPerField: database errors inside the endpoint are not modelled, here and in the other two variants;
  a failed query of the loader itself is.
- Locking reads above read committed, which no variant of the write skew program uses.
- OrderHandler.Breaker.constructor: a threshold of at least 1; the program's breaker has 20.
- The log of the replication model has one commit record per row; log sizes, timelines and the standby's apply delay are not modelled.
- Sockets, threads, drivers, printing, timing statistics, percentiles and recovery claims that depend on measured timing.
- The other language ports of the same experiments and the plan-reading, index and benchmark programs.
