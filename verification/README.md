# Advanced Linux Programming: a verified model

The repository is a collection of small C programs. This project models the ten that have the most to prove: six
multi-threaded programs of chapter 4, one of chapter 2 and three byte-stream programs of appendix B. Each has its own module.

A threaded program appears twice. A *machine* (`State`, `Enabled`, `Step`, `Exec`) gives every thread a program counter and
executes one statement of one thread at a time, so that a schedule is any interleaving and a statement about `Exec` is a
statement about every run. A *class* holds the program's own variables - heap nodes, arrays, the mutex owner - and has a
method for each statement, proved to be that step of the machine. Numbers of threads, jobs, loops and lock attempts are
parameters. Proofs by induction are spelled out: `{:induction false}` marks the lemmas to which Dafny would otherwise add an
induction of its own.

| module | source | contents |
|---|---|---|
| `Options`, `Sums`, `Nodes`, `Files` | - | optional values, finite sums, linked nodes, an open file |
| `SemaphoreJobs`, `SemaphoreRuns` | ch04/semaphore-jobs.c | machine and invariant; theorems over all runs |
| `SemaphoreDelivery`, `SemaphoreThreads` | ch04/semaphore-jobs.c | what consumers do for the jobs; heap and statements |
| `JobQueue`, `JobThreads` | ch04/job-queue.c | machine and theorems; list construction, statements, final sum |
| `Prime` | ch04/prime.c | Euclid's bound and the search loops |
| `CondVar`, `CondVarThreads` | ch04/condvar.c | machine and theorems; shared variables and statements |
| `Mutexes` | ch04/different-mutexes.c | three kinds of mutex, machine, theorems, statements |
| `Transfers` | ch04/critical-section.c | loads and stores of the transfer, the sequential batch, disjoint accounts, arrays |
| `TransferOrders`, `TransferRaces` | ch04/critical-section.c | shared accounts: serial order of race-free batches; how a race loses money |
| `HexDump`, `WriteAll`, `TempFile`, `WriteArgs` | appb/hexdump.c, appb/write-all.c, ch02/temp_file.c, appb/write-args.c | byte streams and their inverses |

## What the proofs establish, and where the code falls short

- **Semaphore jobs.** The claim at ch04/semaphore-jobs.c:74 holds: `NeverNull` follows from the exact count in
  `QueueAccounting`. Every run is a run of an atomic stack, every job is in one place at a time, nothing deadlocks and every
  run is finite. That all jobs get consumed is *not* true of every run. `LeftBehind` says exactly when it is: if and only if
  no token and no post is outstanding when the last consumer leaves; `AlwaysDrainsIff` that it is certain only when there are
  no jobs; `CanDrainIff` that it stays possible exactly while a consumer, which comes back for more until a wait fails, is
  left or nothing is outstanding. `Drained` is a sufficient condition: a timeout after the producers are done. (The comment
  at line 25 speaks of sem_trywait; the code calls sem_timedwait.)
- **Work pool.** Exactly-once, first-in-first-out, a total of n(n-1)/2 whatever the schedule. The last node's `next` is never
  stored to: `InitJobs` shows the list is NULL-terminated exactly when malloc leaves NULL there, and the rest assumes it does.
- **Prime search.** Terminates within 2^(2^(n-1)) candidates with the n-th prime. The C `int factor` reaches that prime and
  no more, so it overflows exactly when n is above the number of primes up to INT_MAX.
- **Condition variable.** No wakeup is lost, yet the program can hang: `HangsIff` shows that a hang is reachable exactly when
  `MAX_LOOPS` is positive and even (the source has 10), and `FinishIff` that otherwise finishing always stays possible:
  the toggler has boundedly many steps in any run (`TogglerBound`), and so has everybody once it is done (`FinishBound`).
- **Mutex kinds.** The final states are exactly one per thread and kind.
- **Transfers.** The comment at ch04/critical-section.c:33 says a thread waits for the locks it needs; the guard waits exactly
  while *both* are taken (`GuardIff`), and the locks are not taken atomically, so they exclude nobody. Yet money is conserved, and every
  interleaving is a sequential batch in some order, exactly when the *sequential* program never reaches a point where two
  transactions that share an account (and are not both for 0) are funded together (`ConservesIff`, `SerialIff`); otherwise
  some run loses or creates money. If all transactions are funded from the start and positive, that is: exactly for pairwise
  disjoint accounts, and then the result is the batch in the given order (`FundedBatchIff`).
- **Byte streams.** Printed, written and gathered bytes can be read back exactly; `ReadsBackIff` says precisely when for
  appb/write-args.c, which opens its file without O_TRUNC: no argument contains a newline and the old file was not longer.

## Assumptions

- Steps are atomic and sequentially consistent. `pthread_mutex_lock`, `pthread_cond_wait`, `pthread_cond_signal`,
  `sem_post` and `sem_timedwait` behave as POSIX.1-2017, System Interfaces, chapter 3 says; a wait times out only when the
  semaphore is zero; `sem_post` does not overflow (`CounterTotal` bounds the semaphore by producers times jobs), and a
  recursive mutex accepts `num_locks` nested locks.
- `malloc` succeeds. `rand()`, the schedule and the outcome of each wait are arbitrary inputs.
- ch04/condvar.c never calls `initialize_flag`; the flag, mutex and condition variable start zeroed, unlocked and empty.
- ch04/critical-section.c: balances and amounts are exact reals, and account indices are in range (the source's random index
  can equal the number of accounts).
- Files transfer completely, short only at the end of the file, except in appb/write-all.c; `size_t` has 64 bits.

## Model

| member | source | states |
|---|---|---|
| SemaphoreJobs.InitInv | ch04/semaphore-jobs.c:159-175 | the initial state, with empty queue, zero semaphore and no thread started, satisfies every invariant |
| SemaphoreJobs.StepKeepsInv | ch04/semaphore-jobs.c:28-142 | every statement of every thread keeps mutual exclusion, the token count, the order, the exactly-once count, the job budget, main's progress and the stack history |
| SemaphoreJobs.StackMoves | ch04/semaphore-jobs.c:73-125 | only line 125 pushes, namely the producer's job, and only line 75 pops, namely the job the consumer took at line 73; that job was the queue's head |
| SemaphoreJobs.StepKeepsStack | ch04/semaphore-jobs.c:73-125 | the atomic stack accepts each such push and each pop of the job a consumer took, and stays equal to the queue |
| SemaphoreJobs.StepKeepsPopped | ch04/semaphore-jobs.c:73-84 | job for job, what consumers popped is what they have in hand or have freed |
| SemaphoreJobs.ClaimMeansQueued | ch04/semaphore-jobs.c:48-74 | a consumer that has taken a token and not yet advanced the queue finds it non-empty |
| SemaphoreRuns.QueueAccounting | ch04/semaphore-jobs.c:48-77 | in every run, queue length = semaphore + claims in flight + 1 if the lock's owner is between push and post |
| SemaphoreRuns.NeverNull | ch04/semaphore-jobs.c:71-77 | in every run, the head is not NULL where a consumer reads or dereferences it, and line 75 unlinks the node line 73 took |
| SemaphoreRuns.AtomicStack | ch04/semaphore-jobs.c:70-84 | the jobs published and the jobs consumers took replay as an atomic stack; indices decrease from head to tail, so each pop takes the largest; the popped jobs are exactly those in consumers' hands or freed |
| SemaphoreRuns.ExactlyOnce | ch04/semaphore-jobs.c:70-125 | each index below job_counter is queued, in one thread's hand or freed, exactly once; no other index is anywhere |
| SemaphoreRuns.CounterTotal | ch04/semaphore-jobs.c:111-130 | semaphore and counter never exceed producers times jobs, and the counter equals it once the producers are done |
| SemaphoreRuns.NeverStuck | ch04/semaphore-jobs.c:41-183 | in every reachable unfinished state some thread, or main, can step |
| SemaphoreRuns.WhoBlocks | ch04/semaphore-jobs.c:48-130 | in every run, a started thread that has not ended cannot step exactly when it is at the mutex and another thread is in its critical section |
| SemaphoreRuns.StepLowersMeasure | ch04/semaphore-jobs.c:41-183 | every step lowers an explicit measure that charges consumption to the job that pays for it |
| SemaphoreRuns.RunBound | ch04/semaphore-jobs.c:147-183 | every run has at most 3C + (15J + 3)P steps |
| SemaphoreRuns.Complete | ch04/semaphore-jobs.c:177-183 | every reachable state can be continued until main has joined every thread |
| SemaphoreRuns.Ending | ch04/semaphore-jobs.c:177-183 | when all threads have ended, the jobs left are exactly as many as the semaphore's value, and left plus freed is every job once |
| SemaphoreRuns.Drained | ch04/semaphore-jobs.c:48-57 | if a consumer times out after the producers are done, then at the end the queue is empty and each job was freed exactly once |
| SemaphoreRuns.LeftBehind | ch04/semaphore-jobs.c:48-65 | once every consumer has left, the jobs left at the end are the tokens plus the posts still owed; the queue drains if and only if there are none |
| SemaphoreRuns.AlwaysDrainsIff | ch04/semaphore-jobs.c:48-65 | every complete run drains the queue if and only if producers times jobs is 0 |
| SemaphoreRuns.AllJobsLeft | ch04/semaphore-jobs.c:48-57 | for all sizes there is a complete run in which every job stays unconsumed |
| SemaphoreDelivery.LeavesAtWait | ch04/semaphore-jobs.c:41-84 | in any step of anybody, a consumer leaves its loop only by its own failing wait; a token never makes it leave |
| SemaphoreDelivery.WaitOutcomes | ch04/semaphore-jobs.c:48-64 | a waiting consumer can get a token exactly when the semaphore is positive, time out exactly when it is 0, and be ended by another error always, which takes no token and no job |
| SemaphoreDelivery.CanDrainIff | ch04/semaphore-jobs.c:41-84 | a reachable state can still be run to an empty queue if and only if some consumer has not left, or no token and no post is outstanding |
| SemaphoreDelivery.AllJobsConsumed | ch04/semaphore-jobs.c:147-183 | with at least one consumer, some complete run consumes all producers times jobs |
| SemaphoreDelivery.Delivered | ch04/semaphore-jobs.c:80-123 | in every run the job with index i, queued, in a consumer's hand or freed, has the i-th payload drawn at line 123 |
| SemaphoreDelivery.JoinOrder | ch04/semaphore-jobs.c:177-183 | main joins the producers in order and then the consumers in order, and each join passes exactly when that thread has ended |
| SemaphoreThreads.JobSystem.constructor | ch04/semaphore-jobs.c:14-21 | empty list, zero counter and semaphore, free mutex |
| SemaphoreThreads.JobSystem.TestJobs | ch04/semaphore-jobs.c:111 | tests and decrements the job count |
| SemaphoreThreads.JobSystem.Allocate | ch04/semaphore-jobs.c:113 | adds one fresh node with arbitrary contents, held by this producer alone |
| SemaphoreThreads.JobSystem.ProducerLock | ch04/semaphore-jobs.c:116 | takes the free mutex |
| SemaphoreThreads.JobSystem.Link | ch04/semaphore-jobs.c:119 | the new node points to the current head |
| SemaphoreThreads.JobSystem.AssignIndex | ch04/semaphore-jobs.c:121 | stores the counter in the node and advances it |
| SemaphoreThreads.JobSystem.AssignPayload | ch04/semaphore-jobs.c:123 | stores the payload |
| SemaphoreThreads.JobSystem.Publish | ch04/semaphore-jobs.c:125 | moving the head pointer is an atomic push: list and contents are the old ones behind the new job |
| SemaphoreThreads.JobSystem.Post | ch04/semaphore-jobs.c:127 | increments the semaphore |
| SemaphoreThreads.JobSystem.ProducerUnlock | ch04/semaphore-jobs.c:130 | frees the mutex and returns to the loop test |
| SemaphoreThreads.JobSystem.TimedWait | ch04/semaphore-jobs.c:48-65 | takes a token, or ends the consumer by timeout or by another error |
| SemaphoreThreads.JobSystem.ConsumerLock | ch04/semaphore-jobs.c:71 | takes the free mutex |
| SemaphoreThreads.JobSystem.TakeHead | ch04/semaphore-jobs.c:73 | this_job is the head pointer |
| SemaphoreThreads.JobSystem.Advance | ch04/semaphore-jobs.c:75 | dereferences the head without a test, safely, and is an atomic pop of the node this consumer holds |
| SemaphoreThreads.JobSystem.ConsumerUnlock | ch04/semaphore-jobs.c:77 | frees the mutex |
| SemaphoreThreads.JobSystem.Free | ch04/semaphore-jobs.c:80-84 | reads and frees a node that is live and this consumer's alone, once, and goes back to the wait |
| SemaphoreThreads.JobSystem.CreateThread | ch04/semaphore-jobs.c:167-175 | starts the next thread, consumers first |
| SemaphoreThreads.JobSystem.JoinThread | ch04/semaphore-jobs.c:178-183 | joins the next thread, producers first |
| SemaphoreThreads.JobSystem.Run | ch04/semaphore-jobs.c:147-183 | on the heap, any schedule ends in the state the machine gives it |
| SemaphoreThreads.RunJobs | ch04/semaphore-jobs.c:147-183 | after any complete schedule the heap holds a well-formed list of exactly as many jobs as the semaphore counts, the counter is the planned total and the mutex is free |
| JobQueue.InitInv | ch04/job-queue.c:87-96 | the initial state satisfies every invariant for any list of jobs |
| JobQueue.StepKeepsInv | ch04/job-queue.c:29-53 | every statement keeps mutual exclusion, the places, FIFO order, exactly-once, and what each accumulator and all together are worth |
| JobQueue.DequeueOrder | ch04/job-queue.c:37-44 | the k-th dequeue over all workers takes factor k, and each worker's own factors strictly increase |
| JobQueue.ExactlyOnce | ch04/job-queue.c:37-49 | each factor is queued, in one worker's hand or freed, exactly once |
| JobQueue.Conservation | ch04/job-queue.c:23-49 | in every run, twice accumulated + in hand + queued is num_jobs (num_jobs - 1), or 0 if num_jobs < 1 |
| JobQueue.FitsInLong | ch04/job-queue.c:18-26 | for every int num_jobs no accumulator, and not their sum, exceeds a signed 64-bit long |
| JobQueue.NeverStuck | ch04/job-queue.c:34-52 | in every reachable unfinished state some worker, or main, can step |
| JobQueue.WhoBlocks | ch04/job-queue.c:37-44 | in every run, a started worker that has not ended cannot step exactly when it is at the mutex and another worker is in its critical section |
| JobQueue.RunBound | ch04/job-queue.c:34-52 | every run has at most 7 steps per worker and 8 per job |
| JobQueue.Complete | ch04/job-queue.c:94-100 | from every reachable state some schedule leads to the end, so complete schedules exist for all sizes |
| JobQueue.Ending | ch04/job-queue.c:98-108 | when all workers have ended, each of the num_jobs (at least one) jobs was freed once, each accumulator is what its worker dequeued, and twice their sum is num_jobs (num_jobs - 1), or 0 |
| JobThreads.InitJobs | ch04/job-queue.c:58-73 | num_jobs distinct nodes, or one if num_jobs < 1, with factors 0, 1, 2, ... from the head, NULL-terminated exactly when malloc leaves NULL in `next` |
| JobThreads.WorkPool.constructor | ch04/job-queue.c:15-20 | a pool over a given list, all accumulators zero |
| JobThreads.WorkPool.LockQueue | ch04/job-queue.c:37 | takes the free mutex |
| JobThreads.WorkPool.TestQueue | ch04/job-queue.c:38 | branches on the head pointer being NULL |
| JobThreads.WorkPool.ClearNext | ch04/job-queue.c:39 | no job |
| JobThreads.WorkPool.TakeHead | ch04/job-queue.c:41 | next_job is the head |
| JobThreads.WorkPool.Advance | ch04/job-queue.c:42 | the list loses exactly the node this worker holds |
| JobThreads.WorkPool.UnlockQueue | ch04/job-queue.c:44 | frees the mutex |
| JobThreads.WorkPool.CheckNext | ch04/job-queue.c:45 | ends the worker exactly when it has no job |
| JobThreads.WorkPool.ProcessJob | ch04/job-queue.c:23-27 | adds the factor to this worker's accumulator and nothing else |
| JobThreads.WorkPool.FreeNext | ch04/job-queue.c:49 | frees a node that is live and this worker's alone |
| JobThreads.WorkPool.MainAct | ch04/job-queue.c:94-100 | starts the next worker, or joins the next one |
| JobThreads.WorkPool.Run | ch04/job-queue.c:94-100 | on the heap, any schedule ends in the state the machine gives it |
| JobThreads.ClearAccumulators | ch04/job-queue.c:90-92 | every accumulator is zero |
| JobThreads.SumAccumulators | ch04/job-queue.c:102-108 | the joined result is the sum of the accumulators |
| JobThreads.RunPool | ch04/job-queue.c:75-108 | for every complete schedule, twice the program's result is num_jobs (num_jobs - 1), and 0 if num_jobs < 1 |
| Prime.LeastDivisorIsPrime | ch04/prime.c:16-21 | the factor at which trial division stops is prime |
| Prime.PrimeAbove | ch04/prime.c:12-31 | Euclid: a prime above m is at most the product of the primes up to m, plus one |
| Prime.EuclidBound | ch04/prime.c:12-31 | the k-th prime exists and is at most 2^(2^(k-1)) |
| Prime.NthPrimeUnique | ch04/prime.c:4-5 | there is only one n-th prime |
| Prime.TestCandidate | ch04/prime.c:13-21 | is_prime is cleared exactly for composites, at the least divisor above 1, which is prime |
| Prime.ComputePrime | ch04/prime.c:7-33 | for n >= 1, terminates with the prime that exactly n primes do not exceed, at most 2^(2^(n-1)); `factor` peaks at that prime, and stays within a limit exactly when at least n primes do |
| CondVar.StepKeepsInv | ch04/condvar.c:34-79 | every step, spurious wakeups included, keeps mutual exclusion, flag parity, loop count, no lost wakeup and main's progress |
| CondVar.NoLostWakeup | ch04/condvar.c:36-70 | in every run the flag is the parity of completed toggles, and an unsignalled waiter means a clear flag except just before the signal |
| CondVar.WorkOnlyWhenSet | ch04/condvar.c:34-50 | in every run each do_work directly follows an unlock, and that a look at the set flag while holding the mutex |
| CondVar.WorkerLoop | ch04/condvar.c:34-53 | in every run, whatever happens in between, the worker's steps follow its program: it takes the mutex for an iteration only right after a test that found loop_count < MAX_LOOPS, a test that did not is its last step, and each unlock is followed by do_work and then the test |
| CondVar.WhoBlocks | ch04/condvar.c:36-70 | in every run, a started thread that has not ended cannot step exactly when it waits unsignalled or needs a mutex the other one holds |
| CondVar.WakesAnyNumberOfTimes | ch04/condvar.c:37-46 | for a positive MAX_LOOPS and any n, some run has n spurious wakeups and leaves the worker asleep, so runs have no common bound |
| CondVar.StuckStates | ch04/condvar.c:31-93 | the states without a non-spurious step are exactly the finished ones and the hung ones, and a hang needs MAX_LOOPS even and positive |
| CondVar.HangsIff | ch04/condvar.c:74-92 | a hang is reachable exactly when MAX_LOOPS is even and positive |
| CondVar.HungForGood | ch04/condvar.c:37-46 | no spurious wakeup gets a hung program to finish |
| CondVar.CanFinish | ch04/condvar.c:31-93 | with MAX_LOOPS odd or not positive, every reachable state can be continued to the end |
| CondVar.FinishIff | ch04/condvar.c:31-93 | finishing stays possible in every run exactly when MAX_LOOPS is odd or not positive |
| CondVar.TogglerBound | ch04/condvar.c:74-79 | in any run, from any reachable state, the toggler takes at most an explicit number of steps |
| CondVar.FinishBound | ch04/condvar.c:31-93 | with MAX_LOOPS odd or not positive and the toggler done, every run takes at most an explicit number of steps, spurious wakeups included, and gets stuck only finished |
| CondVarThreads.FlagMonitor.constructor | ch04/condvar.c:7-10 | clear flag, zero count, free mutex, no thread started |
| CondVarThreads.FlagMonitor.WorkerAct | ch04/condvar.c:31-55 | keeps the monitor's invariant; the worker goes to sleep only with the flag clear, giving up the mutex; it unlocks to do its work only with the flag set; at the loop test it ends if and only if loop_count >= MAX_LOOPS; it changes neither flag nor count |
| CondVarThreads.FlagMonitor.TogglerAct | ch04/condvar.c:59-80 | keeps the invariant; the flag changes only under the mutex and to its opposite; nobody waits after the signal; at its end there were MAX_LOOPS toggles |
| CondVarThreads.FlagMonitor.MainAct | ch04/condvar.c:86-92 | keeps the invariant; main gets past its joins only when the threads have ended |
| CondVarThreads.FlagMonitor.WakeSpuriously | ch04/condvar.c:41-45 | a wait that returns unsignalled finds the flag still clear, unless the signal is the next thing to happen |
| CondVarThreads.RunMonitor | ch04/condvar.c:82-96 | after any schedule the variables satisfy: flag = parity of toggles, no lost wakeup, stuck exactly when ended or hung, hung only for MAX_LOOPS positive and even |
| CondVarThreads.FlagMonitor.Run | ch04/condvar.c:82-96 | any schedule ends in the state the machine gives it |
| Mutexes.MaximalOutcome | ch04/different-mutexes.c:22-42 | a state without enabled step has one owner at its kind's end and everybody else blocked at the first call |
| Mutexes.FirstTakesAll | ch04/different-mutexes.c:22-42 | each thread owns the mutex at the end of some maximal run |
| Mutexes.Outcomes | ch04/different-mutexes.c:22-42 | for each kind, the final states of the maximal runs are exactly one per thread: normal blocks the owner at its second call, recursive grants it every call, error-checking grants one and answers EDEADLK to the rest |
| Mutexes.RunBound | ch04/different-mutexes.c:22-42 | every run has at most 2 num_locks + 1 steps per thread |
| Mutexes.PthreadMutex.Lock | ch04/different-mutexes.c:26 | a returning call's result and new owner and depth, by kind |
| Mutexes.LockingThreads.Act | ch04/different-mutexes.c:22-40 | keeps the counters' invariant; the mutex never changes hands, only its owner has calls that returned, only an error-checking mutex refuses its owner, other threads are untouched |
| Mutexes.RunTasks | ch04/different-mutexes.c:22-42 | after any schedule that leaves no step there is one owner: normal, one success and blocked in the second call if there is one; recursive, num_locks successes and finished; error-checking, one success, num_locks - 1 EDEADLK and finished; every other thread is blocked in its first call with nothing counted |
| Mutexes.LockingThreads.Run | ch04/different-mutexes.c:22-42 | any schedule ends in the state the machine gives it |
| Transfers.BatchConserves | ch04/critical-section.c:25-49 | processing transactions one after the other conserves the total and never makes a balance negative |
| Transfers.BatchAt | ch04/critical-section.c:162-167 | with disjoint accounts, each account ends the batch as its own transaction alone would leave it |
| Transfers.StepIsLocal | ch04/critical-section.c:29-45 | a statement touches only its own transaction's accounts and locks |
| Transfers.StepKeepsInv | ch04/critical-section.c:29-45 | with disjoint accounts, every statement leaves each thread what it would see alone |
| Transfers.NobodyWaits | ch04/critical-section.c:33-36 | with disjoint accounts no thread ever waits, and every run ends within ten steps per thread |
| Transfers.EachTransfer | ch04/critical-section.c:25-49 | with disjoint accounts, in every complete interleaving each transaction moves its amount and returns 0 exactly when the source held at least that much, and otherwise moves nothing and returns 1 |
| Transfers.Spins | ch04/critical-section.c:35-36 | while both its locks are taken, any number of its own steps leaves a thread at the guard and changes nothing else |
| Transfers.SpinsOn | ch04/critical-section.c:35-36 | it busy-waits: it can test any number of times |
| Transfers.GuardIff | ch04/critical-section.c:35-36 | by its own steps a thread can pass the guard if and only if one of its two locks is free |
| Transfers.InterleavingIsBatch | ch04/critical-section.c:25-49 | with disjoint accounts, every complete interleaving of loads and stores has the batch's balances and return codes, free locks and an unchanged total |
| Transfers.WalksIn | ch04/critical-section.c:33-41 | a thread loads its source balance although the source account is locked, if the target is not |
| Transfers.CanEnd | ch04/critical-section.c:162-167 | with disjoint accounts, every reachable state can be continued until all threads are done |
| TransferOrders.Admitted | ch04/critical-section.c:30-31 | in a race-free batch a thread passes the funds test exactly when the batch so far funds it, and then conflicts with no thread under way |
| TransferOrders.SerialStep | ch04/critical-section.c:29-45 | in a race-free batch, every statement keeps the state equal to the batch of the settled threads in the order they settled, plus what each thread under way would see alone |
| TransferOrders.RaceFreeIsSerial | ch04/critical-section.c:25-49 | every complete interleaving of a race-free batch is the batch in some order, balances and return codes, and conserves the total |
| TransferOrders.PerformInSomeOrder | ch04/critical-section.c:162-167 | for a race-free batch and every complete schedule, the arrays and return values are those of the batch in some order |
| TransferRaces.EveryOrderHappens | ch04/critical-section.c:162-167 | for every batch and every order, some complete run is that batch |
| TransferRaces.Overwrites | ch04/critical-section.c:40-41 | two threads that load one balance before either stores: the first store is lost from the total |
| TransferRaces.LosesMoney | ch04/critical-section.c:33-41 | in each of the four ways two transactions can share an account, some order of loads and stores changes the total |
| TransferRaces.RacingLosesMoney | ch04/critical-section.c:30-45 | if the sequential program can fund a conflict, some complete run of all threads does not conserve the total |
| TransferRaces.ConservesIff | ch04/critical-section.c:25-49 | every complete run conserves the total if and only if no order of some transactions funds two conflicting others |
| TransferRaces.SerialIff | ch04/critical-section.c:25-49 | every complete run is a batch in some order, return codes included, under exactly the same condition |
| TransferRaces.FundedBatchIff | ch04/critical-section.c:25-49 | with all transactions funded and positive: every complete run conserves the total, and equally is the batch in the given order, if and only if the accounts are pairwise disjoint |
| TransferRaces.LostUpdate | ch04/critical-section.c:33-45 | in any batch, two funded transactions out of one account have a complete run that increases the total by the second amount |
| Transfers.Bank.constructor | ch04/critical-section.c:8-20 | zero locks and no transaction begun |
| Transfers.Bank.Act | ch04/critical-section.c:25-49 | each load, store and test of process_transaction is its step of the machine; a test lets the thread pass exactly when the lock it reads is free |
| Transfers.Bank.Run | ch04/critical-section.c:162-167 | any schedule ends in the state the machine gives it |
| Transfers.PerformTransactions | ch04/critical-section.c:162-167 | for disjoint accounts and every complete schedule, the arrays and return values are those of the sequential batch, and each transaction has moved its amount exactly when it was funded |
| HexDump.Hex6RoundTrip | appb/hexdump.c:24 | `%06x` prints at least six hexadecimal digits that read back as the number |
| HexDump.Hex6Iff | appb/hexdump.c:24 | `%06x` prints the one string of digits 0-9a-f that reads back as the number, has at least six digits and no leading zero beyond that |
| HexDump.LineRoundTrip | appb/hexdump.c:23-27 | a printed line parses back to its offset and bytes |
| HexDump.LineIsWellPrinted | appb/hexdump.c:24-27 | every line is, character by character, 0x, the offset, a colon and a space, two digits and a space for each byte, and a newline |
| HexDump.TextRoundTrip | appb/hexdump.c:20-30 | printed lines parse back to the lines, for all lines |
| HexDump.DumpShape | appb/hexdump.c:20-30 | floor(len/16) + 1 lines, line k at offset 16k (low 32 bits), all full except the last, which holds len mod 16 bytes |
| HexDump.DumpRoundTrip | appb/hexdump.c:20-30 | the text parses back to lines whose bytes joined are the file |
| HexDump.PrintLine | appb/hexdump.c:24-27 | prints the offset and the bytes read, in that format |
| HexDump.Dump | appb/hexdump.c:20-30 | the loop ends for every file and prints exactly the dump, which loses nothing and has every line in that format; an empty file prints `0x000000: ` and a newline |
| WriteAll.TransferIs | appb/write-all.c:15-25 | everything gets through unless a failure comes before `count` bytes were accepted; then exactly the accepted bytes |
| WriteAll.WriteAllBytes | appb/write-all.c:13-30 | success appends exactly the count bytes, -1 a proper prefix, namely the bytes accepted before the first failure; the return value tells them apart for counts below 2^63 |
| TempFile.DecodeEncode | ch02/temp_file.c:24-45 | the length prefix reads back as the length |
| TempFile.EncodeAt | ch02/temp_file.c:24-25 | byte k of the prefix holds bits 8k to 8k+7 of the length |
| TempFile.WriteTempFile | ch02/temp_file.c:14-29 | a fresh file holding the 8-byte length and then the data |
| TempFile.ReadTempFile | ch02/temp_file.c:37-53 | from any offset, returns the length in the prefix and that many bytes after it |
| TempFile.RoundTrip | ch02/temp_file.c:14-53 | reading what was written returns the original bytes and length, for every length below 2^64 |
| WriteArgs.GatherIsText | appb/write-args.c:34-49 | the gathered vector is every argument followed by a newline |
| WriteArgs.RoundTripIff | appb/write-args.c:33-49 | splitting the text at newlines gives the arguments exactly when none contains a newline |
| WriteArgs.OldTailStays | appb/write-args.c:48-49 | written over an older file, the text stands alone exactly when the old file was not longer |
| WriteArgs.ReadsBackIff | appb/write-args.c:33-49 | over any old contents, the lines of the file are the arguments exactly when none contains a newline and the old file was not longer than the text |
| WriteArgs.BuildVector | appb/write-args.c:30-45 | the moving pointer fills the array with two entries for each argument, in order |
| WriteArgs.WriteArguments | appb/write-args.c:33-49 | the file's new contents, whose lines are the arguments exactly for arguments without '\n' (10) and an old file that was not longer; the first argument is followed by a 10 |

## Left out

- Drained: sufficient, not necessary; `LeftBehind` has the exact condition.
- WriteAllBytes: a descriptor that accepts 0 bytes for ever is not modelled; a plan is finite, and after it writes are complete.
- ComputePrime: for n < 1 the C loop ends only after `n` wraps around; such calls, and a `candidate` beyond 64 bits, are not modelled.
- SerialIff: amounts are not negative, as line 75 of ch04/critical-section.c draws them; which of the possible orders' results differ is not characterised.
- ConservesIff: complete runs only; a schedule that keeps a waiting thread spinning for ever is not one.
- Outcomes: starts with all threads created and takes `num_locks` >= 1; cancellation, destruction of the locked mutex and the joins after it are not modelled.
- InitJobs: its caller `RunPool` assumes malloc leaves NULL in `next`.
- ReadTempFile: only files that hold a complete length and at least that many bytes.
- The producer's message at ch04/semaphore-jobs.c:133-134, which reads the node after unlocking and possibly after it was freed.
- Printing, sleeping, clocks, random numbers, option parsing, and the initialisation threads of ch04/critical-section.c.
- Float rounding, data races and weak memory, cancellation states, and I/O failures outside appb/write-all.c.
- ch04/spin-condvar.c, ch04/trylock-example.c, ch02/tmpfile.c and the other programs: repeats of these or thin system-call wrappers.
