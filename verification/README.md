# Fleet manager: verified model

A Dafny 4.11 model of the fleet manager's orchestration core. Six state machines are
modelled and proved, and the places where they meet are proved as well.

The transitions are small functions that the theorems and the methods share. What each of
them means is stated once more on the columns and counters themselves (`HeadIsFirst`,
`Perform`, `AggregateCapIsSixTenths`, `AnswerFacts` and the like), so that no theorem rests
on a function's name.

* **Tasks** (`TaskRows`, `TaskProtocol`, `TaskStore`, `AccountGate`, `Batches`). Many workers
  share a table of task rows and a bag of queue jobs; a claim takes a row under a per-account lock,
  a finishing run hands the queue on, one sweep revives due DEFERRED rows and another
  revives orphans. `TaskProtocol` is a transition system in which everything that acts
  concurrently (queue jobs, runs at each of their phases, pending enqueues) is an agent,
  and every sequence of events is a run. `TaskStore` is the worker's code, method by
  method, proved to be a run of that protocol. Over all runs: `TaskProtocol` (row exclusion,
  FIFO), `WakeCoverage` and `QueueProgress` (no queue is silently stuck), `RunnerExclusion`
  (one live run per account, with crashes and recovery), `BlockedTasks` (a blocked task
  is parked boundedly often, the bound is reached, and nobody is buried early).
* **Budgets** (`Counters`, `Budgets`, `Gates`, `Limits`). An all-or-nothing consume over
  expiring counters, the pure stricter-of decision, the worker's two gates and the
  dashboard. Over all runs: `RateBound` (what a counter bounds), `FleetConservation` (the
  aggregate is the sum of its accounts), `DashboardPredicts` (exactly when the numbers on
  display, for writes and for reads, are what enforcement lets through), `SpendingRuns`
  (Telegram calls never outnumber the cap of a counter lifetime; the product of the task
  protocol, the gate and the call), `DailyCalls` (how many calls an account makes in any day).
* **Webhooks** (`Webhooks`, `WebhookRuns`). A retry chain with a second, independent re-driver.
* **Warm-up** (`WarmupRings`, `WarmupLadder`). Breadth-first ring detection on a growing
  graph, and the tier ladder.
* **Schedule** (`Schedule`, `ScheduleCache`, `CacheRuns`, `Openings`). Search for the next
  opening in local time, behind a bounded LRU cache, and when an announced opening comes true.
* **Configuration and provisioning** (`SafetyConfig`, `Provisioning`). A recursive key-wise
  merge, and the allocation of port slices.

Time is one integer clock in seconds. The spacing and the ceiling of blocked tasks are
deployment settings and stay open constants. Outcomes of code outside the model (Telegram,
HTTP, the database, the queue) are parameters or nondeterministic events.

## What the proofs show about the code

Where a promised property is false of the code, there is a concrete run that breaks it and
the condition under which it holds:

* The claim never looks at its own row again, and neither do the two deferrals written
  before it. The hand-off itself makes a second job for a row whose submission job is still
  queued (`HandOffMakesADuplicate`), and both jobs can run the row without any crash, lost
  enqueue or recovery (`DuplicateJobsCanBothRun`). A stale deferral makes a running row look
  idle, so that the next row of the account is claimed beside it
  (`StaleDeferralLetsTwoRun`). The runners of a run stay in order throughout if and only if no pre-claim write lands on a row that is
  being run (`AlwaysInOrderIff`); for that it is enough that no such write finds its row
  EXECUTING (`CalmRunsMissLiveRows`).
* The same gap lifts the bound on parkings. Duplicate jobs that all read a row before any of
  them writes it park it as often as there are jobs within one second
  (`StaleBlocksParkWithoutBound`). A single parking keeps the spacing if and only if it comes
  no sooner than k retries after the row's creation (`ParkingKeepsSpacingIff`); the bound
  holds for runs whose jobs respect the timeout and whose pre-claim writes find their row
  still QUEUED (`ParkingsAreBounded`).
* Orphan recovery enqueues the orphans, not the heads of their queues. For an account at
  rest behind an orphan, recovery wakes the queue if and only if no queued row outranks the
  orphan (`RecoveryWakesIffOrphanLeads`); such a stranded state is reachable
  (`RecoveryCanStrandAQueue`).
* A counter's expiry is set by its first unit only, so the daily cap bounds one counter
  lifetime, and a day can straddle two. When the counter shows v at the beginning of a day,
  that day holds at most the cap if v is 0 and 2 * cap - v otherwise (`DayIsBounded`), and
  for every history that much can be reached (`DayBoundIsReached`). So a day stays within
  the cap whatever is called in it if and only if the counter is absent or already full when
  it begins (`DayStaysWithinCapIff`): one peek tells. For arbitrary intervals the bound is
  twice the cap, and every cap reaches it (`TwiceTheCap`, `TwiceTheCapIsReached`). The
  Telegram calls of an account obey the same bound, with one more for a call that was paid
  and not yet made when the day began, and never exceed twice the cap (`CallsInADay`).
* The dashboard does not read the subnet counter. What it shows for a write is the smallest
  headroom if and only if that counter leaves as much (`ShownIsSmallestHeadroomIff`). An
  account on a proxy of its own always finds it so, because the two counters are born and
  spent together (`CountersStayTwinned`, `OwnProxyAllows`).
* The dashboard shows 0 for an action whose cap is not positive while the write gate stands
  aside, and 0 for an unconfigured read that the read gate does not limit. The exact
  conditions for display and gate to agree are `WriteGateMatchesIff` and
  `ReadGateMatchesIffConfigured`.
* 900 s is the exact slack that keeps the sweep and the retry chain apart: runs whose jobs
  finish within it of their due time never give a delivery two jobs, and with any more they
  can (`OneJobEachIff`; `OneSecondLaterIsTooLate` is the run). Promptness aside,
  the one step that gives a delivery a second job is a re-drive of a delivery that still has
  one (`StepKeepsOneJobIff`). The comment at webhook_redrive.py:43 bounds the window by the
  480 s backoff step, which no retry uses: the fifth attempt is the last, so the longest
  delay is 240 s.
* The loader promises that a bad config never crashes a worker (safety_config.py:88), but the
  promise covers only the reading of the file. The load crashes if and only if the document is
  not a dict, or its `rate_limit_profiles` puts a plain value at `conservative`
  (`LoadCrashesIff`).
* The ring check and the cooldown are exact at the moment of the insert
  (`InsertKeepsAcyclicIff`, `InsertKeepsCoolingIff`), but nothing holds the pair table between
  a selection and its insert. Two selections on the same table can close a ring together
  (`InterleavedSelectionsCloseARing`), and two selections of one pair break the 48 hours while
  the graph stays acyclic (`InterleavedSelectionsBreakTheCooldown`). However selections and
  inserts interleave, the table stays in order throughout if and only if every pair is still
  eligible when it is inserted (`AnyInterleavingIff`); one selection and insert at a time
  always is (`PairGraphStaysADag`).
* The search for the next opening uses the week in which it is asked, also for days of the
  next week, which is drawn anew with its own rest days, start and end. The announced
  opening finds the account active if and only if an override is running or the new week
  works that weekday in a window that covers the announced minute (`OpeningIsHonouredIff`),
  hence always within the week (`OpeningIsHonoured`). Over the week's end it can fail by a
  new rest day (`NewRestDayBreaksAnOpening`) or by a later start alone
  (`LaterStartBreaksAnOpening`). Nor need it be the first active instant: where the old week
  rests and the new one works, the account is active a day earlier (`AnnouncedADayLate`).
  `AnnouncedIsFirstIff` says exactly when it is the first.
* An override is lost exactly when, at some moment since, MAX other ids had been touched since
  the id's last touch, and nobody has re-opened it (`OverrideIsKeptIffHeld`).
* A closed account whose opening hour is not a time of day (0 to 23) makes the search raise,
  and with it the gate; the job dies, its row stays QUEUED and nobody is sent for it
  (`NextOpen`, `AccountGate.Ask`, `RunTask`). For the wake theorems that is a killed job.
* The task is put off, rather than parked as blocked, whenever the account is off hours or
  flooded, even if it is banned or asleep (`AccountGate.Ask`). The comment at
  base_task.py:396 mentions only the blocked branch.
* The gate reads the clock again after it has refused. An account that may act is taken for
  blocked exactly when its flood ends or its window opens between the two readings, and then
  a task older than the ceiling is failed (`AccountGate.Ask`).
* An exception between the claim and the action, in a budget gate for instance, leaves the row
  EXECUTING with no hand-off until orphan recovery; a cancelled action reaches the hand-off,
  which finds the account's own row EXECUTING and enqueues nothing (`RunTask`).

## Model

| member | source | states |
|---|---|---|
| TaskRows.BestOf | fleet_manager/app/workers/base_task.py:168-170 | the arrival order is total on a table: every non-empty set of rows has a row that outranks all others |
| TaskRows.HeadExists | fleet_manager/app/workers/base_task.py:164-171 | an account with a queued row has a queue head |
| TaskRows.HeadIsUnique | fleet_manager/app/workers/base_task.py:168-170 | the order has no ties: there are never two heads |
| TaskRows.HeadIsFirst | fleet_manager/app/workers/base_task.py:189-196 | in terms of the columns: a row heads its queue if and only if it is QUEUED and every other QUEUED row of the account has a lower priority, or the same priority and a later created_at, or both the same and a larger id |
| TaskProtocol.RowsInOrderStep | fleet_manager/app/workers/base_task.py:143-179 | no step, enabled or not, makes a second EXECUTING row for an account or a DEFERRED row without a deadline |
| TaskProtocol.RowExclusion | fleet_manager/app/workers/base_task.py:143-198 | over every run, with duplicate jobs, stale writes, crashes, sweeps and recovery, an account never has two EXECUTING rows |
| TaskProtocol.ClaimIsFifo | fleet_manager/app/workers/base_task.py:156-179 | a claim that takes a QUEUED row takes the unique queue head of its account, and nothing of the account was executing |
| TaskProtocol.ClaimTakesTheFirstSubmitted | fleet_manager/app/workers/base_task.py:156-179 | over every run, in terms of the submissions: when a claim takes a QUEUED row, every other QUEUED row of the account was submitted with a lower priority, or with the same priority at a later instant, or with the same priority at the same instant and a larger id |
| TaskProtocol.RowsAreSubmissions | fleet_manager/app/api/v1/actions.py:241-251 | over every run each row was submitted, and its account, priority and created_at are still those of its submission |
| TaskProtocol.SubmissionsAndSweeps | fleet_manager/app/workers/recovery.py:36-96 | the columns a submission and the two sweeps write, which rows they may take, and the queue job that goes with each |
| TaskProtocol.TasksKnownStep | fleet_manager/app/workers/base_task.py:374-380 | rows never disappear or change account or type, and no job names a row that does not exist |
| WakeCoverage.HeadStaysCovered | fleet_manager/app/workers/base_task.py:399-407 | whatever smooth step is taken, the queue head after it has an agent on its way to it, a live run of its account, or an outranking DEFERRED row |
| WakeCoverage.AwakeStep | fleet_manager/app/workers/base_task.py:655-656 | the wake invariant is preserved by every smooth step |
| WakeCoverage.NoQueueIsStuck | fleet_manager/app/workers/base_task.py:659-705 | in every reachable state of a run without crashes, lost enqueues and orphan recovery, every queue head is covered and every EXECUTING row is being run |
| WakeCoverage.RestingQueueHasDeadline | fleet_manager/app/workers/recovery.py:70-96 | when every agent has come to rest, remaining queued work waits behind an outranking DEFERRED row of its account that has a deadline |
| WakeCoverage.RecoveryWakesIffOrphanLeads | fleet_manager/app/workers/recovery.py:61-64 | for an account at rest behind an orphan, recovery leaves a covered queue head if and only if no queued row outranks the orphan |
| WakeCoverage.RecoveryCanStrandAQueue | fleet_manager/app/workers/recovery.py:52-64 | a run from the empty state after which two rows are QUEUED, none is DEFERRED and nobody is on the way |
| QueueProgress.QueuedWorkCanMoveOn | fleet_manager/app/workers/base_task.py:181-198 | from every reachable state of a smooth run with queued work there is a continuation, without submissions, crashes or recovery, in which a waiting row of that account is run or completed |
| QueueProgress.Drive | fleet_manager/app/workers/base_task.py:374-407 | an agent carrying the head of an idle account's queue gets it claimed by its own steps alone |
| QueueProgress.DriveElder | fleet_manager/app/workers/recovery.py:70-96 | a DEFERRED row that outranks the head can be waited for, revived and claimed |
| QueueProgress.DriveRunning | fleet_manager/app/workers/base_task.py:655-656 | a live run that finishes gets the queue's head its turn |
| RunnerExclusion.StepKeepsRunnersIff | fleet_manager/app/workers/base_task.py:143-179 | a step that respects the job timeout keeps "one live runner per account, each on its own EXECUTING row" if and only if it is not a pre-claim write onto a row being run |
| RunnerExclusion.ClaimFindsAccountFree | fleet_manager/app/workers/base_task.py:160-174 | a claim that passes, other than onto a row being run, finds no live runner of the account |
| RunnerExclusion.AlwaysInOrderIff | fleet_manager/app/workers/base_task.py:143-179 | over all runs whose jobs respect the 600 s timeout, with crashes, recovery and duplicate jobs: the invariant holds after every prefix if and only if no pre-claim write ever lands on a row being run |
| RunnerExclusion.RunnerExclusion | fleet_manager/app/workers/arq_settings.py:122 | in every such run, given the timeout and that pre-claim writes miss running rows, at most one live runner per account |
| TaskProtocol.ClockStartsAtPick | fleet_manager/app/workers/arq_settings.py:122 | the clock of the timeout starts when a job is picked up and finds its row QUEUED, and no later step of the job moves it |
| RunnerExclusion.JobsLastTenMinutes | fleet_manager/app/workers/arq_settings.py:122 | in every run whose jobs respect the timeout nobody is at work for more than 600 s |
| RunnerExclusion.TenMinutesAreReached | fleet_manager/app/workers/arq_settings.py:122 | and such a run has a job at work for 600 s |
| RunnerExclusion.CalmRunsMissLiveRows | fleet_manager/app/workers/base_task.py:379-406 | it is enough that no pre-claim write finds its row EXECUTING |
| RunnerExclusion.LiveRowsAreNeverRecovered | fleet_manager/app/workers/recovery.py:24-50 | under the same two hypotheses the 900 s lease outlasts the 600 s timeout: orphan recovery is never enabled on a row that is being run |
| RunnerExclusion.HandOffMakesADuplicate | fleet_manager/app/workers/base_task.py:655-656 | a run with no crash, lost enqueue, recovery or job from outside after which two jobs have read one row as QUEUED: the hand-off enqueued it while its submission job was still queued |
| RunnerExclusion.DuplicateJobsCanBothRun | fleet_manager/app/workers/base_task.py:164-179 | such a run in which both go on to run that row |
| RunnerExclusion.StaleDeferralLetsTwoRun | fleet_manager/app/workers/base_task.py:391-395 | such a run in which one defers the row the other is running, and the next row of the account is claimed beside it: two live runners on two rows |
| BlockedTasks.SpacedStep | fleet_manager/app/workers/base_task.py:694-698 | a step with runners in order and a fresh pre-claim write keeps this: after k parkings the row is hidden until k spacings after its creation, or that instant has passed |
| BlockedTasks.ParkingKeepsSpacingIff | fleet_manager/app/workers/base_task.py:694-698 | a parking, fresh or stale, keeps the spacing of k + 1 parkings if and only if k retries have passed since the creation of the row |
| BlockedTasks.ParkingsAreBounded | fleet_manager/app/workers/base_task.py:675-705 | any run in which jobs respect the timeout (`Timely`) and every pre-claim write finds its row still QUEUED (`Fresh`) parks a task at most ceil(ceiling / spacing) times, for every positive spacing and every ceiling; 72 with the defaults |
| BlockedTasks.BoundIsReached | fleet_manager/app/workers/base_task.py:675-705 | that bound is attained: for every positive spacing and every ceiling there is such a run that parks one task exactly that often |
| BlockedTasks.BlockBuriesIffCeilingPassed | fleet_manager/app/workers/base_task.py:675-698 | over every run a blocked row becomes FAILED if and only if the ceiling has passed since the instant of its submission; otherwise it is DEFERRED until exactly one spacing from now, and in both cases nothing but status, deadline and error code is written |
| BlockedTasks.NextBlockBuries | fleet_manager/app/workers/base_task.py:676-679 | in any such run (`Timely` and `Fresh`), once a task is parked that often the next block of its QUEUED row makes it FAILED with ACCOUNT_BLOCKED |
| BlockedTasks.StaleBlocksParkWithoutBound | fleet_manager/app/workers/base_task.py:374-397 | without freshness, for every n a run that respects the timeout parks one task n times within one second |
| TaskStore.Store.SelectHead | fleet_manager/app/workers/base_task.py:189-196 | the query returns the QUEUED row of highest priority, then earliest created_at, then smallest id, or nothing exactly when nothing is queued |
| TaskStore.Store.ClaimForExecution | fleet_manager/app/workers/base_task.py:144-179 | claims exactly when nothing else of the account executes and every other QUEUED row of the account comes after this one in (priority desc, created_at, id), this one being QUEUED if there is any; then status and started_at of that row change and nothing else |
| TaskStore.Store.EnqueueNext | fleet_manager/app/workers/base_task.py:182-198 | adds one job exactly when the account is idle, has a QUEUED row and there is a queue, and the job names the row that comes first in (priority desc, created_at, id) |
| TaskStore.Store.DeferOrFailBlocked | fleet_manager/app/workers/base_task.py:659-705 | FAILED exactly when the ceiling has passed since created_at, otherwise DEFERRED until one spacing from now; the queue is handed on in both cases |
| TaskStore.Store.RotateProxyAndDefer | fleet_manager/app/workers/base_task.py:708-761 | the whole row write of a failed connection: FAILED without a proxy, quick retry or long cooldown with a counter reset otherwise |
| TaskStore.Store.Perform | fleet_manager/app/workers/base_task.py:409-656 | what follows a claim, on the columns: COMPLETE if and only if the action succeeded, FAILED with its own code if and only if one of the terminal failures occurred, DEFERRED until the flood's end or one hour ahead or for a rotation, EXECUTING if and only if the job died; no other row and no other column changes |
| TaskStore.Store.RunTask | fleet_manager/app/workers/base_task.py:357-656 | one run end to end, also when the gate raises or the job dies after its claim: for a claim that passes the columns of every outcome as in `Perform`, no change at all for one that is refused, every other row unchanged, and exactly which jobs are added |
| TaskStore.Store.RecoverOrphanedTasks | fleet_manager/app/workers/recovery.py:36-67 | exactly the EXECUTING rows started more than 900 s ago go back to QUEUED without a start, each is enqueued once, a failing enqueue is skipped |
| TaskStore.Store.ReenqueueDueDeferred | fleet_manager/app/workers/recovery.py:70-96 | takes a batch of the due, unlocked rows by priority and age up to the limit, moves exactly these back to QUEUED and enqueues them in that order; a failing enqueue is skipped |
| Batches.SelectBatch | fleet_manager/app/workers/recovery.py:72-80 | the query with ORDER BY and LIMIT: at most the limit, in order, and nothing left out that comes before something returned |
| Batches.SucceedingFacts | fleet_manager/app/workers/recovery.py:90-96 | exactly the ids whose enqueue did not fail are queued, none twice |
| TaskStore.RunIsAProtocolRun | fleet_manager/app/workers/base_task.py:357-656 | left alone, a job takes the protocol through named events to the same rows and the same next job as `RunTask`, for every gate answer and every result, so what is proved of protocol runs holds of the worker's code |
| TaskStore.BulkRecoveryIsOneByOne | fleet_manager/app/workers/recovery.py:52-57 | the bulk update equals recovering the orphans one by one in any order, so the protocol may take them singly |
| TaskStore.SeventhFailureCoolsDown | fleet_manager/app/workers/base_task.py:726-740 | over any number of failed connections every seventh waits for the long cooldown and the six in between are quick retries |
| AccountGate.Account.Prepare | fleet_manager/app/workers/base_task.py:38-118 | runnable exactly when usable, not rejected, not flooded and inside hours; raises exactly when it gets to the hours and the search raises; a usable account that is rejected is put to sleep; the schedule is looked at only if the earlier tests pass |
| AccountGate.Account.ComputeDeferUntil | fleet_manager/app/workers/base_task.py:121-128 | the flood's end without a look at the schedule, otherwise the next opening exactly when off hours, or the search raises |
| AccountGate.Account.CheckHours | fleet_manager/app/services/working_hours.py:22-30 | active, or the next opening, or raises, exactly as the schedule says; asking twice costs the cache one look |
| AccountGate.Ask | fleet_manager/app/workers/base_task.py:382-397 | with the two readings of the clock, exactly one of four answers: runnable, put off (always to a later instant), unavailable (which needs an open window and no flood at the second reading, and with one reading an account that may not act), or raised |
| AccountGate.DeferralsLieAhead | fleet_manager/app/workers/base_task.py:391-445 | no deferral a run writes is already due, so the sweep never revives it at once |
| Counters.ConsumeAllOnce | fleet_manager/app/db/redis_client.py:74-80 | distinct keys are each incremented exactly once and no other counter moves |
| Counters.UntouchedUntilItsTurn | fleet_manager/app/db/redis_client.py:74-80 | the increment loop finds each counter as the check loop saw it |
| Counters.Redis.BudgetConsume | fleet_manager/app/db/redis_client.py:64-100 | all or nothing: one unit from every counter if all have headroom, otherwise nothing, the first refusing index, and the exact remainders on success |
| Counters.Redis.RateLimitIncrement | fleet_manager/app/db/redis_client.py:39-45 | one more than a reader saw; the expiry of a counter in progress is kept, a new one expires ttl from now, and no other counter moves |
| Counters.Redis.PeekMany | fleet_manager/app/db/redis_client.py:123-154 | value and remaining seconds of every key in order, nothing for an expired counter, and no counter changes |
| RateBound.OneLifetime | fleet_manager/app/db/redis_client.py:64-82 | over all runs a stored counter equals the units spent since its birth, at most the cap, and none are spent after its expiry without a new birth |
| RateBound.CounterMoves | fleet_manager/app/db/redis_client.py:64-82 | a call moves a counter by one unit below its cap or not at all |
| RateBound.TwiceTheCap | fleet_manager/app/db/redis_client.py:85-100 | in any interval of ttl seconds at most 2 * cap units of one counter are consumed |
| RateBound.TwiceTheCapIsReached | fleet_manager/app/db/redis_client.py:75-78 | the factor two is attained for every cap: that many units at 0 and again at ttl |
| RateBound.DayIsBounded | fleet_manager/app/db/redis_client.py:64-82 | when the counter shows v at the beginning of a day of ttl seconds, the day holds at most cap units if v is 0 and 2 * cap - v otherwise |
| RateBound.DayBoundIsReached | fleet_manager/app/db/redis_client.py:75-78 | for every history there is a continuation within the day that reaches that bound |
| RateBound.DayStaysWithinCapIff | fleet_manager/app/db/redis_client.py:85-100 | every continuation keeps the day within the cap if and only if the counter is absent or full when the day begins |
| SafetyConfig.MergedLeaves | fleet_manager/app/core/safety_config.py:56-75 | on arbitrary nested maps a leaf of the merge is a leaf of the override, or a base leaf the override is silent about; nothing else |
| SafetyConfig.MergeIsIdempotent | fleet_manager/app/core/safety_config.py:56-75 | applying an override again changes nothing |
| SafetyConfig.LoadFromDisk | fleet_manager/app/core/safety_config.py:78-126 | the load for a missing, unreadable, non-dict or dict document, with the section merge and the conservative binding |
| SafetyConfig.LoadCrashesIff | fleet_manager/app/core/safety_config.py:83-125 | the load crashes if and only if the document is not a dict or puts a plain value where the conservative table was |
| SafetyConfig.ConservativeIsRateLimits | fleet_manager/app/core/safety_config.py:106-125 | after any load every number under rate_limits stands at the same path under conservative |
| SafetyConfig.RateLimitsAreEnforced | fleet_manager/app/core/safety_config.py:169-173 | a cap written under rate_limits is the cap looked up for conservative and for any profile without a table |
| SafetyConfig.ProfileLeaves | fleet_manager/app/core/safety_config.py:91-125 | after a load a profile other than conservative holds exactly the operator's numbers and the defaults the operator did not mention; conservative holds the numbers of rate_limits and, where those are silent, its own |
| SafetyConfig.OwnTableIsEnforced | fleet_manager/app/core/safety_config.py:169-173 | a profile with a table of its own is enforced from that table alone: what it lacks is 0 and not looked up under conservative |
| SafetyConfig.NoTableFallsBack | fleet_manager/app/core/safety_config.py:169-173 | a profile without a table, or with an empty one, is enforced exactly as conservative is |
| Gates.RateLimitsBindTheWorker | fleet_manager/app/workers/base_task.py:331 | from the file to the worker: after a load a number under rate_limits is the cap of the worker's write gate |
| SafetyConfig.SectionLeaves | fleet_manager/app/core/safety_config.py:91-105 | after a load the numbers of a section are exactly the operator's and the defaults the operator did not mention |
| SafetyConfig.Cache.EnsureLoaded | fleet_manager/app/core/safety_config.py:129-135 | loads once, then answers from the cache whatever the file says |
| SafetyConfig.Cache.Reload | fleet_manager/app/core/safety_config.py:138-144 | a failing reload keeps the previous config |
| Budgets.AggregateCapBetween | fleet_manager/app/services/budget.py:67-75 | the aggregate cap lies between one account's cap and all of them together, strictly below as soon as two share it, and equals the cap for one |
| Budgets.AggregateCapIsSixTenths | fleet_manager/app/services/budget.py:67-75 | for every cap p >= 0 and m members the aggregate cap is the larger of p and the integer nearest to 6 p m / 10 |
| Budgets.PremiumDoubles | fleet_manager/app/services/budget.py:29-41 | the premium cap is twice the plain one, or the ceiling where that is less |
| Budgets.DecideIsStricterOf | fleet_manager/app/services/budget.py:52-64 | allowed if and only if every headroom is positive; a refusal names the account first; the aggregate binds an allowed call if and only if it leaves less than the account |
| Budgets.CheckAndConsume | fleet_manager/app/services/budget.py:78-140 | for a positive cap: allowed if and only if the account's counter is below its cap and, for a sensitive action, both aggregate counters are below theirs; which budget refuses and which binds, on the counter values; one unit from every counter if allowed and none otherwise |
| FleetConservation.AggregateIsTheSum | fleet_manager/app/services/budget.py:108-126 | in any expiry-free run the counter of (api_id, use_case, action) equals the sum of its accounts' counters |
| FleetConservation.AggregateStaysUnderItsCap | fleet_manager/app/services/budget.py:114-116 | in any such run that counter never exceeds its aggregate cap |
| FleetConservation.FleetIsThrottled | fleet_manager/app/services/budget.py:67-75 | the accounts of one credential together spend at most p units, or at most six tenths of p m rounded to the nearest integer, and strictly less than p m once two share it |
| FleetConservation.ChargeMoves | fleet_manager/app/services/budget.py:121-126 | a call changes a counter by one if it passes and names it, otherwise not at all |
| Gates.ReadBudgetExceeded | fleet_manager/app/workers/base_task.py:216-232 | refuses exactly when a non-zero cap is configured and the counter has reached it; adds one unit for refused reads too, in a window of 86400 s, and none when unconfigured; without redis refuses and charges nothing |
| Gates.ConsumeWriteBudget | fleet_manager/app/workers/base_task.py:314-354 | stands aside exactly without redis, for unbudgeted types and for non-positive caps, otherwise gives the pure decision; a refusal moves no counter, an allowed call adds one unit to the account's counter and, unless it is a reaction, to the two it shares, each lasting 86400 s from its first unit |
| Gates.BudgetedTasks | fleet_manager/app/workers/base_task.py:238-243 | exactly four task types are budgeted, each by an action of its own, and all but reactions are budgeted per credential and subnet too |
| Limits.GetLimits | fleet_manager/app/api/v1/limits.py:72-213 | an account is in the answer, as often as in the table, if and only if nothing was requested or its id was, in ascending order of ids; missing lists each requested id without a row once, in the order of first request; every view is that of the account's counters; nothing is spent |
| Limits.SelectedRows | fleet_manager/app/api/v1/limits.py:90-94 | the query keeps exactly the rows asked for, with their multiplicity |
| Limits.ViewShowsCounters | fleet_manager/app/api/v1/limits.py:142-200 | every number shown is read off a live counter: cap, used, non-negative remaining and seconds to reset of the account's own and of the shared one, the latter for sensitive actions only |
| Limits.EveryBudgetIsShown | fleet_manager/app/api/v1/limits.py:101-104 | the actions on display as writes are exactly the ones the worker budgets |
| Limits.UniqueInOrder | fleet_manager/app/api/v1/limits.py:82-83 | dropping duplicates keeps every id at the place of its first request |
| Limits.SortedByIdFacts | fleet_manager/app/api/v1/limits.py:92-94 | sorting by id keeps exactly the selected rows |
| Limits.PlanAccount | fleet_manager/app/api/v1/limits.py:106-133 | every key an account's actions need is listed, no key twice |
| Limits.UniqueFacts | fleet_manager/app/api/v1/limits.py:82-83 | dropping duplicates loses no requested id, keeps none twice and turns only an empty request into "all accounts" |
| Limits.SameSelection | fleet_manager/app/api/v1/limits.py:90-92 | dropping duplicates from the request does not change which accounts are selected |
| DashboardPredicts.ShownIsSmallestHeadroomIff | fleet_manager/app/api/v1/limits.py:142-194 | the number shown for a write is the smallest headroom of the call's budgets if and only if the subnet counter leaves as much, for every account and action |
| DashboardPredicts.ShownBindingIsEnforced | fleet_manager/app/api/v1/limits.py:185-200 | then the binding shown is the one enforcement gives |
| DashboardPredicts.ExactlyTheHeadroomPasses | fleet_manager/app/services/budget.py:102-140 | of the consumes an account makes at any instants of the quiet period exactly the first n pass, n being the smallest headroom at its start; all later ones are refused |
| DashboardPredicts.ExactlyTheShownNumberPasses | fleet_manager/app/services/budget.py:102-140 | with a positive cap and a subnet counter that leaves as much, the n shown for a write are the next n that pass, and every later one is refused |
| DashboardPredicts.WriteGateMatchesIff | fleet_manager/app/workers/base_task.py:331-354 | display 0 and refusal by the write gate coincide if and only if the cap is positive and the subnet counter is not exhausted before the displayed ones |
| DashboardPredicts.CountersStayTwinned | fleet_manager/app/services/budget.py:108-126 | over every run in which nobody else charges an account's proxy, the two counters stay the same, expiries included |
| DashboardPredicts.OwnProxyAllows | fleet_manager/app/workers/base_task.py:347 | so for such an account the subnet counter always leaves what is shown |
| DashboardPredicts.ExactlyTheShownReadsPass | fleet_manager/app/workers/base_task.py:216-232 | for a capped read, the n shown are the next n that pass at whatever instants of the quiet period, and every later one is refused although refused reads are charged too |
| DashboardPredicts.ReadGateMatchesIffConfigured | fleet_manager/app/workers/base_task.py:228-232 | at the instant of the snapshot, display 0 and refusal by the read gate coincide if and only if the read has a cap |
| SpendingRuns.GateIsTheWriteGate | fleet_manager/app/workers/base_task.py:437-443 | the gate step of the spending runs leaves the counters, and waves through, sells to or refuses the same runs, as the worker's write gate |
| SpendingRuns.EveryRunIsSound | fleet_manager/app/workers/base_task.py:437-491 | over all runs each paid call has its own unit and a lifetime's ledger holds at most the cap |
| SpendingRuns.CallsNeverExceedTheCap | fleet_manager/app/workers/base_task.py:437-491 | with deferrals, crashes and recovered re-runs, an account with a positive cap makes no unpaid call, and the calls paid from one counter lifetime never exceed its units, hence its cap |
| SpendingRuns.CallsDuringALifetime | fleet_manager/app/workers/base_task.py:485-488 | with runner exclusion, also the calls made while one lifetime runs never exceed the cap |
| SpendingRuns.LedgerStep | fleet_manager/app/db/redis_client.py:64-82 | every step keeps the stored counter equal to the units sold in its lifetime |
| DailyCalls.UnitsInADay | fleet_manager/app/db/redis_client.py:64-82 | between any two moments of a run less than a day apart the units bought from one counter follow what it showed at the first |
| DailyCalls.BalanceNeverGrows | fleet_manager/app/workers/base_task.py:437-491 | in disciplined runs every call is paid by a unit bought since, or by the one unit an account can hold |
| DailyCalls.CallsInADay | fleet_manager/app/workers/base_task.py:437-491 | between any two such moments an account makes at most as many calls as its counter can pay for in that day and one more if a paid run was about to call, never more than twice its cap |
| Webhooks.Outbox.EnqueueWebhook | fleet_manager/app/services/webhook_queue.py:76-104 | the row always survives; the job is added exactly when the pool and the enqueue work; any failure drops the pool |
| Webhooks.Outbox.DeliverWebhook | fleet_manager/app/workers/deliver_webhook.py:28-74 | delivered rows are untouched; otherwise one attempt is recorded: DELIVERED if and only if the POST succeeded, FAILED if and only if it was the fifth and failed, else PENDING with one retry queued for next_attempt_at |
| Webhooks.Outbox.RedrivePending | fleet_manager/app/workers/webhook_redrive.py:49-93 | takes the oldest pending, unlocked rows with attempts left that are 900 s past their next attempt (or creation), up to the limit; reports, queues and re-dates by 900 s exactly those whose enqueue works; a failing enqueue neither touches its row nor stops the sweep |
| Webhooks.DelaysDouble | fleet_manager/app/workers/deliver_webhook.py:22-25 | 30 seconds after the first attempt, twice the delay after every further one up to the fifth, and no more from there |
| WebhookRuns.StepWrites | fleet_manager/app/workers/deliver_webhook.py:28-74 | the columns and the jobs every event of the delivery runs writes |
| WebhookRuns.InOrderStep | fleet_manager/app/workers/webhook_redrive.py:57-70 | retries and re-drives never meet: every step keeps one job per delivery, due no later than its row's clock |
| WebhookRuns.RetrySafety | fleet_manager/app/workers/deliver_webhook.py:28-74 | over all timed runs a delivery never has two outstanding jobs and is POSTed at most five times |
| WebhookRuns.NoPostAfterTheEnd | fleet_manager/app/workers/deliver_webhook.py:36-50 | a delivery that was delivered or given up is never POSTed again |
| WebhookRuns.StrandedMeansUnheld | fleet_manager/app/workers/webhook_redrive.py:60-70 | a row the sweep selects has no job left that would retry it |
| WebhookRuns.OneSecondLaterIsTooLate | fleet_manager/app/workers/webhook_redrive.py:43-46 | with one second more the delivery can have two jobs |
| WebhookRuns.OneJobEachIff | fleet_manager/app/workers/webhook_redrive.py:43-46 | all runs whose jobs finish within a slack of their due time keep one job per delivery if and only if the slack is at most 900 s |
| WebhookRuns.StepKeepsOneJobIff | fleet_manager/app/workers/webhook_redrive.py:81-88 | promptness aside, a step keeps one job per delivery if and only if it is not a queued re-drive of a delivery that has a job |
| WarmupRings.WouldFormRing | fleet_manager/app/services/warmup.py:136-160 | the search terminates and answers true if and only if the target reaches the source |
| WarmupRings.AppendNeighbours | fleet_manager/app/services/warmup.py:152-158 | a round leaves no neighbour of the current account out of both the visited set and the queue |
| WarmupRings.SelectCrossPair | fleet_manager/app/services/warmup.py:101-134 | the first account of the pool that is not cooling, not the source and closes no ring; none exactly when there is none |
| WarmupRings.Pipeline.ScheduleCrossMessage | fleet_manager/app/services/warmup.py:203-218 | the pair is on cooldown for exactly 48 hours, the graph gains exactly one edge and stays acyclic if and only if the target does not reach the source, and repeated pairs stay 48 hours apart if and only if this one has cooled down |
| WarmupRings.Pipeline.PairUp | fleet_manager/app/services/warmup.py:101-218 | a selection and its insert are one step of the runs below and keep the graph a DAG and the cooldown respected; without an eligible target nothing changes |
| WarmupRings.InsertKeepsAcyclic | fleet_manager/app/services/warmup.py:129-132 | inserting a pair whose target does not reach its source keeps the graph acyclic |
| WarmupRings.InsertKeepsAcyclicIff | fleet_manager/app/services/warmup.py:129-132 | the ring check is exact: an insert keeps the graph acyclic if and only if the target does not reach the source at that moment |
| WarmupRings.InterleavedSelectionsCloseARing | fleet_manager/app/services/warmup.py:203-218 | two selections made on one table before either insert can close a ring together |
| WarmupRings.InsertKeepsCoolingIff | fleet_manager/app/services/warmup.py:112-124 | the 48 hours are kept by an insert if and only if the pair has cooled down at that moment |
| WarmupRings.InterleavedSelectionsBreakTheCooldown | fleet_manager/app/services/warmup.py:203-218 | two selections of one pair before either insert leave an acyclic table with equal pairs 0 s apart |
| WarmupRings.AnyInterleavingIff | fleet_manager/app/services/warmup.py:101-218 | over every sequence of inserts, whenever they were selected, the table is a DAG with the 48 hours kept throughout if and only if each pair is still eligible when it is inserted |
| WarmupRings.Detour | fleet_manager/app/services/warmup.py:136-160 | a path of the enlarged graph is a path of the old one or passes through the new pair |
| WarmupRings.PairGraphStaysADag | fleet_manager/app/services/warmup.py:101-218 | after any sequence of select-then-insert steps, one at a time, the graph is a DAG and two pairs with the same endpoints are at least 48 hours apart |
| WarmupLadder.CumulativeDays | fleet_manager/app/services/warmup.py:17-28 | the sum of the days of all tiers up to and including the given one |
| WarmupLadder.DaysToServe | fleet_manager/app/services/warmup.py:17-28 | tier by tier: the days of fresh, of fresh and basic, of fresh, basic and intermediate |
| WarmupLadder.Account.AdvanceTierIfDue | fleet_manager/app/services/warmup.py:36-99 | moves up exactly one tier exactly when the days of all tiers so far are served, and turns active at the last |
| WarmupLadder.RunWarmupTick | fleet_manager/app/services/warmup.py:233-286 | every account of the batch is ticked exactly once, none affects another |
| WarmupLadder.TickKeepsLadder | fleet_manager/app/services/warmup.py:269-281 | a tick never lowers day or tier and climbs at most one tier |
| WarmupLadder.TickClimbsIffServed | fleet_manager/app/services/warmup.py:36-99 | a tick sets the day to the whole days elapsed if that is more, and climbs one tier if and only if the days of all tiers so far are then served |
| WarmupLadder.LadderIsClimbed | fleet_manager/app/services/warmup.py:52-57 | over any ticks from fresh, no tier is held before warmup_day reaches the days of all earlier tiers, and nothing is lost between two points of the run |
| WarmupLadder.NoTierBeforeItsDays | fleet_manager/app/services/warmup.py:270-277 | in real time: whoever stands on a tier was created at least that many days ago |
| WarmupLadder.LadderIsFinished | fleet_manager/app/services/warmup.py:233-286 | and no later: ticked when the days of each tier have passed since its creation, a fresh account climbs with every tick and is active after the third |
| Schedule.NextOpen | fleet_manager/app/services/schedule_service.py:201-222 | nothing exactly when active; raises exactly when closed, working some day and without a valid opening time; otherwise strictly later, on a working day at the window's start, with no working instant of this week's schedule before it; inside the schedule exactly when the window is not empty; the one-day fallback exactly when all weekdays rest |
| Schedule.NothingOpenBefore | fleet_manager/app/services/schedule_service.py:212-221 | the first opening that was not passed over has no working instant before it |
| Schedule.SevenRestDays | fleet_manager/app/services/schedule_service.py:212-222 | a search that finds seven rest days in a row has only rest days |
| Schedule.OpeningIsNear | fleet_manager/app/services/schedule_service.py:212-221 | with at most two rest days the next opening is less than four days away |
| ScheduleCache.GeneratedAlwaysWorksSomeDay | fleet_manager/app/services/schedule_service.py:108-134 | a generated schedule has a working day, so the fallback is never reached, and unpinned its window is open within 9:00 to 22:00 |
| ScheduleCache.PinnedHoursAreKept | fleet_manager/app/services/schedule_service.py:87-134 | pinned hours are kept on the hour, a pinned full day never rests, and what is not pinned lies in the drawn ranges with one or two rest days |
| ScheduleCache.SeedsStep | fleet_manager/app/services/schedule_service.py:142-150 | neighbouring weeks and neighbouring accounts get different seeds, one and 1,000,003 apart modulo 2^31 |
| ScheduleCache.StoredOk | fleet_manager/app/services/schedule_service.py:155-162 | storing keeps the order a duplicate-free list of the keys within the bound and disturbs no other entry |
| ScheduleCache.ScheduleService.Store | fleet_manager/app/services/schedule_service.py:155-162 | insert, move to end and evict: the id is the most recent, at most the oldest leaves |
| ScheduleCache.ScheduleService.Get | fleet_manager/app/services/schedule_service.py:164-179 | this week's cached schedule, or a regenerated one that keeps the override |
| ScheduleCache.ScheduleService.ShouldBeActive | fleet_manager/app/services/schedule_service.py:188-199 | active exactly under a running override or inside the local window of a working day |
| ScheduleCache.ScheduleService.NextOpening | fleet_manager/app/services/schedule_service.py:201-222 | through the cache: nothing exactly when active, otherwise the next opening of the answered schedule, or raises for want of an opening time; two looks cost the cache one |
| ScheduleCache.ScheduleService.OpenDmOverride | fleet_manager/app/services/schedule_service.py:224-230 | the account's schedule is stored again with the override set |
| CacheRuns.OrderIsRecency | fleet_manager/app/services/schedule_service.py:155-173 | over all runs the cached ids are the MAX most recently touched distinct ids, in touch order |
| CacheRuns.Residency | fleet_manager/app/services/schedule_service.py:161-162 | an id is cached if and only if it was touched and fewer than MAX other ids were touched since |
| CacheRuns.OverrideIsKeptIffHeld | fleet_manager/app/services/schedule_service.py:174-178 | over all later operations the override is stored if and only if at every moment since fewer than MAX other ids had been touched since the last touch of the id, or it was re-opened; once lost there is none |
| CacheRuns.OverrideSurvivesIff | fleet_manager/app/services/schedule_service.py:224-230 | during its 20 minutes, across a week rollover too, the account is active if and only if the override is held or the schedule works anyway |
| CacheRuns.OverrideSurvives | fleet_manager/app/services/schedule_service.py:224-230 | in particular it is active for the whole 20 minutes unless MAX other ids were touched since |
| CacheRuns.OverrideEnds | fleet_manager/app/services/schedule_service.py:188-199 | and from the twentieth minute on, unless it was opened again, the account is active if and only if its week works |
| CacheRuns.CacheIsTransparent | fleet_manager/app/services/schedule_service.py:142-179 | after any operations a look-up shows the window and rest days of fresh deterministic generation for this id and week |
| Openings.SearchAnnounces | fleet_manager/app/services/schedule_service.py:201-221 | after any operations the service announces exactly what the schedule generated for the current week announces |
| Openings.OpeningWorksIff | fleet_manager/app/services/schedule_service.py:201-222 | whatever the weeks are: an announced opening is a working instant if and only if the schedule of its own week works that weekday in a window covering the announced minute, hence always within the same week |
| Openings.OpeningIsHonouredIff | fleet_manager/app/services/schedule_service.py:201-222 | an announced opening finds the account active, whatever happened to the cache in between, if and only if an override is running or the schedule of its own week works that weekday in a window covering the announced minute |
| Openings.OpeningIsHonoured | fleet_manager/app/services/schedule_service.py:201-221 | hence always when it lies in the week of the announcement |
| Openings.AnnouncedByNextWeek | fleet_manager/app/services/schedule_service.py:125-128 | with at most two rest days an announced opening is never further than the next week |
| Openings.RestDaysOf | fleet_manager/app/services/schedule_service.py:125-128 | and every generated week has at most two |
| Openings.AnnouncedIsFirstIff | fleet_manager/app/services/schedule_service.py:202-221 | it is the first working instant if and only if it lies in the same week, or begins the new week, or the new week has an empty window, or the new week begins closed and opens no sooner when searched from there |
| Openings.NewRestDayBreaksAnOpening | fleet_manager/app/services/schedule_service.py:208-215 | drawn weeks for which the account rests at the announced instant as long as nobody opens an override |
| Openings.LaterStartBreaksAnOpening | fleet_manager/app/services/schedule_service.py:120-123 | the same with unchanged rest days and a later start |
| Openings.AnnouncedADayLate | fleet_manager/app/services/schedule_service.py:208-215 | drawn weeks for which the account is active a whole day before the announced instant |
| Provisioning.ValidateAllocation | fleet_manager/scripts/provision_client.py:91-127 | accepts exactly what is inside the pool, not taken by the client, and in conflict with nobody; otherwise the first reason in checking order |
| Provisioning.ProxyPorts | fleet_manager/scripts/provision_client.py:140-155 | one row for each port of the slice and no other |
| Provisioning.OverlapIsASharedPort | fleet_manager/scripts/provision_client.py:87-88 | the interval test is true if and only if two slices share a port |
| Provisioning.Provisioner.Provision | fleet_manager/scripts/provision_client.py:382-466 | an accepted request adds one entry and emits its ports, a refused one changes nothing, and a sound registry stays sound |
| Provisioning.NoPortIsSharedEver | fleet_manager/scripts/provision_client.py:452-466 | after any sequence of requests slices lie in the pool, clients and gateway ports are distinct and no port belongs to two clients |
| Provisioning.AcceptedIffFree | fleet_manager/scripts/provision_client.py:104-127 | over every run a slice inside the pool is accepted if and only if its client, gateway port and ports are free |

## Left out

- Telegram, HTTP, SQL and Redis networking: outcomes are parameters or events; which rows a sweep finds locked and which enqueues fail are parameters.
- The database's isolation: a claim and each row write are single atomic steps, and orphan recovery's select and update are one step. A row write between that select and update is not modelled.
- TIME_SCALE other than 1 and the mix of wall clock and virtual clock (recovery.py:32, webhook_redrive.py:57): there is one clock.
- The warm-up task rows written by `schedule_cross_message` (never enqueued) and by `enqueue_daily_warmup_action`, the allowed-actions lookup and the webhooks of a promotion.
- FloodWait escalation arithmetic, telemetry, webhooks sent by `run_task` and the account status written on flood or ban: only the task row and the queue are tracked there.
- `humanize_typing_visible` and all humanizer delays; `generate_weekly`, schedules of accounts without an id, `_flat_check`.
- The proxy URL that rotation rewrites, and the ports it picks.
- ExactlyTheShownNumberPasses: covers calls by the one account only; calls of others move the shared counters under it.
- GeoIP and the ASN list: the gate's verdicts on a proxy's country and network are booleans of the account.
- Seed-only provisioning (it writes no registry entry), rendered files, and the text of `--proxy-ports`: the range arrives as two integers.
- Request parsing and HTTP errors of the limits endpoint; the CSV arrives as a list of ids.
- Non-integer leaves in the yaml file and the numbers of the default tables. The theorems about a load assume five dict defaults in which `conservative` equals `rate_limits`, as at safety_defaults.py:116-117.
- RetrySafety: does not cover a job that dies during its POST, because the hypothesis is that every job finishes in time; a queued job that disappears is covered.
- Configuration changes during a run: in `SpendingRuns`, `FleetConservation` and `WarmupLadder` caps, memberships and tier days are fixed for the run.
- SpendingRuns and DailyCalls: assume a worker with a redis pool; without one the gates let every call through unpaid.
- Clock readings within one check: `Prepare` and `ComputeDeferUntil` read the clock once each, where the source reads it once for the flood, once for the hours and once inside the schedule cache.
- Concurrent first loads of the config, and the cap profile of an account: the worker always passes `conservative`.
- RateLimitForProfile: a profile table that is a number instead of a dict yields no caps, where the source raises.
