# Verified model of a patched Linux 2.6.32 scheduler

The repository carries the scheduler of Linux 2.6.32 with a patch that lets a control module stop
all scheduling around one profiled task. This project models the parts of `sched_mod.c`,
`sched_orig.c`, `os_ctrl.c` and `libprf.c` with the most state and the most arithmetic, and proves what each of
them keeps. `dafny verify dfyconfig.toml` checks all of it.

| module | what it models |
|---|---|
| `Schedule` | the patched and the original `schedule()`, and profiling from start to stop |
| `Profiling`, `Protocol` | the profiling library, and the bytes it exchanges with the control module |
| `OsControl` | the control module: forcing a pid, masking interrupt lines, the watchdog timers |
| `Completions` | completions, wait queues and the wakeup scan |
| `RqLocks` | `double_rq_lock` and the unfair `_double_lock_balance` |
| `MigrationRequests`, `ExpeditedSync` | migration threads, CPU hotplug and expedited RCU |
| `NohzBalancer`, `NohzCalls` | ownership of the idle load balancer |
| `Accounting`, `Wakeups` | what waking, sleeping and moving do to tasks, and `nr_running`, `nr_uninterruptible` and `calc_load_tasks` |
| `TaskGroups`, `BandwidthControl`, `BandwidthRuns`, `RtRatio` | the group tree, its stackless walk, and RT admission control |
| `SchedGroups`, `SchedDomains`, `DomainPartition` | building groups, pruning and repartitioning domains |
| `GroupStats`, `BusiestGroup`, `Imbalance`, `LoadBalance`, `BalanceTasks` | load balancing |
| `CalcDelta`, `CpuLoad`, `RtAverage` | fixed-point arithmetic |
| `Words`, `Common` | machine words, division, options |

## Assumptions

- An `unsigned long` has 32 bits and a `u64` 64 (`linux-2.6.32/linux.config:31`); every wrap is written out. The kernel is
  not preemptive (`linux-2.6.32/linux.config:276`), so the unfair double lock is the one compiled. Group scheduling is modelled as if
  it were enabled.
- A protocol is a set of states, a step per atomic section, and an invariant over every run of
  steps by any number of threads or CPUs. A spinlock is its owner; a section under one lock is one step
  as long as whatever else it reads is written under that lock too. The RT sysctls are not: the handler's
  write, check and restore are steps of their own, and a request reads them anew for every group, once each.
  Below, the settled setting is the one that stands unless the write in progress is accepted, and a
  stray group is one set by a request that read another.
- CPU masks are sets of CPU numbers. Lists are links where the code follows links, and sequences
  where it only adds, removes or enumerates.
- Scheduling-class hooks are parameters: what they enumerate, pick, pull or push. So are clocks,
  signals, per-CPU load figures, the process table and what user space writes.
- Tick clocks stay below 2^63 ns and switch counters are not followed around 2^32.
- The handlers of the control module are atomic, and an armed timer fires when it is due.

## Findings

- `complete_all` and `complete` let `done` wrap at 2^32. A wait with a negative timeout that finds a
  token takes it and returns the negative timeout, possibly -ERESTARTSYS (`sched_mod.c:5797-5821`).
- `synchronize_sched_expedited_count` is never changed, so the early return at
  `sched_mod.c:10914-10917` is dead.
- The sum over child groups in `tg_schedulable` is a 32-bit one, and still exact in every run: an
  accepted call keeps each exact sum at 2^20 or less, so the next check sees at most 2^21
  (`sched_mod.c:10217-10231`). It could wrap only in a tree that no run leads to. The shift in
  `to_ratio` would lose bits of runtimes from 2^44 ns, which cannot be set.
- `sched_rt_handler` writes the sysctls, checks them and restores them under a mutex of its own, while
  `tg_set_bandwidth` reads them under another (`sched_mod.c:10388-10416`, `10247-10275`). So a request
  may be accepted against a setting that is then refused, and stay above the one restored: with 950000 of
  1000000 us, write 2000000, and before the restore set a group to 1 s of 1 s. What is exceeded is the
  global ratio only; no group ever takes more than the whole time, nor its children more than the group
  (those of the root of groups per user, whose own ratio is the live setting: than the whole time).
- In the same window a period of zero makes the check of a request divide by zero
  (`sched_mod.c:10212-10213`); outside of it none does.
- The decay loop of `rt_avg` never ends once `sysctl_sched_time_avg` is zero and the clock passes the
  stamp (`sched_mod.c:1256-1264`).
- `rt_avg` stays below the total only if each charge fits the time since the last update; the time
  since the last charge is not enough when `scale_rt_power` decays in between. Nor may
  `sysctl_sched_time_avg` shrink.
- The early return at `sched_mod.c:3532-3533` is dead: a group that gets there has room for a task.
- A remote group without candidate CPUs is marked unbalanced, since 0 - ULONG_MAX is 1; it has no
  load, so it is never chosen.
- After the watchdog or a read has released the machine, `set_os` still remembers the disable, and
  a new start does nothing until an explicit enable (`os_ctrl.c:243-290`).
- A write for an unknown pid enables the interrupt lines but leaves the scheduler forced until the
  watchdog fires (`os_ctrl.c:394-404`).
- A write to `/proc/os_ctrl` is copied whole into a buffer of 13 bytes before its length is looked at
  (`os_ctrl.c:70`, `358`): from 14 bytes on the copy runs past the buffer, and no promise about the
  watchdog survives it.
- The profiling library is to refuse a measurement during which the task was switched (`libprf.h:23`),
  but only the low bytes of the counters reach it: 256 switches pass (`os_ctrl.c:327-328`, `libprf.c:138`).

## Model

| member | source | states |
|---|---|---|
| `Completions.ReachableStates` | FAILED_Linux_kernel_patch_attempt/scheduler_mod/sched_mod.c:5766-5832 | after every interleaving of waiters, timeouts, signals and completers: while a queued waiter is not awake, `done` is at most the number of waiters already awake; a token with a non-empty queue has an awake waiter to take it; and `done` is exactly the tokens posted less those taken if and only if fewer than 2^32 are outstanding |
| `Completions.PositiveIffTaken` | FAILED_Linux_kernel_patch_attempt/scheduler_mod/sched_mod.c:5797-5821 | in every run a result is positive if and only if that wait took a token, unless `done` was positive at the call and the timeout negative; without a token only 0 and -ERESTARTSYS are returned; an uninterruptible wait without timeout always brings a token; with a token the result is the time left, 1 if there is none, and never more than the timeout |
| `Completions.EnterPositiveIffTaken` | FAILED_Linux_kernel_patch_attempt/scheduler_mod/sched_mod.c:5797-5821 | the same for one call, over the counter and the timeout seen before it |
| `Completions.ResumeOutcome` | FAILED_Linux_kernel_patch_attempt/scheduler_mod/sched_mod.c:5797-5821 | a waiter that goes on keeps its place with the time left, or returns: with the token if there is one, else 0 without time and -ERESTARTSYS for a signal |
| `Completions.CompleteAllServesAll` | FAILED_Linux_kernel_patch_attempt/scheduler_mod/sched_mod.c:5786-5794 | `complete_all` wakes every queued waiter and leaves a token for each, up to 2^31 - 1 |
| `Completions.CompleteServesOne` | FAILED_Linux_kernel_patch_attempt/scheduler_mod/sched_mod.c:5766-5774 | `complete` posts one token and wakes the first sleeper, and nobody behind it |
| `Completions.NegativeTimeoutTakesToken` | FAILED_Linux_kernel_patch_attempt/scheduler_mod/sched_mod.c:5797-5821 | a concrete run in which a wait with timeout -512 returns -ERESTARTSYS and has taken the token |
| `Completions.StepKeepsWakeups` | FAILED_Linux_kernel_patch_attempt/scheduler_mod/sched_mod.c:5662-5674 | every step, including one step of a wakeup scan between which waiters go to sleep and are woken, keeps as many waiters awake as there are tokens for them |
| `Completions.StepKeepsTokens` | FAILED_Linux_kernel_patch_attempt/scheduler_mod/sched_mod.c:5766-5821 | every step keeps `done` equal to the tokens posted less those taken, modulo 2^32, and never takes one that was not posted |
| `Completions.FinishWakesFirstSleeper` | FAILED_Linux_kernel_patch_attempt/scheduler_mod/sched_mod.c:5662-5674 | an undisturbed scan makes runnable exactly the waiters up to the first sleeping one, in queue order, or all of them for `complete_all` |
| `Completions.FinishIsRun` | FAILED_Linux_kernel_patch_attempt/scheduler_mod/sched_mod.c:5662-5674 | the undisturbed scan is one of the interleavings that the runs above range over |
| `Completions.Completion.WakeUpCommon` | FAILED_Linux_kernel_patch_attempt/scheduler_mod/sched_mod.c:5662-5674 | the loop computes the undisturbed scan, counting only wakeups of tasks that were off their runqueue |
| `Completions.Completion.Complete` | FAILED_Linux_kernel_patch_attempt/scheduler_mod/sched_mod.c:5766-5774 | posts one token, modulo 2^32, and scans for one sleeper |
| `Completions.Completion.CompleteAll` | FAILED_Linux_kernel_patch_attempt/scheduler_mod/sched_mod.c:5786-5794 | posts UINT_MAX/2 tokens, modulo 2^32, and wakes every waiter |
| `Completions.Completion.StartWait` | FAILED_Linux_kernel_patch_attempt/scheduler_mod/sched_mod.c:5797-5821 | is the step from the call to its return or its first `schedule_timeout` |
| `Completions.Completion.ResumeWait` | FAILED_Linux_kernel_patch_attempt/scheduler_mod/sched_mod.c:5797-5821 | is the step from a return of `schedule_timeout` to the return of the wait or the next one |
| `Completions.Completion.TryWaitForCompletion` | FAILED_Linux_kernel_patch_attempt/scheduler_mod/sched_mod.c:5926-5937 | takes a token if and only if there is one, and says so |
| `RqLocks.StepKeepsInv` | FAILED_Linux_kernel_patch_attempt/scheduler_mod/sched_mod.c:1760-1777 | every step of plain locking, `double_rq_lock`, the unfair `_double_lock_balance` and unlocking keeps each lock owned by exactly the thread that holds it and every call on course to its locks |
| `RqLocks.OwnedIsHeld` | FAILED_Linux_kernel_patch_attempt/scheduler_mod/sched_mod.c:3072-3108 | what a thread owns is what its program point says it holds, and no two threads hold the same lock |
| `RqLocks.BlockedHoldsLower` | FAILED_Linux_kernel_patch_attempt/scheduler_mod/sched_mod.c:1760-1777 | a thread that spins on a lock holds only lower ones, although a trylock may take locks in any order |
| `RqLocks.NoCycle` | FAILED_Linux_kernel_patch_attempt/scheduler_mod/sched_mod.c:1760-1777 | no chain of threads, each waiting for the next, comes back to its start |
| `RqLocks.SomeHolderCanStep` | FAILED_Linux_kernel_patch_attempt/scheduler_mod/sched_mod.c:1760-1777 | whenever a thread is blocked, some thread holds a lock, is not blocked, and can go on or unlock |
| `RqLocks.NoDeadlock` | FAILED_Linux_kernel_patch_attempt/scheduler_mod/sched_mod.c:1760-1777 | in every state reachable by any number of threads from free locks: no waiting chain comes back to its start, and whenever a thread is blocked some holder can step |
| `RqLocks.CallReachesGoal` | FAILED_Linux_kernel_patch_attempt/scheduler_mod/sched_mod.c:3072-3108 | whatever other threads do, a double lock returns owning exactly its locks, and the result of `_double_lock_balance` says whether `this_rq` was unlocked meanwhile |
| `RqLocks.LossIsRecorded` | FAILED_Linux_kernel_patch_attempt/scheduler_mod/sched_mod.c:1760-1779 | a lock is lost only by an unlock or recorded as dropped until the thread's next call, which is what the result says |
| `RqLocks.CallsAimAtBoth` | FAILED_Linux_kernel_patch_attempt/scheduler_mod/sched_mod.c:3072-3091 | the locks a double-lock call is to return with are the two of its arguments, equal runqueues included |
| `MigrationRequests.ServedOnce` | FAILED_Linux_kernel_patch_attempt/scheduler_mod/sched_mod.c:7195-7250 | in every run a request is dequeued at most once, completed at most once, and waited for only after that, whether a migration thread or the CPU_DEAD drain serves it |
| `MigrationRequests.QuietIsServed` | FAILED_Linux_kernel_patch_attempt/scheduler_mod/sched_mod.c:7195-7250 | nothing is lost or stuck: in every reachable state where no CPU is going down and no migration thread can take a step, each request has been dequeued once and completed once |
| `MigrationRequests.SomethingToServe` | FAILED_Linux_kernel_patch_attempt/scheduler_mod/sched_mod.c:7719-7734 | an unfinished request always has a step of its migration thread, or of taking its CPU down, that is due |
| `MigrationRequests.ServiceEnds` | FAILED_Linux_kernel_patch_attempt/scheduler_mod/sched_mod.c:7195-7250 | without new requests only as many such steps are left as the work measures: each of them makes it smaller, and nothing else makes it larger |
| `MigrationRequests.QueuedIsServed` | FAILED_Linux_kernel_patch_attempt/scheduler_mod/sched_mod.c:7719-7734 | a request still queued has a running migration thread, or its CPU is going down and the drain is still to come |
| `MigrationRequests.ExpeditedIsAGracePeriod` | FAILED_Linux_kernel_patch_attempt/scheduler_mod/sched_mod.c:10893-10948 | when the expedited grace period returns, the migration thread of each CPU that was online has taken its request while running on that CPU, or `synchronize_sched` was called |
| `ExpeditedSync.FullSyncIffStrayed` | FAILED_Linux_kernel_patch_attempt/scheduler_mod/sched_mod.c:10932-10947 | in every run a caller that has waited for all its requests calls `synchronize_sched` if and only if one of an online CPU was not served by its thread at home |
| `MigrationRequests.PostedRequestIsFree` | FAILED_Linux_kernel_patch_attempt/scheduler_mod/sched_mod.c:10921-10931 | the per-CPU request is linked nowhere and has an empty completion whenever it is posted again |
| `MigrationRequests.EarlyReturnIsDead` | FAILED_Linux_kernel_patch_attempt/scheduler_mod/sched_mod.c:10914-10917 | the early return is never taken, because nothing changes the counter it looks at |
| `MigrationRequests.StepKeepsLocated` | FAILED_Linux_kernel_patch_attempt/scheduler_mod/sched_mod.c:2108-2128 | every step keeps each request in exactly one place: one queue, once, one thread's hands, the drain's hands, or done |
| `MigrationRequests.StepKeepsAttended` | FAILED_Linux_kernel_patch_attempt/scheduler_mod/sched_mod.c:7667-7734 | every step, CPU-down and CPU-up included, leaves no request on a CPU that is offline and has been drained |
| `MigrationRequests.StepKeepsSessions` | FAILED_Linux_kernel_patch_attempt/scheduler_mod/sched_mod.c:10893-10948 | every step keeps the requests of the one caller that holds the mutex posted, taken at home or marked for a full synchronization, and all others unused |
| `TaskGroups.WalkTgTree` | FAILED_Linux_kernel_patch_attempt/scheduler_mod/sched_mod.c:1453-1483 | the traversal without a stack terminates on every tree of task groups and makes exactly the calls of the recursive walk, up to and including the first with a nonzero result, which it returns |
| `TaskGroups.WalkVisitsEachOnce` | FAILED_Linux_kernel_patch_attempt/scheduler_mod/sched_mod.c:1453-1483 | the full walk calls `down` once and `up` once on every group of the tree |
| `TaskGroups.TgSchedulableVisit` | FAILED_Linux_kernel_patch_attempt/scheduler_mod/sched_mod.c:10173-10234 | the verdict on a group, with the sum over its children taken in 32 bits |
| `BandwidthControl.RtSchedulable` | FAILED_Linux_kernel_patch_attempt/scheduler_mod/sched_mod.c:10236-10245 | accepts if and only if every group of the tree passes the check for the request |
| `BandwidthRuns.AcceptedIff` | FAILED_Linux_kernel_patch_attempt/scheduler_mod/sched_mod.c:10173-10245 | over a tree that holds, a request is accepted if and only if every runtime is within its period, no group with RT tasks is left without runtime, and the tree is covered with the request on it |
| `BandwidthRuns.VerdictMeans` | FAILED_Linux_kernel_patch_attempt/scheduler_mod/sched_mod.c:10173-10234 | -EBUSY exactly for a group that is otherwise sound and starves its RT tasks, zero exactly for a sound one that covers its children and fits the global ratio |
| `BandwidthRuns.PassesIff` | FAILED_Linux_kernel_patch_attempt/scheduler_mod/sched_mod.c:10323-10347 | the same for a setting, which must have a positive period and a runtime within it or none |
| `BandwidthControl.TgSetBandwidth` | FAILED_Linux_kernel_patch_attempt/scheduler_mod/sched_mod.c:10247-10275 | with nobody changing the sysctls meanwhile: an accepted request changes this group only and leaves a tree that passes the check as it stands; a rejected one changes nothing; both directions of when it is accepted; it is the request of the runs below, and leaves any tree that held before covered |
| `BandwidthControl.RequestWritten` | FAILED_Linux_kernel_patch_attempt/scheduler_mod/sched_mod.c:10173-10275 | checking a request before writing it is the same as checking the tree that results |
| `BandwidthControl.ChildrenCoveredIffSumFits` | FAILED_Linux_kernel_patch_attempt/scheduler_mod/sched_mod.c:10217-10231 | a group that passes the check covers the ratios of its children if and only if their exact sum fits the 32-bit variable |
| `BandwidthControl.CheckedCovers` | FAILED_Linux_kernel_patch_attempt/scheduler_mod/sched_mod.c:10173-10234 | a tree that passes the check is covered, each ratio at least the exact sum of its children's and at most the global one, if and only if no sum wraps |
| `BandwidthControl.UnrelatedWithinGlobal` | FAILED_Linux_kernel_patch_attempt/scheduler_mod/sched_mod.c:10173-10275 | in a covered tree the ratios of any set of pairwise unrelated groups add up to at most the global ratio |
| `BandwidthControl.ReachableWithinFull` | FAILED_Linux_kernel_patch_attempt/scheduler_mod/sched_mod.c:10173-10275 | in every tree that operations lead to from boot on, however they interleave with the steps of the sysctl handler, any pairwise unrelated groups together take at most the whole time |
| `BandwidthControl.ReachableWithinGlobalIff` | FAILED_Linux_kernel_patch_attempt/scheduler_mod/sched_mod.c:10173-10416 | outside the handler all of them stay within the global ratio if and only if every group set by a request that read another setting than the settled one, and still standing, fits it and, with groups per user, so do the children of the root together; without such groups always |
| `BandwidthControl.AllWithinIffCovered` | FAILED_Linux_kernel_patch_attempt/scheduler_mod/sched_mod.c:10173-10275 | in a tree that holds, all unrelated groups fit together if and only if the tree is covered |
| `BandwidthControl.SiblingsChosen` | FAILED_Linux_kernel_patch_attempt/scheduler_mod/sched_mod.c:10220-10231 | siblings chosen together take the sum that the check compares |
| `BandwidthControl.WrapNeedsOverfull` | FAILED_Linux_kernel_patch_attempt/scheduler_mod/sched_mod.c:10217-10231 | the check accepts a sum that wraps only in a tree that no run leads to: one where some group takes more than the whole time or less than its children |
| `BandwidthRuns.RequestFits` | FAILED_Linux_kernel_patch_attempt/scheduler_mod/sched_mod.c:10247-10275 | an accepted request, whatever setting its walk reads for each group and for any number of children, leaves every group covering its children and within 2^20 and the setting read for it |
| `BandwidthRuns.RequestKeepsHeld` | FAILED_Linux_kernel_patch_attempt/scheduler_mod/sched_mod.c:10247-10275 | so a tree that holds still does, and is covered if the walk read the settled setting throughout |
| `BandwidthRuns.CheckCovers` | FAILED_Linux_kernel_patch_attempt/scheduler_mod/sched_mod.c:10323-10347 | a setting that passes the check covers a tree that holds |
| `BandwidthRuns.CreateEases` | FAILED_Linux_kernel_patch_attempt/scheduler_mod/sched_mod.c:9882-9883 | a new group has no runtime and covers nothing, and the others are as they were |
| `BandwidthRuns.DestroyEases` | FAILED_Linux_kernel_patch_attempt/scheduler_mod/sched_mod.c:9991-10007 | a destroyed leaf takes from its parent's sum and changes no ratio |
| `BandwidthRuns.BootIsCovered` | FAILED_Linux_kernel_patch_attempt/scheduler_mod/sched_mod.c:9456-9477 | the tree at boot is covered, with and without groups per user |
| `BandwidthRuns.StepKeepsInv` | FAILED_Linux_kernel_patch_attempt/scheduler_mod/sched_mod.c:10247-10416 | every operation, at whatever point the handler is, keeps each exact sum of children at the group's own ratio or less and that at 2^20 or less, and all groups but the strays within the settled setting |
| `BandwidthRuns.EveryRunHolds` | FAILED_Linux_kernel_patch_attempt/scheduler_mod/sched_mod.c:10173-10416 | so does every run, requests between the handler's write, check and restore included |
| `BandwidthRuns.CoveredIffStraysFit` | FAILED_Linux_kernel_patch_attempt/scheduler_mod/sched_mod.c:10388-10416 | a reachable tree is covered under the settled setting, so also after a restore, if and only if the stray groups fit it and, with groups per user, so do the children of the root together; without strays always |
| `BandwidthRuns.SettledRequestCovers` | FAILED_Linux_kernel_patch_attempt/scheduler_mod/sched_mod.c:10247-10275 | an accepted request whose walk reads the settled setting throughout covers the tree again |
| `BandwidthRuns.RefusedSettingAdmits` | FAILED_Linux_kernel_patch_attempt/scheduler_mod/sched_mod.c:10397-10406 | a concrete run from boot: a request for 100 percent passes between the write of 200 percent and its restore, and stays above the 95 percent restored |
| `BandwidthRuns.ZeroPeriodDivides` | FAILED_Linux_kernel_patch_attempt/scheduler_mod/sched_mod.c:10205-10213 | a check against the setting outside the handler never divides by zero; right after a period of zero is written it does, if and only if the runtime is not negative |
| `BandwidthRuns.HandlerSteps` | FAILED_Linux_kernel_patch_attempt/scheduler_mod/sched_mod.c:10388-10416 | undisturbed, write, check and restore keep the setting if and only if it passes, and otherwise leave everything as it was |
| `BandwidthControl.SameOnKids` | FAILED_Linux_kernel_patch_attempt/scheduler_mod/sched_mod.c:10173-10234 | covered, held and checked mean the same on the linked lists as on the sequences of children of the runs |
| `BandwidthControl.ChosenRatioInsert` | FAILED_Linux_kernel_patch_attempt/scheduler_mod/sched_mod.c:10173-10275 | that sum counts each chosen group exactly once |
| `BandwidthControl.SchedGroupSetRtRuntime` | FAILED_Linux_kernel_patch_attempt/scheduler_mod/sched_mod.c:10277-10287 | microseconds become nanoseconds below 2^44, a negative value the infinite runtime; the period stays |
| `BandwidthControl.SchedGroupSetRtPeriod` | FAILED_Linux_kernel_patch_attempt/scheduler_mod/sched_mod.c:10301-10312 | a zero period is refused with nothing changed; the runtime stays |
| `BandwidthControl.RtSysctl.GlobalConstraints` | FAILED_Linux_kernel_patch_attempt/scheduler_mod/sched_mod.c:10323-10347 | accepts if and only if the setting is valid and the whole tree passes the check under it |
| `BandwidthControl.RtSysctl.SchedRtHandler` | FAILED_Linux_kernel_patch_attempt/scheduler_mod/sched_mod.c:10388-10416 | undisturbed: an accepted write is kept and copied to the default bandwidth, a rejected one leaves the old period and runtime; it is the write, check and restore of the runs, which other operations may separate |
| `RtRatio.RatioExactIffShiftFits` | FAILED_Linux_kernel_patch_attempt/scheduler_mod/sched_mod.c:10146-10152 | for a runtime within its period, the ratio is the exact quotient if and only if the runtime is below 2^44 ns |
| `RtRatio.GlobalRatioIsExact` | FAILED_Linux_kernel_patch_attempt/scheduler_mod/sched_mod.c:847-858 | a valid nonnegative setting of C integers has the exact ratio: its microseconds stay below 2^44 ns |
| `RtRatio.RatioAtMostFull` | FAILED_Linux_kernel_patch_attempt/scheduler_mod/sched_mod.c:10146-10152 | a runtime within its period never gives more than the full ratio, even where the shift wraps |
| `RtRatio.InfiniteIsFull` | FAILED_Linux_kernel_patch_attempt/scheduler_mod/sched_mod.c:10146-10152 | no limit is the full ratio |
| `Accounting.CountersAgree` | FAILED_Linux_kernel_patch_attempt/scheduler_mod/sched_mod.c:1940-1959 | after every run of sleeping, two-phase wakeup, forking, pulling, migrating and CPU-down steps: each `nr_running` is the number of tasks queued there, the wrapping `nr_uninterruptible` counters add up to the off-queue tasks that contribute to load, modulo 2^32, and `calc_load_tasks` is the sum of `calc_load_active`, modulo 2^32 and exactly while the sum fits a `long` |
| `Accounting.StepKeepsInv` | FAILED_Linux_kernel_patch_attempt/scheduler_mod/sched_mod.c:2339-2449 | each step, among them the wakeup that drops the lock with the task in TASK_WAKING, keeps all three |
| `Accounting.MovedKeepsInv` | FAILED_Linux_kernel_patch_attempt/scheduler_mod/sched_mod.c:3161-3172 | moving a queued task takes its count along, and never decrements a counter of zero |
| `Accounting.MoveUninterruptibleKeepsInv` | FAILED_Linux_kernel_patch_attempt/scheduler_mod/sched_mod.c:7313-7324 | folding the counter of a dead CPU into another keeps the global sum |
| `Accounting.LoadIsRunningAndBlocked` | FAILED_Linux_kernel_patch_attempt/scheduler_mod/sched_mod.c:3006-3018 | once every CPU has reported, the load is the number of runnable and uninterruptible tasks |
| `Accounting.ReportsAre` | FAILED_Linux_kernel_patch_attempt/scheduler_mod/sched_mod.c:3006-3018 | a report is the running and uninterruptible tasks of the CPU as a signed 32-bit number; folding a counter leaves zero behind; one CPU going down takes its report back |
| `Accounting.AllReport` | FAILED_Linux_kernel_patch_attempt/scheduler_mod/sched_mod.c:3006-3018 | once every CPU has reported in turn, the reports are those that the load counts every runnable and uninterruptible task by |
| `Accounting.Scheduler.ActivateTask` | FAILED_Linux_kernel_patch_attempt/scheduler_mod/sched_mod.c:1940-1947 | the runqueue after enqueueing a task |
| `Accounting.Scheduler.DeactivateTask` | FAILED_Linux_kernel_patch_attempt/scheduler_mod/sched_mod.c:1952-1959 | the runqueue after dequeueing a task; its `nr_running` was not zero |
| `Accounting.Scheduler.TryToWakeUp` | FAILED_Linux_kernel_patch_attempt/scheduler_mod/sched_mod.c:2339-2449 | nothing for a task in none of the states asked for; else the task is runnable then, queued and in TASK_RUNNING, or on its way there in TASK_WAKING and off its runqueue; which of the three ways out it takes, and the counters after it |
| `Accounting.Scheduler.FinishWakeUp` | FAILED_Linux_kernel_patch_attempt/scheduler_mod/sched_mod.c:2385-2449 | the rest, under the lock of the new runqueue: the task is runnable, and the counters after it |
| `Wakeups.WokenIsRunnable` | FAILED_Linux_kernel_patch_attempt/scheduler_mod/sched_mod.c:2431-2449 | after any of the three completions of a wakeup the task is in TASK_RUNNING and queued, and cannot go to sleep or be woken once more |
| `Wakeups.WokenStaysAwake` | FAILED_Linux_kernel_patch_attempt/scheduler_mod/sched_mod.c:2339-2449 | in every run it stays so, and does not go to sleep, until it sets its own state again |
| `Wakeups.WaitsForActivation` | FAILED_Linux_kernel_patch_attempt/scheduler_mod/sched_mod.c:2367-2388 | in every run a task in TASK_WAKING stays off its runqueue and out of every other waker's reach until it is activated |
| `Wakeups.TwoPhaseWakeup` | FAILED_Linux_kernel_patch_attempt/scheduler_mod/sched_mod.c:2367-2449 | a wakeup in two phases, whatever happens in between, ends with that task runnable |
| `Wakeups.OnlyWakeupsWake` | FAILED_Linux_kernel_patch_attempt/scheduler_mod/sched_mod.c:2339-2449 | nothing but its wakeup queues a sleeping task or changes its state |
| `Wakeups.TasksMove` | FAILED_Linux_kernel_patch_attempt/scheduler_mod/sched_mod.c:3161-3172 | what going to sleep, forking, placing, pulling and migrating do to the state, the queueing and the CPU of the task |
| `Accounting.Scheduler.PullTask` | FAILED_Linux_kernel_patch_attempt/scheduler_mod/sched_mod.c:3161-3172 | both runqueues after the move |
| `Accounting.Scheduler.MigrateNrUninterruptible` | FAILED_Linux_kernel_patch_attempt/scheduler_mod/sched_mod.c:7313-7324 | both counters after the fold |
| `Accounting.Scheduler.CalcLoadAccountActive` | FAILED_Linux_kernel_patch_attempt/scheduler_mod/sched_mod.c:3006-3018 | the report of one CPU, in signed 32-bit arithmetic |
| `Accounting.Scheduler.NrUninterruptible` | FAILED_Linux_kernel_patch_attempt/scheduler_mod/sched_mod.c:2901-2916 | the sum of the wrapping counters is the number of uninterruptible tasks while that fits a `long` |
| `SchedGroups.InitSchedBuildGroups` | FAILED_Linux_kernel_patch_attempt/scheduler_mod/sched_mod.c:8104-8142 | from any nonempty span: one closed ring of nonempty, pairwise disjoint groups that cover exactly the span, each the fibre of one value of `group_fn` |
| `GroupStats.UpdateSgLbStats` | FAILED_Linux_kernel_patch_attempt/scheduler_mod/sched_mod.c:3704-3789 | the wrapping sums over the group's candidate CPUs, the spread of their loads, and whether this CPU is the one that balances |
| `GroupStats.OneCpuBalances` | FAILED_Linux_kernel_patch_attempt/scheduler_mod/sched_mod.c:3722-3772 | of the CPUs of a group that see the same mask and idle flags exactly one is elected to balance for it |
| `GroupStats.ElectedIsFirst` | FAILED_Linux_kernel_patch_attempt/scheduler_mod/sched_mod.c:3733-3770 | it is the first idle one among the candidates, or the first of the group if none is idle |
| `GroupStats.UnbalancedIff` | FAILED_Linux_kernel_patch_attempt/scheduler_mod/sched_mod.c:3773-3785 | a group with candidates is unbalanced if and only if the loads of two of them differ by more than two average tasks |
| `GroupStats.AverageTaskIs` | FAILED_Linux_kernel_patch_attempt/scheduler_mod/sched_mod.c:3781-3783 | the average task is the sum of the CPUs' averages for each unit of power |
| `GroupStats.GroupCapacityIsRounded` | FAILED_Linux_kernel_patch_attempt/scheduler_mod/sched_mod.c:3787-3788 | the capacity is the power in full CPUs, rounded to the nearest |
| `GroupStats.TwoViewsElectTwo` | FAILED_Linux_kernel_patch_attempt/scheduler_mod/sched_mod.c:3733-3772 | two CPUs that see different idle flags may both be elected |
| `GroupStats.EmptyGroupLooksUnbalanced` | FAILED_Linux_kernel_patch_attempt/scheduler_mod/sched_mod.c:3774-3786 | a remote group with no candidate CPU left counts as unbalanced, because 0 - ULONG_MAX is 1 |
| `BusiestGroup.UpdateSdPowerSavingsStats` | FAILED_Linux_kernel_patch_attempt/scheduler_mod/sched_mod.c:3489-3541 | tracks the group to empty and the group to fill, ties included, and never follows a null group |
| `BusiestGroup.UpdateSdLbStats` | FAILED_Linux_kernel_patch_attempt/scheduler_mod/sched_mod.c:3801-3858 | one trip around the ring: the local group, the first overloaded group of the highest load, and the totals |
| `BusiestGroup.CheckPowerSaveBusiestGroup` | FAILED_Linux_kernel_patch_attempt/scheduler_mod/sched_mod.c:3558-3573 | finds a group to empty if and only if the local group is the one to fill and another one the one to empty |
| `BusiestGroup.FindImbalance` | FAILED_Linux_kernel_patch_attempt/scheduler_mod/sched_mod.c:4018-4056 | finds an imbalance if and only if all guards hold for the busiest group, and computes it |
| `BusiestGroup.ImbalancedIff` | FAILED_Linux_kernel_patch_attempt/scheduler_mod/sched_mod.c:4013-4058 | the guards in the groups' own numbers, short of wrapping |
| `BusiestGroup.AverageIs` | FAILED_Linux_kernel_patch_attempt/scheduler_mod/sched_mod.c:4027-4027 | the average is the load of the domain for each unit of its power |
| `BusiestGroup.PerTaskIs` | FAILED_Linux_kernel_patch_attempt/scheduler_mod/sched_mod.c:4035-4038 | one task is the average of its group's tasks, capped by the domain's average where they differ widely |
| `BusiestGroup.StatsAre` | FAILED_Linux_kernel_patch_attempt/scheduler_mod/sched_mod.c:3818-3840 | the load of a group for each unit of its power, and a capacity of at most one where children prefer siblings |
| `BusiestGroup.FindBusiestGroup` | FAILED_Linux_kernel_patch_attempt/scheduler_mod/sched_mod.c:3992-4068 | the group chosen is on the ring and never contains this CPU, power savings included; it is the one the statistics call for, and none is chosen only when they call for none |
| `LoadBalance.FindBusiestQueue` | FAILED_Linux_kernel_patch_attempt/scheduler_mod/sched_mod.c:4073-4103 | the CPU of the group with the heaviest queue among the candidates worth looking at, or none when no such queue has load |
| `LoadBalance.LoadIsRelative` | FAILED_Linux_kernel_patch_attempt/scheduler_mod/sched_mod.c:4081-4092 | the load of a queue is its weight for each unit of power, so less power never makes it lighter |
| `LoadBalance.EligibleIff` | FAILED_Linux_kernel_patch_attempt/scheduler_mod/sched_mod.c:4081-4095 | a single task heavier than the imbalance is passed over unless the CPU has less than half a full power |
| `LoadBalance.LoadBalance` | FAILED_Linux_kernel_patch_attempt/scheduler_mod/sched_mod.c:4118-4194 | the selected runqueue is never this CPU's, so the BUG_ON is unreachable; no CPU is selected twice, so the redo loop ends within as many rounds as there are candidates |
| `Imbalance.SdLbStats.FixSmallImbalance` | FAILED_Linux_kernel_patch_attempt/scheduler_mod/sched_mod.c:3868-3923 | behind the guards no subtraction wraps; the imbalance becomes one task exactly when the gap is worth it or moving a task gains throughput |
| `Imbalance.SdLbStats.CalculateImbalance` | FAILED_Linux_kernel_patch_attempt/scheduler_mod/sched_mod.c:3932-3964 | behind the guards no subtraction wraps; the imbalance is one task, the bounded pull, or nothing |
| `Imbalance.PullKeepsAverage` | FAILED_Linux_kernel_patch_attempt/scheduler_mod/sched_mod.c:3932-3964 | moving an imbalance that was not bumped keeps the local group at or below the average and the busiest one at or above it and above one of its tasks, even where the products wrap |
| `Imbalance.ImbalanceIsLargest` | FAILED_Linux_kernel_patch_attempt/scheduler_mod/sched_mod.c:3932-3963 | short of wrapping, nothing larger than the amount may be moved without passing the average on one side or emptying the busiest group, unless the amount is one task, and that only where nothing as large as a task may be moved |
| `Imbalance.PullIsLargest` | FAILED_Linux_kernel_patch_attempt/scheduler_mod/sched_mod.c:3946-3953 | short of wrapping, the pull is the largest amount that may be moved |
| `Imbalance.BelowAverageMovesATaskOrNothing` | FAILED_Linux_kernel_patch_attempt/scheduler_mod/sched_mod.c:3932-3944 | a busiest group below the average gives up one task or nothing |
| `Imbalance.BumpsOnThroughput` | FAILED_Linux_kernel_patch_attempt/scheduler_mod/sched_mod.c:3889-3923 | where the gap does not ask for it, a local group with a task's load or more gets no task; one that gains a unit of power at no cost to the busiest group does |
| `Imbalance.Loads.BumpsOnGap` | FAILED_Linux_kernel_patch_attempt/scheduler_mod/sched_mod.c:3868-3891 | short of wrapping, a gap of one task, or tasks heavier than ours, always moves at least one task |
| `BalanceTasks.BalanceTasks` | FAILED_Linux_kernel_patch_attempt/scheduler_mod/sched_mod.c:3225-3289 | moves exactly the specified tasks; the result is the sum of their weights modulo 2^32, and the sum itself for budgets below 2^31; the sum is at most twice the budget and one; `all_pinned` exactly when no candidate in reach is both light enough and allowed here |
| `BalanceTasks.PulledWithin` | FAILED_Linux_kernel_patch_attempt/scheduler_mod/sched_mod.c:3245-3276 | the weights pulled add up to at most 2m + 1 for a budget m |
| `BalanceTasks.PulledIsMaximal` | FAILED_Linux_kernel_patch_attempt/scheduler_mod/sched_mod.c:3245-3276 | either the budget is met, or no task in reach that may move was left behind that would have fitted the rest |
| `BalanceTasks.LeftBehind` | FAILED_Linux_kernel_patch_attempt/scheduler_mod/sched_mod.c:3226-3275 | of the first 33 candidates, one left behind with budget to spare is too heavy for it, not allowed here, running, or cache hot and not wanted yet |
| `BalanceTasks.PulledMayMove` | FAILED_Linux_kernel_patch_attempt/scheduler_mod/sched_mod.c:3178-3223 | only distinct candidates are pulled, at most 33 are looked at, and each may run here, is not running, and is cache cold or wanted anyway |
| `SchedDomains.CpuAttachDomain` | FAILED_Linux_kernel_patch_attempt/scheduler_mod/sched_mod.c:8050-8080 | terminates and attaches the pruned chain, with parent and child links mutually inverse |
| `SchedDomains.PrunedIsGood` | FAILED_Linux_kernel_patch_attempt/scheduler_mod/sched_mod.c:7895-7944 | the attached chain is a subsequence of the original one in which no domain is degenerate and no parent redundant over its child |
| `SchedDomains.PruneKeepsGood` | FAILED_Linux_kernel_patch_attempt/scheduler_mod/sched_mod.c:8057-8076 | the loop removes every degenerate ancestor, so one check of the base is enough |
| `SchedDomains.PruningIsIdempotent` | FAILED_Linux_kernel_patch_attempt/scheduler_mod/sched_mod.c:8050-8080 | attaching a pruned chain again changes nothing |
| `SchedDomains.DroppedAddsNothing` | FAILED_Linux_kernel_patch_attempt/scheduler_mod/sched_mod.c:8056-8073 | the loop drops a domain only if it adds nothing over the nearest one kept below it |
| `SchedDomains.DegenerateIff` | FAILED_Linux_kernel_patch_attempt/scheduler_mod/sched_mod.c:7895-7916 | a domain contributes if and only if it spans more or less than one CPU and balances between several groups or places wakeups |
| `SchedDomains.ParentDegenerateIff` | FAILED_Linux_kernel_patch_attempt/scheduler_mod/sched_mod.c:7918-7945 | a parent adds nothing if and only if it does not contribute, or spans the same CPUs and has no useful flag that its child lacks |
| `DomainPartition.Domains.PartitionSchedDomains` | FAILED_Linux_kernel_patch_attempt/scheduler_mod/sched_mod.c:9033-9094 | whichever domains were kept, destroyed or rebuilt, each CPU is afterwards attached to the domain of the new partition that contains it, or to none; null masks and a changed topology included |
| `DomainPartition.Domains.DestroyDeleted` | FAILED_Linux_kernel_patch_attempt/scheduler_mod/sched_mod.c:9044-9061 | after the first loop exactly the CPUs of the domains that the new partition also has are attached |
| `DomainPartition.Domains.BuildNew` | FAILED_Linux_kernel_patch_attempt/scheduler_mod/sched_mod.c:9063-9083 | building only the unmatched domains over kept ones attaches every CPU as the new partition says |
| `DomainPartition.Match` | FAILED_Linux_kernel_patch_attempt/scheduler_mod/sched_mod.c:9050-9055 | finds a domain of the same mask and attributes if and only if there is one and the topology is unchanged |
| `NohzBalancer.Ownership` | FAILED_Linux_kernel_patch_attempt/scheduler_mod/sched_mod.c:4658-4721 | in every interleaving of atomic operations neither BUG() is reached, and every return is 1 if and only if the CPU owns the balancing at that moment; a CPU that restarts its tick gets 0 |
| `NohzBalancer.OwnershipLasts` | FAILED_Linux_kernel_patch_attempt/scheduler_mod/sched_mod.c:4658-4721 | ownership lasts through any steps of other CPUs |
| `NohzBalancer.AllIdleReturnsZero` | FAILED_Linux_kernel_patch_attempt/scheduler_mod/sched_mod.c:4681-4686 | a call that has found every tick stopped returns 0 and does not own the balancing then, whatever other CPUs do meanwhile |
| `NohzBalancer.VacancyIsFilled` | FAILED_Linux_kernel_patch_attempt/scheduler_mod/sched_mod.c:4688-4691 | a call that has found no owner returns 1, unless another CPU took the ownership in the meantime |
| `NohzCalls.StopOutcome` | FAILED_Linux_kernel_patch_attempt/scheduler_mod/sched_mod.c:4658-4708 | a call that stops the tick, undisturbed, from the owner and the mask it finds to the owner, the mask and the result it leaves |
| `NohzCalls.VacantCallClaimsIff` | FAILED_Linux_kernel_patch_attempt/scheduler_mod/sched_mod.c:4675-4691 | an active CPU that finds no owner returns 1 and owns the balancing if and only if some online CPU still ticks |
| `NohzCalls.StartOutcome` | FAILED_Linux_kernel_patch_attempt/scheduler_mod/sched_mod.c:4709-4719 | a call that restarts the tick leaves the mask, and the ownership if it had it |
| `NohzCalls.TickOutcome` | FAILED_Linux_kernel_patch_attempt/scheduler_mod/sched_mod.c:4861-4880 | a busy tick after a stopped one makes an owner leave both, and nobody else |
| `NohzCalls.ZeroIsExcused` | FAILED_Linux_kernel_patch_attempt/scheduler_mod/sched_mod.c:4658-4708 | in every run, a stopping call that was active, did not weigh a full mask, did not hand over and saw no other owner before its return owns the balancing then and returns 1 |
| `NohzCalls.FullMaskReturnsZero` | FAILED_Linux_kernel_patch_attempt/scheduler_mod/sched_mod.c:4680-4685 | in every run, a call that weighs a full mask returns 0 and owns nothing |
| `NohzBalancer.AdvanceIsLocal` | FAILED_Linux_kernel_patch_attempt/scheduler_mod/sched_mod.c:4861-4881 | a step, those of the busy tick included, takes the ownership from nobody else and touches only its own bit of the mask |
| `Schedule.UninterruptedProfile` | FAILED_Linux_kernel_patch_attempt/km_os_ctrl/os_ctrl.c:409-446 | from a write that disables the OS for the running task to the one that enables it, with no read, write or watchdog between: the CPU never switches, its counters stay, and the profile handed out is zero and zero |
| `Schedule.Rq.SchedulePatched` | FAILED_Linux_kernel_patch_attempt/scheduler_mod/sched_mod.c:5446-5518 | blocked, a pass keeps `rq->curr`, the queue, `nr_switches` and both switch counters; not blocked, it is the pass of the original |
| `Schedule.Rq.ScheduleOriginal` | FAILED_Linux_kernel_patch_attempt/scheduler_mod/sched_orig.c:5412-5481 | the pass of the original scheduler |
| `Schedule.SwitchesAreCounted` | FAILED_Linux_kernel_patch_attempt/scheduler_mod/sched_mod.c:5464-5502 | either scheduler counts a pass that switches once in `nr_switches` and once against the task that leaves: in `nvcsw` exactly when its state is not zero and PREEMPT_ACTIVE is not set, in `nivcsw` exactly otherwise; a pass for the forced pid, if that exceeds 1 and runs, only makes a signalled sleeper runnable |
| `Schedule.PassPicksARunnable` | FAILED_Linux_kernel_patch_attempt/scheduler_mod/sched_orig.c:5412-5481 | the running task leaves the queue exactly when it sleeps without a signal; what the classes pick of the queue, the tasks pulled or, on an empty queue, those balanced runs next, and the idle task exactly when there is none |
| `Schedule.PassKeepsReady` | FAILED_Linux_kernel_patch_attempt/scheduler_mod/sched_mod.c:5446-5518 | after each pass the running task is queued or is the idle task |
| `Profiling.SessionAnswers` | FAILED_Linux_kernel_patch_attempt/km_os_ctrl/os_ctrl.c:293-446 | start, any run of timers and reads, stop, read, from any state: the answer is the profile of exactly this session, with the time spent invalidating in between and both counter differences, or zeros when no read came in between and the last one before saw an enabling command |
| `Profiling.SessionSucceedsIff` | FAILED_profiling_lib/libprf.c:136-138 | stopping reports success if and only if time was measured and both counters moved by a multiple of 256; unanswered, if and only if time passed |
| `Profiling.SuccessIff` | FAILED_profiling_lib/libprf.c:136-138 | the status in terms of what the module put into its answer |
| `Profiling.SwitchesGoUnnoticed` | FAILED_profiling_lib/libprf.c:138-138 | 256 switches between start and stop are reported as success, from any state that answers |
| `Profiling.MeasuredIsExact` | FAILED_profiling_lib/libprf.c:136-136 | for times in the range of a `long`, the run time less the invalidation time, and zero instead of a negative one |
| `Profiling.RunStaysProfiled` | FAILED_Linux_kernel_patch_attempt/km_os_ctrl/os_ctrl.c:293-340 | without writes the starting counters are kept, the cache timer fires at most once, and the recorded invalidation time is the time spent |
| `Protocol.ParseOfPack` | FAILED_profiling_lib/libprf.c:30-37 | what the module parses is the message the library packed, pid and delay included |
| `Protocol.PackOfParse` | FAILED_Linux_kernel_patch_attempt/km_os_ctrl/os_ctrl.c:359-390 | bytes of either command length come from exactly one message, those longer than the buffer overrun it, and every other length is garbage |
| `Protocol.AnswerFields` | FAILED_Linux_kernel_patch_attempt/km_os_ctrl/os_ctrl.c:324-336 | the library reads the time and the two low bytes that the module wrote |
| `Protocol.ElapsedIsExactIff` | FAILED_Linux_kernel_patch_attempt/km_os_ctrl/os_ctrl_common.h:24-24 | times computed in a `long` and stored as a `u64` are exact exactly in the range of a nonnegative `long` and its image at the top of `u64` |
| `OsControl.WatchdogBoundsForcing` | FAILED_Linux_kernel_patch_attempt/km_os_ctrl/os_ctrl.c:243-290 | in every state reachable with writes of at most 13 bytes: if a pid is forced or lines are masked, the reset timer is armed and at most 900000 ns have passed since the OS was disabled; each listed line is masked once or not at all, as `irq_enabled` says; the forced pid is the cached one |
| `OsControl.WatchdogHoldsIff` | FAILED_Linux_kernel_patch_attempt/km_os_ctrl/os_ctrl.c:354-359 | that holds in all states a sequence of events may lead to if and only if no write among them is longer than the 13-byte buffer, after which any state may follow |
| `OsControl.FourteenBytesOverrun` | FAILED_Linux_kernel_patch_attempt/km_os_ctrl/os_ctrl.c:354-359 | 14 bytes are such a write |
| `OsControl.EngagesIffDisables` | FAILED_Linux_kernel_patch_attempt/km_os_ctrl/os_ctrl.c:409-419 | a write disables the OS, under both timers, if and only if it is a disabling command for a task that exists and the last request was not already to disable |
| `OsControl.StaysReleased` | FAILED_Linux_kernel_patch_attempt/km_os_ctrl/os_ctrl.c:243-290 | once the watchdog or a read has released the machine, no later start engages before an explicit enable |
| `OsControl.UnknownPidStaysForced` | FAILED_Linux_kernel_patch_attempt/km_os_ctrl/os_ctrl.c:394-404 | a write that names no task enables the lines, but through everything that follows, short of a read, an enabling write or a timer, the scheduler stays forced; the reset timer ends it within 900000 ns of the start |
| `OsControl.ReleasedAfter` | FAILED_Linux_kernel_patch_attempt/km_os_ctrl/os_ctrl.c:229-240 | a read, an enabling write and both timers release the scheduler and every line |
| `OsControl.EnablingDisarms` | FAILED_Linux_kernel_patch_attempt/km_os_ctrl/os_ctrl.c:243-290 | after an enabling write or a read neither the reset timer nor the kill timer is armed, and after the write a new start engages |
| `OsControl.NoKillAfterStop` | FAILED_Linux_kernel_patch_attempt/km_os_ctrl/os_ctrl.c:199-290 | in every run, once a task was stopped or read, neither of the two timers can fire before the OS is disabled again |
| `OsControl.TimersAreSpent` | FAILED_Linux_kernel_patch_attempt/km_os_ctrl/os_ctrl.c:183-240 | each timer that fires is spent and leaves the others, but that the kill timer stops the cache timer |
| `OsControl.CacheTimerDelay` | FAILED_Linux_kernel_patch_attempt/km_os_ctrl/os_ctrl.c:384-430 | a start arms the cache timer for its microseconds, at most 999999999 ns, or not at all for zero |
| `OsControl.FailedWrites` | FAILED_Linux_kernel_patch_attempt/km_os_ctrl/os_ctrl.c:384-407 | a write that cannot be copied, has another length or names no task hands out no profile and leaves the forced pid and the timers |
| `OsControl.UnknownCommandIsIgnored` | FAILED_Linux_kernel_patch_attempt/km_os_ctrl/os_ctrl.c:408-446 | a command that is neither of the two only stops the cache timer |
| `OsControl.DeliveredOnce` | FAILED_Linux_kernel_patch_attempt/km_os_ctrl/os_ctrl.c:293-340 | a profile is handed out at most once: after any read, none until the next write |
| `OsControl.OtherLinesUntouched` | FAILED_Linux_kernel_patch_attempt/km_os_ctrl/os_ctrl.c:30-31 | no run touches an interrupt line that is not listed |
| `OsControl.OsCtrl.IrqEnable` | FAILED_Linux_kernel_patch_attempt/km_os_ctrl/os_ctrl.c:30-30 | every line of the list is enabled, none twice, and the others are left alone |
| `OsControl.OsCtrl.IrqDisable` | FAILED_Linux_kernel_patch_attempt/km_os_ctrl/os_ctrl.c:31-31 | every line of the list is masked once, and the others are left alone |
| `OsControl.OsCtrl.SetPidForceRun` | FAILED_Linux_kernel_patch_attempt/scheduler_mod/sched_mod.c:5419-5432 | the forced pid and its cache are the argument, however it was cached before |
| `OsControl.OsCtrl.SetOs` | FAILED_Linux_kernel_patch_attempt/km_os_ctrl/os_ctrl.c:243-290 | the state after a request to disable or enable, or no change when it repeats the last one |
| `OsControl.OsCtrl.OnReadHandler` | FAILED_Linux_kernel_patch_attempt/km_os_ctrl/os_ctrl.c:293-340 | releases the machine, stops the timers, and returns ten bytes: the invalidation time and the low bytes of the counters, or zeros; nothing at a positive offset |
| `OsControl.OsCtrl.OnWrittenHandler` | FAILED_Linux_kernel_patch_attempt/km_os_ctrl/os_ctrl.c:343-449 | from up to 13 bytes written: the state after each kind of message, and failure for those that could not be copied, have another length or name no task; nothing is promised for longer writes |
| `OsControl.OsCtrl.ParseCommand` | FAILED_Linux_kernel_patch_attempt/km_os_ctrl/os_ctrl.c:356-390 | the pid, command and delay of bytes that fit the buffer, or a reset of the counters for any other length |
| `OsControl.OsCtrl.InvalidateL1CacheInterruptHandler` | FAILED_Linux_kernel_patch_attempt/km_os_ctrl/os_ctrl.c:183-196 | the two times of the invalidation, and no timer left |
| `OsControl.OsCtrl.SchedResetInterruptHandler` | FAILED_Linux_kernel_patch_attempt/km_os_ctrl/os_ctrl.c:229-240 | releases the machine |
| `OsControl.OsCtrl.KillApplicationInterruptHandler` | FAILED_Linux_kernel_patch_attempt/km_os_ctrl/os_ctrl.c:199-226 | releases the machine, stops the cache timer, and kills only a task that is found and is not pid 0 |
| `OsControl.OsCtrl.CleanupModule` | FAILED_Linux_kernel_patch_attempt/km_os_ctrl/os_ctrl.c:489-515 | unloading leaves nothing forced, masked or armed |
| `CalcDelta.CalcDeltaMine` | FAILED_Linux_kernel_patch_attempt/scheduler_mod/sched_mod.c:1301-1325 | caches the inverse on first use and returns the scaled product clamped to LONG_MAX |
| `CalcDelta.LazyInverseIsRounded` | FAILED_Linux_kernel_patch_attempt/scheduler_mod/sched_mod.c:1307-1313 | the cached inverse is floor((2^32 + ceil(w/2)) / (w+1)), a nearest integer to 2^32/(w+1) |
| `CalcDelta.ZeroWeightIsNeverCached` | FAILED_Linux_kernel_patch_attempt/scheduler_mod/sched_mod.c:1307-1313 | a zero weight has inverse zero, so it is computed anew each time |
| `CalcDelta.NoProductWraps` | FAILED_Linux_kernel_patch_attempt/scheduler_mod/sched_mod.c:1315-1324 | on the domain no 64-bit product wraps, in either branch |
| `CalcDelta.LazyInverseIsInDomain` | FAILED_Linux_kernel_patch_attempt/scheduler_mod/sched_mod.c:1307-1313 | a weight at most the divisor, with the divisor's inverse, is in that domain |
| `CalcDelta.FixedPointError` | FAILED_Linux_kernel_patch_attempt/scheduler_mod/sched_mod.c:1315-1324 | before the clamp, the error against delta * weight * inv is at most 2^31, and 2^31 + 2^15 * inv in the large branch |
| `CalcDelta.QuotientError` | FAILED_Linux_kernel_patch_attempt/scheduler_mod/sched_mod.c:1301-1325 | end to end, the error against the division that the inverse stands for |
| `CalcDelta.TableInversesAreAccurate` | FAILED_Linux_kernel_patch_attempt/scheduler_mod/sched_mod.c:1363-1390 | each tabulated inverse is within one of 2^32 divided by its weight |
| `CpuLoad.LoadHistory.UpdateCpuLoad` | FAILED_Linux_kernel_patch_attempt/scheduler_mod/sched_mod.c:3033-3056 | every slot after one tick, in 32-bit arithmetic |
| `CpuLoad.SlotDecaysIffNoOverflow` | FAILED_Linux_kernel_patch_attempt/scheduler_mod/sched_mod.c:3044-3055 | a slot moves towards the load without overshoot, keeping floor(d * (2^i - 1) / 2^i) of its distance d, if and only if the dividend fits 32 bits |
| `CpuLoad.LoadBoundIsExact` | FAILED_Linux_kernel_patch_attempt/scheduler_mod/sched_mod.c:3044-3055 | 2^32 / 2^i is the largest bound on loads under which slot i cannot overflow |
| `CpuLoad.ConstantLoadConverges` | FAILED_Linux_kernel_patch_attempt/scheduler_mod/sched_mod.c:3033-3056 | under a constant load whose dividend fits at the larger of start and load, every tick moves the slot closer without overshoot, and it equals the load after as many ticks as its distance |
| `CpuLoad.ConvergesIffFits` | FAILED_Linux_kernel_patch_attempt/scheduler_mod/sched_mod.c:3033-3056 | every tick does so if and only if that dividend fits |
| `CpuLoad.RunStaysInRange` | FAILED_Linux_kernel_patch_attempt/scheduler_mod/sched_mod.c:3033-3056 | with a varying load a slot stays within the range of its start and the loads seen |
| `RtAverage.DecayEndsIff` | FAILED_Linux_kernel_patch_attempt/scheduler_mod/sched_mod.c:1256-1264 | some number of passes ends the decay loop if and only if the period is positive or the clock has not passed the stamp |
| `RtAverage.ZeroPeriodNeverEnds` | FAILED_Linux_kernel_patch_attempt/scheduler_mod/sched_mod.c:1251-1264 | with `sysctl_sched_time_avg` at zero and the clock 1 ns past the stamp no number of passes does |
| `RtAverage.Rq.SchedAvgUpdate` | FAILED_Linux_kernel_patch_attempt/scheduler_mod/sched_mod.c:1256-1264 | whenever it ends, the decay loop leaves the repeated halving, with the stamp within one period of the clock |
| `RtAverage.Rq.SchedRtAvgUpdate` | FAILED_Linux_kernel_patch_attempt/scheduler_mod/sched_mod.c:1266-1270 | charges and then decays |
| `RtAverage.Rq.ScaleRtPower` | FAILED_Linux_kernel_patch_attempt/scheduler_mod/sched_mod.c:3620-3636 | decays and divides, the subtraction being a `u64` one and the divisor a `u32` |
| `RtAverage.DecayedIs` | FAILED_Linux_kernel_patch_attempt/scheduler_mod/sched_mod.c:1256-1264 | the loop halves the average once per period it advances the stamp, and stops at the first stamp within one period |
| `RtAverage.HalvingsDivide` | FAILED_Linux_kernel_patch_attempt/scheduler_mod/sched_mod.c:1256-1264 | halving k times is dividing by 2^k |
| `RtAverage.RunKeepsInv` | FAILED_Linux_kernel_patch_attempt/scheduler_mod/sched_mod.c:1251-1270 | in every run whose charges fit the time since the last update and whose period never shrinks, the average is at most the period plus the clock minus the stamp, at every step |
| `RtAverage.PowerNeverUnderflows` | FAILED_Linux_kernel_patch_attempt/scheduler_mod/sched_mod.c:3620-3628 | reading the power after such a run subtracts without wrapping |
| `RtAverage.GuardsAreExact` | FAILED_Linux_kernel_patch_attempt/scheduler_mod/sched_mod.c:1251-1270 | both guards are exact: a charge keeps every bounded average bounded if and only if it is at most the time since the last update, and a new period if and only if it is at least the old one |
| `RtAverage.ShrunkPeriodUnderflows` | FAILED_Linux_kernel_patch_attempt/scheduler_mod/sched_mod.c:1251-1270 | a concrete run in which a smaller period makes the subtraction wrap |
| `RtAverage.ChargeAfterDecayUnderflows` | FAILED_Linux_kernel_patch_attempt/scheduler_mod/sched_mod.c:1251-1270 | a concrete run whose charge fits the time since the last charge but not since the last decay: the subtraction wraps |
| `RtAverage.PowerRange` | FAILED_Linux_kernel_patch_attempt/scheduler_mod/sched_mod.c:3630-3635 | with the average within a total below 2^42 ns, the power is the share of time left, bracketed on both sides, and at most 1024 once the total reaches 2^20 |
| `RtAverage.DivisorFitsIff` | FAILED_Linux_kernel_patch_attempt/scheduler_mod/sched_mod.c:3630-3635 | the 32-bit divisor is the total shifted down if and only if the total is below 2^42 ns |
| `RtAverage.PowerAtMostScale` | FAILED_Linux_kernel_patch_attempt/scheduler_mod/sched_mod.c:3630-3635 | for smaller totals, exactly when the power is at most 1024 |

## Left out

- `double_lock_balance` of a runqueue with itself: callers never ask for it; it would spin on its own lock.
- Completions.PositiveIffTaken: fails for a negative timeout with a token at hand, as its statement says; the token is gone and the result negative.
- BandwidthControl.TgSetBandwidth: a zero period, of a group or just written to the sysctl, divides by zero in `to_ratio`; the model answers zero there, and BandwidthRuns.ZeroPeriodDivides says when the second happens. No caller passes the first.
- BandwidthRuns.EveryRunHolds: groups do not come and go while a request's walk is under way, and the check of one group reads the sysctls once.
- BandwidthRuns.CreateEases: groups are linked and unlinked on the sequences of children; the list operations of `sched_create_group` and `sched_destroy_group` in place are not modelled.
- RtAverage.Rq.ScaleRtPower: for totals from 2^42 ns the truncated divisor may be zero, which would trap; the model answers zero there.
- BalanceTasks.BalanceTasks: for budgets from 2^31 the result is the sum modulo 2^32, because the rest is compared as a signed number.
- LoadBalance.LoadBalance: ends where tasks are moved; failure counters, balance intervals and the kick of active balancing are not modelled, and what `move_tasks` reports is a parameter.
- BusiestGroup.FindBusiestGroup: the group tallies are parameters; GroupStats models how one is computed.
- MigrationRequests.ServiceEnds: no fairness among requests; they are added at the head, so an old one may wait behind new ones.
- Accounting.CountersAgree: tasks being frozen, which `task_contributes_to_load` leaves out, and priority changes, which dequeue and enqueue in place, are not modelled; nor is the idle task that CPU-down puts on a queue.
- NohzBalancer.Ownership: which idle CPU `find_new_ilb` proposes is a parameter.
- Schedule.Rq.SchedulePatched: one pass only; a blocked pass leaves need_resched set and the big kernel lock held, so the loop around it is not followed.
- Profiling.SessionSucceedsIff: every file operation of the library succeeds and reads once, at offset 0; its error codes for failing ones are not modelled.
- Protocol.ElapsedIsExactIff: a `long` that overflows in the library wraps, which C leaves open.
- OsControl.OsCtrl.OnWrittenHandler: what lies beside the buffer in memory, and so what a longer write changes.
- RtAverage.Rq.SchedAvgUpdate: called only when its loop ends; RtAverage.DecayEndsIff says when.
- OsControl.WatchdogBoundsForcing: handlers are atomic; an interrupt between arming the timers and disabling the OS is not modelled.
- The L1 cache invalidation assembly: it does not touch the modelled state.
- Class internals (`sched_fair.c`, `sched_rt.c` are not part of this model), context switching, CPU time accounting, tracing, cgroup files, permissions and allocation failures.
- `update_group_power`, `load_balance_newidle`, `active_load_balance` and `find_new_ilb`: easier relatives of what is modelled.
- The tests of the user-space library and the workload generators.
