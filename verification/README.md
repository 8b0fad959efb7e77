# ebpf-rca: verified model

A Dafny model of the protocols and accounting schemes of the eBPF observer in `ebpf-rca/`: kernel hooks
that fold events into BPF maps, and a poller that turns those maps into window deltas, detections and
incident reports. `dafny verify dfyconfig.toml` checks everything.

Each component has a pure specification of its state changes, a class whose methods update the same state
in place and are proved against it, and theorems over all runs of the specification. Whole runs are
sequences of steps in any interleaving the environment allows; nothing is bounded.

| module | what it models |
|---|---|
| `FutexMutex` | the three-state futex lock of the load generator, any number of threads, one atomic operation at a time |
| `LiveRunCredit`, `CpuCollector`, `CpuHistory` | CPU time of tasks that are still running: early credit, repaid from the kernel counter; the CPU poll loop, and what it charges over many polls |
| `BlockQueue`, `BlockHistory`, `BlockPoll`, `BlockStartup` | block request life cycle, the incremental queue-area integral, the maps told from the events, the I/O poll, the attach and arm handshake |
| `ReclaimHandshake` | direct-reclaim accounting and its begin / mark / end start-up order |
| `LogHistogram` | log2 slots and the percentile and maximum loops of the I/O, lock and system-call collectors |
| `TargetIdentity`, `TargetTree`, `TargetMembers` | process-instance identities and the map sync, the process-tree closure and the bounded ancestor walk, the membership tracker |
| `OffCpu`, `LockPoll` | off-CPU waits charged at `sched_switch`, and their grouping by the lock poll |
| `IncidentReport` | aggregation of anomaly reports into incidents, and the compaction pass |
| `Lifecycle`, `SessionRun` | the collector tracker, the session validation, the single-scenario and all-collector runners, the end of a session |
| `SustainDetector`, `MemDetector` | sustained-threshold detection with any key; the memory detector with its out-of-memory reset and its choice of culprit |
| `MemPressurePlan` | the memory-pressure plan and split in 64-bit arithmetic |
| `FiniteSums`, `Common` | optional values, sums over finite sets, counter differences and shared constants |

## Environment assumptions

- Times and counters are unbounded naturals. 64-bit wrap-around is modelled where it decides a result:
  the percentile target, identity ticks, the memory-pressure plan and split.
- futex(2): FUTEX_WAIT compares and queues in one step and may return spuriously or with an error;
  FUTEX_WAKE(1) wakes a sleeper when there is one and does not fail.
- CPU: switch-in and switch-out of a task alternate. The walk over the on-CPU map may miss an entry and the
  monotonic clock may be unreadable, at any poll. A counter entry is replaced between two polls, not
  between the reads of one.
- Block: `AreaIsResidencePlusSkew` and `ReportedAreaIs` assume nothing about clocks; the theorems with
  `InOrder` or `Ordered` assume event times, and poll times, in the order of the device lock.
- Reclaim: begin and end alternate per thread, and the `/proc` walk visits every thread that lives
  throughout it.
- Processes: start times are read per refresh phase from arbitrary tables, so a process may change or
  vanish between two reads. "The root is lost" means that no later read of the root id returns the bound
  start time, which holds when a later process never has the start time of an earlier one.
- `moreSevere`, the choice of the representative report, is an arbitrary verdict for each addition;
  key metrics are exact integers in the unit the program rounds to.

## What the code does not guarantee

Each of these is shown by a lemma with an input or a run, next to the theorem that says exactly when, or by
how much, the property fails.

- `LiveRunCredit.MissedEntryCountsTwice`, `MissOnARun`: a walk that misses a live entry makes the part of the
  interval that had been reported count twice. `NoDoubleCounting` bounds the excess of every run by what was
  forgotten in this way, and `ConsistentPollExactIff` says which polls are exact and which exceed the run time.
- `LiveRunCredit.UnnoticedReplacement`: a counter that is replaced between two polls by one that is already
  ahead of it is taken for the same; the charge falls short by the old counter and the credit repaid, and is
  right if and only if both are 0. `NewGeneration` covers every replacement that reads less.
- `BlockQueue.LockOrderInversionCountsTwice`: handlers that take the device lock in the opposite order of
  their clock readings inflate the queue area, by the amount `AreaIsResidencePlusSkew` gives.
- `BlockPoll.LateHandlerDropsSnapshot`: an event timed before a poll but applied after it lowers the
  snapshot, and the counter delta reports the whole counter again. `ReportedAreaIs` gives the amount, and by
  `ReportedAreaExactIff` the report is exact if and only if no poll finds a smaller area than the last one.
- `BlockStartup.TieChargesMiss`: a request allocated at the very nanosecond of the boundary is a false miss;
  by `MissesAreTies` those are all the misses there are while no update fails.
- `ReclaimHandshake.EndBeforeMarkChargesMiss`: with the end hook attached before the walk a miss is charged
  although nothing was lost; `MissIff` says which reclaims are charged in any order of the hooks.
- `LogHistogram.TargetWraps`: the percentile target overflows above 2^64 / 99 samples; by `TargetExactIff` it
  is the ceiling if and only if nothing overflows. The reported percentile is at least the true one exactly
  when the true one fits the histogram (`PercentileBound`).
- `TargetMembers.StaleSeedForObservedReuse`: an id that is retired and observed at once is accepted for the
  new process but seeded with the old one, and the new process passes that seed if and only if the two
  started within a tick (`SeedAfterObservedReuse`).
- `TargetMembers.RootReplacedBetweenReads`: the root's start time is read twice in a refresh; a replacement
  in between is seeded for one window.
- `OffCpu.TieChargesRunTime`: a thread back on the CPU at the instant it was stamped keeps its entry, and its
  later run time is charged as a wait. By `AccountExactIff` that is the only way to charge too much, and
  `PhantomIffOverstays` gives the events and the amount.
- `IncidentReport.OutOfOrderOverlaps`: out of time order, incidents of one key can overlap and compaction
  merges them. `StreamDisjointIff` says for which streams they stay apart, `AgainIff` for which reports a
  second compaction changes nothing.
- `Lifecycle.EndIsValid`: a failure whose error text is empty makes the session document invalid, and so does
  a health snapshot without counters; nothing else does.
- `MemPressurePlan.HugeRequestGranted`: above 2^64 - 2^20 bytes the rounding overflows and the plan grants
  the request as it stands.

One limit of an interface, which no collector meets because each builds one sample for a key:
`SustainDetector.DuplicateSamplesSignalEarly`, two samples of one key in one call count as two windows.

## Model

| member | source | states |
|---|---|---|
| `FutexMutex.EveryRunIsSafe` | ebpf-rca/cmd/rca-testload/main.go:254-288 | In every run of any number of threads: at most one holder, the word is non-zero exactly when there is one, no unlock finds the word 0, and while someone sleeps the word is 2, a wake is pending or a waiter is about to swap in 2 |
| `FutexMutex.OperateSafe` | ebpf-rca/cmd/rca-testload/main.go:254-288 | Every single atomic operation of lock and unlock keeps that invariant |
| `FutexMutex.StepSafe` | ebpf-rca/cmd/rca-testload/main.go:254-288 | So do wake-ups, refused waits and spurious wake-ups |
| `FutexMutex.AllStuckIsDrained` | ebpf-rca/cmd/rca-testload/main.go:273-288 | When every thread is done or asleep, nobody is asleep and the lock is free: no wake-up is lost |
| `FutexMutex.StepDecreases` | ebpf-rca/cmd/rca-testload/main.go:259-287 | Every step but a spurious wake-up decreases the lexicographic measure (call phases, word not 2, loop positions); a spurious wake-up raises it by at most 3 |
| `FutexMutex.RunsAreBounded` | ebpf-rca/cmd/rca-testload/main.go:254-288 | A run is no longer than the starting measure plus four steps for each spurious wake-up |
| `FutexMutex.ProgressOrDrained` | ebpf-rca/cmd/rca-testload/main.go:259-287 | Some thread can move without a spurious wake-up if and only if not all calls have returned with the lock free and nobody asleep |
| `FutexMutex.RunKeepsLedger` | ebpf-rca/cmd/rca-testload/main.go:254-271 | Lock calls are conserved: granted, refused, waiting and still to start always add up to those asked for |
| `FutexMutex.MaximalRunDrains` | ebpf-rca/cmd/rca-testload/main.go:254-288 | A run that cannot be extended ends with all calls returned, nobody asleep, and each lock call counted once as an acquisition or refused |
| `FutexMutex.WordSays` | ebpf-rca/cmd/rca-testload/main.go:228-288 | At every point of every run the word is 2 exactly when a thread that found the lock taken has swapped since the last release, 1 when it is owned and nobody has, and 0 otherwise |
| `FutexMutex.WaitCallsAreCounted` | ebpf-rca/cmd/rca-testload/main.go:259-271 | In every run the wait counter is the number of swaps that found the lock owned, less the threads that have not counted theirs yet |
| `FutexMutex.WakeCallsAreCounted` | ebpf-rca/cmd/rca-testload/main.go:273-288 | And the wake counter the number of releases of a lock that was swapped for since the release before |
| `FutexMutex.UncontendedIsFast` | ebpf-rca/cmd/rca-testload/main.go:254-288 | In a run in which lock calls find the lock free no thread ever swaps, waits or wakes, the word stays 0 or 1, and both call counters stay 0 |
| `FutexMutex.Machine.Perform` | ebpf-rca/cmd/rca-testload/main.go:254-288 | Every step, an operation of a thread, a wake of a sleeper, a refused wait or a spurious return, on the shared word, counters and threads in place, is the step the theorems are about |
| `FutexMutex.Machine.Operation` | ebpf-rca/cmd/rca-testload/main.go:254-288 | The next operation of one thread in place is the specified one, whose values `WordSays` and the two counter theorems pin from actions and program counters alone |
| `FutexMutex.Machine.CompareAndSwap` | ebpf-rca/cmd/rca-testload/main.go:254-258 | The swap happens exactly when the word is the expected one, and nothing else changes |
| `FutexMutex.Machine.SwapWord` | ebpf-rca/cmd/rca-testload/main.go:259-276 | The word is replaced and its previous value returned |
| `LiveRunCredit.NoDoubleCounting` | ebpf-rca/internal/collector/collector.go:245-270 | However scheduler steps fall between the three reads, and whichever walks miss the entry, reported time is the counter read plus outstanding credit, and the total exceeds the true run time by at most what missed walks have forgotten |
| `LiveRunCredit.NothingForgotten` | ebpf-rca/internal/collector/collector.go:245-270 | Nothing is forgotten while every walk returns the entry of an interval that has been reported |
| `LiveRunCredit.ExactWhileConsistent` | ebpf-rca/internal/collector/collector.go:388-429 | While no poll was torn, missed an open interval or lost an update, the reported total equals the run time in the maps, which falls short of the true run time by exactly what intervals ran before their entry |
| `LiveRunCredit.ExactWhenEverythingIsSeen` | ebpf-rca/internal/collector/collector.go:388-429 | With the hooks attached before the task first runs and no failed update, consistent polls report the true run time |
| `LiveRunCredit.PollReports` | ebpf-rca/internal/collector/collector.go:395-428 | After any poll, torn or missed or not, the total is the counter, plus the open interval if seen, plus the credit still owed, less what the credit knows of that interval |
| `LiveRunCredit.RecoversOffCpu` | ebpf-rca/internal/collector/collector.go:395-428 | Once the task is off the CPU with its counter caught up, the total exceeds the counter by what is still owed, at most what was forgotten, and the credit is gone if and only if nothing is owed |
| `LiveRunCredit.ConsistentPollExactIff` | ebpf-rca/internal/collector/collector.go:395-428 | A poll with consistent reads is exact if and only if what is owed is what the credit knows of the open interval, and exceeds the true run time if and only if more is owed than that and what the maps do not record |
| `LiveRunCredit.KernelStep` | ebpf-rca/bpf/cpu.bpf.c:240-295 | A scheduler step never takes recorded time back and true run time never decreases |
| `LiveRunCredit.RecordedSplit` | ebpf-rca/bpf/cpu.bpf.c:212-295 | Every nanosecond of true run time is in the counter or the open entry, was lost to a failed update, or was run before the entry of its interval was made, each told from the events by itself |
| `LiveRunCredit.EntryRecords` | ebpf-rca/bpf/cpu.bpf.c:212-295 | Time passes unrecorded exactly while the running interval has no entry; a stored switch-in or heartbeat gives it one and records nothing after the fact |
| `LiveRunCredit.MissedEntryCountsTwice` | ebpf-rca/internal/collector/collector.go:400-428 | For every interval reported up to t0, missed and seen again, its first part is reported once more |
| `LiveRunCredit.MissOnARun` | ebpf-rca/internal/collector/collector.go:400-428 | A run on which that happens, from the start of the task |
| `LiveRunCredit.NewGeneration` | ebpf-rca/internal/collector/collector.go:388-394 | When a fresh counter replaces a polled one and the next poll reads less, from then on the collector stands where one that never saw the old task would stand, and reports since the replacement what that one reports: nothing is owed from the old task |
| `LiveRunCredit.GenerationsAddUp` | ebpf-rca/internal/collector/collector.go:388-429 | Through any number of tasks with one key, what is reported in all is the sum of what collectors of their own would report for each |
| `LiveRunCredit.AloneIsBounded` | ebpf-rca/internal/collector/collector.go:388-429 | And for none of them is more reported than it has run and missed walks have forgotten |
| `LiveRunCredit.UnnoticedReplacement` | ebpf-rca/internal/collector/collector.go:388-429 | A replacement by a counter that is already ahead of the old one falls short by the old counter and the credit it repays, so it is right if and only if both are 0 |
| `CpuCollector.Collector.LiveRunDelta` | ebpf-rca/internal/collector/collector.go:388-429 | When the counter went back the charge is the new counter plus the visible open interval, and only that interval stays as credit; otherwise the in-place update returns the charge the theorems are about; no other task's credit is touched |
| `CpuCollector.Collector.ShouldDeleteTask` | ebpf-rca/internal/collector/collector.go:431-438 | A task is dropped exactly at its third consecutive inactive window without a process |
| `CpuCollector.Collector.ChargeTask` | ebpf-rca/internal/collector/collector.go:295-330 | One task's four deltas come from its own counters and credit, and a dropped task keeps no credit |
| `CpuCollector.AllDescribedInsert` | ebpf-rca/internal/collector/collector.go:295-350 | Adding one thread keeps every process entry the sums of run time, run-queue wait and count and context switches of the threads seen, and their hottest thread |
| `CpuCollector.AllHandledInsert` | ebpf-rca/internal/collector/collector.go:295-350 | Handling one task leaves every other task's counters, credit and stale count alone |
| `CpuCollector.Collector.Poll` | ebpf-rca/internal/collector/collector.go:234-386 | In any order of the snapshot each task is charged from its own counters and credit and its stale count moves on, the poller's own process is left out, and each process entry has the four sums of its active threads and the hottest of them |
| `CpuHistory.ChargesAreReported` | ebpf-rca/internal/collector/collector.go:234-330 | Over any polls the run time charged to a task is, at every point, what a run of scheduler and poller with the same reads reports, so its theorems hold of the collector |
| `CpuHistory.NeverChargedTooMuch` | ebpf-rca/internal/collector/collector.go:234-330 | Hence no sequence of polls charges a task more than it has truly run and missed walks have forgotten |
| `CpuHistory.CountersAddUp` | ebpf-rca/internal/collector/collector.go:295-330 | Over any polls the switches, run-queue waits and their time charged to a task are the counters last read plus the final values of those it had before |
| `CpuHistory.KeptUnlessVanished` | ebpf-rca/internal/collector/collector.go:295-344 | A task read is kept, with what was read, unless it is the poller's own or for at least the third time in a row nothing moved and it was not in /proc |
| `BlockQueue.EveryRunCertified` | ebpf-rca/bpf/block.bpf.c:153-250 | In every run, arming included, and while no map update has failed, the in-flight gauge is the number of tracked requests of the device and the completion count is the sum of its slots |
| `BlockQueue.ArmedWithRequestsInFlight` | ebpf-rca/bpf/block.bpf.c:153-250 | A run from the empty maps that is armed, tracks requests and ends with a non-zero area, latency and bytes |
| `BlockQueue.BytesConserved` | ebpf-rca/bpf/block.bpf.c:153-250 | Issued bytes are exactly the accounted ones plus those in flight plus those lost, namely those its device was not credited with when the request finished |
| `BlockQueue.BytesNeverExceedIssued` | ebpf-rca/bpf/block.bpf.c:190-250 | Accounted bytes never exceed issued bytes, over partial, repeated and over-reported completions |
| `BlockQueue.AreaIsResidencePlusSkew` | ebpf-rca/bpf/block.bpf.c:146-248 | With no assumption on clocks, the incremental integral at any time is the sum of per-request residence times plus exactly the accumulated clock skew |
| `BlockQueue.AreaExactInOrder` | ebpf-rca/bpf/block.bpf.c:146-248 | With device events in clock order the two are equal, and an idle device has queue area equal to total latency |
| `BlockQueue.LockOrderInversionCountsTwice` | ebpf-rca/bpf/block.bpf.c:146-187 | On a run with handlers in the opposite order of their clock readings the area is 40 for a residence of 30 |
| `BlockQueue.Program.GetDev` | ebpf-rca/bpf/block.bpf.c:125-144 | A device entry is found or created with its clock started, or the failure is counted |
| `BlockQueue.Program.AccountQueueLocked` | ebpf-rca/bpf/block.bpf.c:146-151 | The integral advances by depth times elapsed time, and the clock of the device moves to the event |
| `BlockQueue.Program.HandleIssue` | ebpf-rca/bpf/block.bpf.c:153-188 | The issue handler on the maps is the specified step |
| `BlockQueue.Program.PutBoundary` | ebpf-rca/internal/collector/io.go:98-106 | Arming stores the boundary and changes nothing else |
| `BlockQueue.Program.HandleComplete` | ebpf-rca/bpf/block.bpf.c:190-250 | The completion handler on the maps is the specified step, latency slot included, which `DevicesAreHistory` pins from the events |
| `BlockHistory.StartIsHistory` | ebpf-rca/bpf/block.bpf.c:153-250 | At every point of every run the boundary and each start entry are those of the events: the entry has time, size and device of the issue it stands for and the bytes its own completions moved |
| `BlockHistory.DevicesAreHistory` | ebpf-rca/bpf/block.bpf.c:153-250 | In every run, failed updates included, the slots of a device are the histogram of the times from issue to completion of the requests finished on it, folded from the events alone; its latency total is their sum, its count their number, its bytes those moved without error and no more than asked for, its gauge those issued and not finished |
| `BlockHistory.HealthIsHistory` | ebpf-rca/bpf/block.bpf.c:153-250 | Each of the five health counters is the number of events of its kind, told from the events |
| `BlockPoll.ReportedAreaIsResidence` | ebpf-rca/internal/collector/io.go:155-177 | With handlers and polls in clock order, right after any poll the area deltas reported since the start add up to the residence time of the device's requests up to the poll |
| `BlockPoll.ReportedAreaIs` | ebpf-rca/internal/collector/io.go:155-177 | With no assumption on clocks they add up to the residence time plus the handlers' skew, plus what the device is ahead of the poll, plus every snapshot forgotten by a smaller one |
| `BlockPoll.ReportedAreaExactIff` | ebpf-rca/internal/collector/io.go:155-177 | With the handlers in order the total is the residence time if and only if no poll found a smaller area than the one before |
| `BlockPoll.OrderedNeverDrops` | ebpf-rca/internal/collector/io.go:155-177 | With all clocks in order no poll finds a smaller area |
| `BlockPoll.SnapshotsMonotone` | ebpf-rca/internal/collector/io.go:155-177 | The polled area never goes back between two polls |
| `BlockPoll.LateHandlerDropsSnapshot` | ebpf-rca/internal/collector/io.go:155-177 | A run on which a handler overtaken by a poll lowers the snapshot: 90 is reported for a residence of 40 |
| `BlockPoll.Poller.Poll` | ebpf-rca/internal/collector/io.go:124-200 | The poll replaces the snapshots by extended ones, gives every device with completions its sample, 99th percentile and maximum included, and returns the sums of in-flight gauges and area deltas over all |
| `BlockPoll.SampleTellsWindow` | ebpf-rca/internal/collector/io.go:162-200 | On every run the sample of a device between two polls has the number of requests finished in between, the sum of their latencies and bytes and its depth, and its percentile and maximum bracket the nearest-rank and longest latency of exactly those requests |
| `BlockPoll.SampledIffFinished` | ebpf-rca/internal/collector/io.go:167-180 | A device gets a sample if and only if a request has finished on it since the last poll |
| `BlockPoll.GaugeIsInFlight` | ebpf-rca/internal/collector/io.go:162-200 | The in-flight total of a poll is the number of tracked requests in flight, while no update has failed |
| `BlockPoll.SnapshotsCompose` | ebpf-rca/internal/collector/io.go:155-161 | A snapshot can be extended again as the device itself would be |
| `BlockPoll.Poller.SnapshotAll` | ebpf-rca/internal/collector/io.go:139-161 | Every device is snapshot with its area extended to the poll at its current depth |
| `BlockPoll.SampleDevice` | ebpf-rca/internal/collector/io.go:167-191 | One device of the loop gets the sample of its two snapshots, through the percentile and maximum loops |
| `BlockPoll.Totals` | ebpf-rca/internal/collector/io.go:165-177 | The loop returns the sums over all devices of in-flight gauges and area deltas, and the sample of each device with completions |
| `BlockStartup.NoFalseCompletionMiss` | ebpf-rca/internal/collector/io.go:83-106 | Attaching completion, then issue, then arming, no completion is ever counted as missed while no update failed and the clock moved before the boundary was read |
| `BlockStartup.NoStaleEntries` | ebpf-rca/internal/collector/io.go:83-106 | Every tracked request is one the block layer still holds |
| `BlockStartup.TieChargesMiss` | ebpf-rca/bpf/block.bpf.c:190-222 | With a clock that stands still a false miss is charged |
| `BlockStartup.MissesAreTies` | ebpf-rca/bpf/block.bpf.c:190-222 | Over every start-up run without a failed update, a completion is counted as missed if and only if its request has no start entry and was allocated at the boundary |
| `BlockStartup.StartupIsBlockRun` | ebpf-rca/internal/collector/io.go:83-106 | Every start-up, with requests issued before and after arming, is a run of the request handlers in clock order |
| `BlockStartup.AccountsHoldFromStartup` | ebpf-rca/bpf/block.bpf.c:146-250 | So gauge, area and bytes are right from the first request on, with untracked requests in flight |
| `ReclaimHandshake.MissesAreRealLosses` | ebpf-rca/internal/collector/mem.go:146-161 | Over every run that attaches begin, marks live threads and attaches end, end misses never exceed failed begin updates |
| `ReclaimHandshake.TotalsAreExact` | ebpf-rca/bpf/mem.bpf.c:190-233 | Without failed updates the number and time of each process are those of the list of reclaims whose begin and end were both hooked, folded from the list, thread ids reused or not |
| `ReclaimHandshake.EndBeforeMarkChargesMiss` | ebpf-rca/internal/collector/mem.go:146-161 | For every start with a thread in reclaim, a run that attaches end before marking it charges a miss although no update failed |
| `ReclaimHandshake.MissIff` | ebpf-rca/bpf/mem.bpf.c:208-233 | In any order of hooks and walk, and while no begin update fails, a step charges a miss exactly if it ends under the end hook a reclaim whose begin was not hooked, in a thread without a marker |
| `ReclaimHandshake.MapsAreHistory` | ebpf-rca/bpf/mem.bpf.c:190-233 | In every run, with hooks and walk in any order and with failed updates, markers, open entries, totals and all three health counters are those told from the steps |
| `ReclaimHandshake.Program.HandleDirectBegin` | ebpf-rca/bpf/mem.bpf.c:190-206 | The begin handler on the maps is the specified step |
| `ReclaimHandshake.Program.HandleDirectEnd` | ebpf-rca/bpf/mem.bpf.c:208-233 | The end handler on the maps is the specified step |
| `LogHistogram.Log2U64` | ebpf-rca/bpf/lock.bpf.c:243-253 | The shift cascade computes floor(log2) of every 64-bit value |
| `LogHistogram.LatencySlot` | ebpf-rca/bpf/block.bpf.c:111-123 | The slot is floor(log2), the last slot taking everything above |
| `LogHistogram.Stage` | ebpf-rca/bpf/syscall.bpf.c:160-170 | One stage of the cascade halves the range of the logarithm and moves it into the slot |
| `LogHistogram.PercentileBound` | ebpf-rca/internal/collector/lock.go:350-371 | For any latencies and rank the bucketed answer is at most max(1, 2 true - 1), and at least the true nearest-rank value exactly when that value fits the histogram |
| `LogHistogram.WindowP99` | ebpf-rca/internal/collector/syscall.go:207-230 | From two cumulative snapshots to the bound on the window's reported 99th percentile |
| `LogHistogram.WindowHistogram` | ebpf-rca/internal/collector/syscall.go:207-226 | The slot-wise difference of two snapshots is the histogram of the latencies in between |
| `LogHistogram.RankReachedAt` | ebpf-rca/internal/collector/lock.go:357-366 | The running sum over the slots reaches the rank of a latency exactly at that latency's slot |
| `LogHistogram.TargetIsNearestRank` | ebpf-rca/internal/collector/lock.go:350-366 | Without overflow the target is the ceiling of p * total / 100, between 1 and the total |
| `LogHistogram.TargetWraps` | ebpf-rca/internal/collector/lock.go:350-366 | With overflow the target wraps to 1 |
| `LogHistogram.TargetExactIff` | ebpf-rca/internal/collector/lock.go:350-366 | The 64-bit target is the ceiling of p * total / 100 if and only if p * total + 99 fits 64 bits |
| `LogHistogram.NearestRankUnique` | ebpf-rca/internal/collector/lock.go:350-366 | The nearest-rank value the bound speaks of is unique |
| `LogHistogram.NearestRankExists` | ebpf-rca/internal/collector/lock.go:350-366 | And it exists for every rank up to the number of latencies |
| `LogHistogram.MaximumBound` | ebpf-rca/internal/collector/io.go:219-230 | The reported maximum brackets the true one in the same way |
| `LogHistogram.WindowMaximum` | ebpf-rca/internal/collector/io.go:219-230 | From two cumulative snapshots to the bracket of the longest latency in between |
| `LogHistogram.PercentileFromSlots` | ebpf-rca/internal/collector/lock.go:350-367 | The loop answers with the upper bound of the first slot whose running sum reaches the target |
| `LogHistogram.PercentileFromSnapshots` | ebpf-rca/internal/collector/syscall.go:207-226 | The same over the differences of two snapshots |
| `LogHistogram.P99FromSlots` | ebpf-rca/internal/collector/io.go:202-217 | The I/O variant, with the total taken from the request counter; it answers 0 exactly when there was none |
| `LogHistogram.MaxFromSlots` | ebpf-rca/internal/collector/io.go:219-226 | The loop answers with the upper bound of the highest slot in use, or 0 when none is |
| `LogHistogram.MaxFromSnapshots` | ebpf-rca/internal/collector/io.go:219-226 | The same over the differences of two snapshots |
| `TargetIdentity.MatchersAgree` | ebpf-rca/internal/collector/target.go:55-73 | The user-space matcher (seconds and remainder) and the BPF matcher (one division) agree on all 64-bit inputs |
| `TargetIdentity.SeedBindsInstance` | ebpf-rca/bpf/syscall.bpf.c:108-117 | A seed matches the process it was read from and none that started more than two ticks away |
| `TargetIdentity.ExactBindsInstance` | ebpf-rca/internal/collector/target.go:55-73 | An exact identity admits its own process and no other, not even one of the same tick |
| `TargetIdentity.BeatBinds` | ebpf-rca/bpf/syscall.bpf.c:119-158 | A hook that is not refused leaves a process it admits with an entry that admits exactly that process; one that is refused or admits nothing leaves the map alone; no other entry changes |
| `TargetIdentity.UpgradeKeepsMatch` | ebpf-rca/internal/collector/target.go:453-461 | A value upgraded from seed to exact by a hook still matches what is wanted |
| `TargetIdentity.KernelMap.Prune` | ebpf-rca/internal/collector/target.go:414-432 | The first loop deletes exactly the unwanted entries and notes those that match, while hooks upgrade seeds and enter processes they find; it fails if and only if the kernel refuses one of its operations |
| `TargetIdentity.KernelMap.SyncTargetTGIDMap` | ebpf-rca/internal/collector/target.go:410-451 | It fails if and only if the kernel refuses one of its operations, and then every entry is untouched, in step or entered by a hook. Otherwise, with hooks upgrading seeds and entering processes in between, all wanted ids end in the map and every other entry is one a hook entered meanwhile for a process its walk found; where no hook did, the value matches and a value that matched was replaced by nothing but its upgrade |
| `TargetIdentity.KernelMap.Fire` | ebpf-rca/bpf/syscall.bpf.c:119-158 | The hook on the map is the specified beat, and leaves, upgrades or has entered every entry |
| `TargetIdentity.KernelMap.RunHooks` | ebpf-rca/bpf/syscall.bpf.c:119-158 | The hooks of a turn do, one after the other, exactly what their beats say, and leave, upgrade or have entered every entry |
| `TargetTree.CollectTargetTGIDs` | ebpf-rca/internal/collector/target.go:520-539 | On any parent map, cycles included, the worklist search ends and returns exactly the root and its descendants |
| `TargetTree.ChildrenOf` | ebpf-rca/internal/collector/target.go:521-524 | The children table is the inverse of the parent map |
| `TargetTree.EnqueueAll` | ebpf-rca/internal/collector/target.go:530-536 | Every unseen child of the process in hand is seen and queued |
| `TargetTree.Visit` | ebpf-rca/internal/collector/target.go:527-537 | A round keeps the search invariant, and sees more or shortens the queue |
| `TargetTree.WalkAdmits` | ebpf-rca/bpf/syscall.bpf.c:140-157 | The unrolled walk admits exactly the tasks with the target among the first sixteen elements of their parent chain |
| `TargetTree.WalkWithinClosure` | ebpf-rca/bpf/syscall.bpf.c:140-157 | What the walk admits is in the closure when both see the same parents |
| `TargetTree.WalkMissesDeepProcesses` | ebpf-rca/internal/collector/target.go:406-409 | In a chain the closure holds every process and the walk exactly the first sixteen |
| `TargetMembers.EveryRunWellFormed` | ebpf-rca/internal/collector/target.go:107-230 | Over every run tree, retired and observed ids are kept apart from each other as the code relies on, each retired id is bound to a start time, counts stay in the grace, and a lost root is nowhere |
| `TargetMembers.LostRootIsRefused` | ebpf-rca/internal/collector/target.go:107-244 | From the first refresh that misses the root instance, for every later sequence of refreshes and observations, the root id is never contained, never seeded, and the BPF filter root is 2^32 - 1 |
| `TargetMembers.MembershipIsHistory` | ebpf-rca/internal/collector/target.go:268-289 | After any run an id is active exactly when the last refresh found it and retired exactly for the three refreshes after it left, unless it came back, lost its identity or was the lost root |
| `TargetMembers.ObservedDrains` | ebpf-rca/internal/collector/target.go:182-204 | An observed id stays exactly while fewer refreshes than its count have passed and its identity is unbroken |
| `TargetMembers.ObservedAccepts` | ebpf-rca/internal/collector/target.go:291-316 | While it drains, an observed id is accepted exactly for the process whose start time was last read for it, which is the one bound before if there was one and fits what the BPF side saw |
| `TargetMembers.ObservationGrants` | ebpf-rca/internal/collector/target.go:206-230 | From the observation itself: an id that stays outside the tree and is not observed again is kept exactly while fewer than three refreshes have passed and its identity is unbroken, whatever grace it had before; read again without an answer from /proc the start bound before stays; a refused observation changes nothing |
| `TargetMembers.AcceptedIsSameInstance` | ebpf-rca/internal/collector/target.go:291-316 | Outside the tree an id is accepted exactly within the grace of the instance last in the tree, while its number is free or still that instance's |
| `TargetMembers.SeedNamesProcess` | ebpf-rca/internal/collector/target.go:347-372 | An id that is only observed is seeded with the exact identity of the process that has the number now, one that is only retired with its start time; in the tree, or retired and observed at once, the seed names that process if and only if the start time held is its own |
| `TargetMembers.StaleSeedForObservedReuse` | ebpf-rca/internal/collector/target.go:355-370 | From every state of every initialised tracker a run leads there with an accepted process that fails the pushed seed |
| `TargetMembers.SeedAfterObservedReuse` | ebpf-rca/internal/collector/target.go:355-370 | An id that leaves the tree and is observed for another process is accepted for it and seeded for the old one; the new one passes if and only if they started within a tick |
| `TargetMembers.RootReplacedBetweenReads` | ebpf-rca/internal/collector/target.go:112-132 | A root replaced between the two reads is seeded for one window and refused from the next refresh on |
| `TargetMembers.RetiredAfter` | ebpf-rca/internal/collector/target.go:142-179 | What one refresh keeps of each retired id, with its count and bound start time |
| `TargetMembers.AdvanceTargetMembership` | ebpf-rca/internal/collector/target.go:268-289 | The three loops age, retire and restore ids as specified |
| `TargetMembers.RebindStarts` | ebpf-rca/internal/collector/target.go:140-159 | Newly retired ids take the start time of the instance that was active, and only retired ids keep one |
| `TargetMembers.DropReused` | ebpf-rca/internal/collector/target.go:160-180 | Retired ids that are unbound, reused or the lost root are dropped, and no others |
| `TargetMembers.DrainObserved` | ebpf-rca/internal/collector/target.go:182-204 | The drain loop over the observed ids, in any order |
| `TargetMembers.ReadStarts` | ebpf-rca/internal/collector/target.go:119-129 | Exactly the tree members whose start time can be read are kept, with it |
| `TargetMembers.Tracker.Initialize` | ebpf-rca/internal/collector/target.go:90-105 | Initialisation succeeds exactly when the root's start time was read, read again unchanged, and the root is in the snapshot and readable |
| `TargetMembers.Tracker.Refresh` | ebpf-rca/internal/collector/target.go:107-204 | The in-place refresh is the specified step |
| `TargetMembers.Tracker.Regroup` | ebpf-rca/internal/collector/target.go:138-204 | The part after the reads, in place, is the specified regrouping |
| `TargetMembers.Tracker.ObserveTGID` | ebpf-rca/internal/collector/target.go:206-230 | The in-place observation is the specified step, whose grace and start `ObservationGrants` pins over runs |
| `TargetMembers.Tracker.ContainsTGID` | ebpf-rca/internal/collector/target.go:291-316 | The lookup decides the membership the theorems are about |
| `TargetMembers.Tracker.TargetTGIDSeeds` | ebpf-rca/internal/collector/target.go:347-372 | The three loops build exactly the specified seeds |
| `TargetMembers.Tracker.SeedRetired` | ebpf-rca/internal/collector/target.go:355-359 | Retired ids that are accepted join the seeds with their bound start time |
| `TargetMembers.Tracker.SeedObserved` | ebpf-rca/internal/collector/target.go:360-370 | Observed ids that are accepted and in no other group join with their exact identity |
| `OffCpu.StatsAreLedger` | ebpf-rca/bpf/lock.bpf.c:302-375 | In every run each key's time, count and histogram are those of the waits completed with it, and the open entries are the recorded blocks, read off the event history alone |
| `OffCpu.WaitTimeIsConserved` | ebpf-rca/bpf/lock.bpf.c:302-375 | Off-CPU time plus waits that could not be entered is the time of the waits, told by blocks and resumes alone, plus phantom time; when time advances across every block it is exact; the count is the sum of the slots |
| `OffCpu.AccountExactIff` | ebpf-rca/bpf/lock.bpf.c:302-375 | It is exact if and only if no entry with the key was left behind by a resume at the instant of its block and charged later |
| `OffCpu.NoPhantoms` | ebpf-rca/bpf/lock.bpf.c:350-372 | If threads always return later than they were stamped, no phantom time exists |
| `OffCpu.WaitIffResumed` | ebpf-rca/bpf/lock.bpf.c:340-370 | A wait is counted if and only if an open recorded voluntary block is followed by the next time its thread id gets a CPU, later and by the same instance, with the time in between and under the key of the block |
| `OffCpu.OpenIsLast` | ebpf-rca/bpf/lock.bpf.c:312-339 | Every recorded block that is still open is the one the entry of its thread id holds |
| `OffCpu.BlockIsRecorded` | ebpf-rca/bpf/lock.bpf.c:302-339 | Exactly the voluntary blocks are recorded, told by the switch and the futex calls before it: admitted, not preempted, exiting or runnable, in a futex call or uninterruptible; the entry has that time, instance, stack, address and operation |
| `OffCpu.WaitingIsInCall` | ebpf-rca/bpf/lock.bpf.c:229-241 | A thread counts as waiting exactly from an admitted, stored call of one of the five waiting operations until it leaves it, makes another or is forgotten |
| `OffCpu.PhantomIffOverstays` | ebpf-rca/bpf/lock.bpf.c:340-370 | Time is charged that was no wait if and only if the entry was left behind by a resume at the instant of its block, from that block to the next later resume |
| `OffCpu.LossesAreCounted` | ebpf-rca/bpf/lock.bpf.c:255-300 | The health counters are exactly the blocks that could not be stamped, the waits that could not be entered and the futex calls that could not be stored |
| `OffCpu.TieChargesRunTime` | ebpf-rca/bpf/lock.bpf.c:350-372 | With a clock tie, run time is charged as a wait |
| `OffCpu.Program.HandleSwitch` | ebpf-rca/bpf/lock.bpf.c:302-375 | The switch handler on the maps is the specified step |
| `OffCpu.Program.AccountPrev` | ebpf-rca/bpf/lock.bpf.c:312-339 | A voluntary block of a member is stamped, or its failure counted |
| `OffCpu.Program.AccountNext` | ebpf-rca/bpf/lock.bpf.c:341-372 | The entry of another instance is dropped, one of the same instance is charged and removed |
| `OffCpu.Program.GetLockStat` | ebpf-rca/bpf/lock.bpf.c:255-271 | The entry is found or made, or the failure is counted and nothing changes |
| `OffCpu.Program.HandleFutexEnter` | ebpf-rca/bpf/lock.bpf.c:273-290 | The futex-enter handler on the maps is the specified step |
| `OffCpu.Program.HandleFutexExit` | ebpf-rca/bpf/lock.bpf.c:292-300 | The futex-exit handler on the maps is the specified step |
| `LockPoll.LockCollector.Poll` | ebpf-rca/internal/collector/lock.go:170-273 | Time, waits, every slot and every thread's share of a group are the sums over its active keys, a thread's longest wait is the longest of its keys, the stack, operation and last waker shown are those of a key with the longest time, and the next poll starts from what was read without the deleted keys |
| `LockPoll.GroupsPreserveTotals` | ebpf-rca/internal/collector/lock.go:235-271 | All groups together report exactly what the keys added in the window, for every measure |
| `LockPoll.ShareIsWaits` | ebpf-rca/internal/collector/lock.go:214-252 | What a poll takes for a key's share is, for every run of the scheduler's events, the time, number and histogram of the waits entered for it since the previous poll |
| `LockPoll.GroupsHoldWhatIsAdded` | ebpf-rca/internal/collector/lock.go:192-236 | The groups hold exactly the keys of interest whose time or count grew, and two keys share a group exactly if they are of one process and one address or, without an address, one stack |
| `LockPoll.KeptUnlessThirdIdle` | ebpf-rca/internal/collector/lock.go:192-231 | Poll after poll, a key read is kept, as read, if and only if it is of interest and not idle with its thread gone for the third time in a row |
| `LockPoll.TallyStep` | ebpf-rca/internal/collector/lock.go:235-262 | Folding one key into its group keeps all measures of all groups |
| `LockPoll.DominantStep` | ebpf-rca/internal/collector/lock.go:265-271 | And keeps the shown stack, operation and waker those of a key with the longest time |
| `LockPoll.PeakedStep` | ebpf-rca/internal/collector/lock.go:245-264 | And every thread's longest wait the longest of its keys |
| `LockPoll.AddSlots` | ebpf-rca/internal/collector/lock.go:247-252 | The slot loop adds the differences to the group and returns them for the thread |
| `LockPoll.AddKey` | ebpf-rca/internal/collector/lock.go:235-271 | The in-place update of the aggregate is the specified fold |
| `LockPoll.LockCollector.Visit` | ebpf-rca/internal/collector/lock.go:192-233 | An excluded key and an idle one gone for three polls are deleted, an active one joins its group |
| `IncidentReport.AggregateIsGrouping` | ebpf-rca/internal/report/report.go:36-53 | After any additions there is one report for each incident, and whichever report represents it, its window is the hull of the members with the elapsed time recomputed, waits and block counts are sums, the named lock and system-call metrics maxima, everything else is that of one member, and the merged count is the number of members |
| `IncidentReport.AffectedAre` | ebpf-rca/internal/report/report.go:229-237 | The affected ids of an incident are the threads its members are about, and the processes of those without a thread |
| `IncidentReport.HullBounds` | ebpf-rca/internal/report/report.go:303-320 | The hull contains every member's window and both its ends are members' |
| `IncidentReport.TouchIsGap` | ebpf-rca/internal/report/report.go:191-210 | Valid windows touch exactly if the gap between them, in either order, is at most 10 ms |
| `IncidentReport.NothingLost` | ebpf-rca/internal/report/report.go:36-53 | Whatever reports are weighed by, the incidents' members together weigh what was added |
| `IncidentReport.CountsAddUp` | ebpf-rca/internal/report/report.go:322-335 | The merged counts of all incidents add up to the number of additions |
| `IncidentReport.BlockCountConserved` | ebpf-rca/internal/report/report.go:239-258 | The block counts of all lock incidents add up to those of all lock reports added |
| `IncidentReport.MergeCombines` | ebpf-rca/internal/report/report.go:239-274 | Sums and maxima are those of both reports, and all else that of the one that is kept |
| `IncidentReport.OrderedStreamsStayApart` | ebpf-rca/internal/report/report.go:191-210 | In a stream ordered by time per key, incidents of one key lie more than 10 ms apart |
| `IncidentReport.AggregationIsIdempotent` | ebpf-rca/cmd/rca-report-compact/main.go:51-60 | Aggregating the output of such a stream again changes no incident, window or metric |
| `IncidentReport.OutOfOrderOverlaps` | ebpf-rca/internal/report/report.go:36-53 | Out of order two incidents can touch, and aggregating again merges them |
| `IncidentReport.AddKeepsDisjointIff` | ebpf-rca/internal/report/report.go:36-53 | The next report keeps the incidents of each key apart if and only if it touches none of its key but possibly the latest |
| `IncidentReport.StreamDisjointIff` | ebpf-rca/internal/report/report.go:36-53 | For streams in any order no two incidents of a key touch if and only if no report ever touches one of its key other than the latest |
| `IncidentReport.AgainIff` | ebpf-rca/cmd/rca-report-compact/main.go:51-60 | Adding reports to a new aggregator gives them back unchanged, metrics included, if and only if none touches the one of its key before it |
| `IncidentReport.Aggregator.AddReport` | ebpf-rca/internal/report/report.go:36-53 | The in-place addition is the specified step |
| `IncidentReport.Aggregator.AddAll` | ebpf-rca/cmd/rca-report-compact/main.go:51-54 | The compaction loop is the run of all additions |
| `Lifecycle.FailedIsAbsorbing` | ebpf-rca/cmd/ebpf-rca/runtime_state.go:38-66 | Under the runners' discipline a failed collector stays failed, with the same error |
| `Lifecycle.EveryRunKeeps` | ebpf-rca/cmd/ebpf-rca/runtime_state.go:38-104 | In every disciplined run partial holds exactly when some collector failed, and no error is set on one that has not |
| `Lifecycle.EndIsValid` | ebpf-rca/internal/schema/validate.go:162-208 | After any disciplined and complete run the collector section of the document is valid exactly when no failure came without a text and no health snapshot without counters |
| `Lifecycle.StoppedIffClean` | ebpf-rca/cmd/ebpf-rca/runtime_state.go:103-151 | A collector ends stopped exactly when nothing of it failed and no integrity counter was non-zero |
| `Lifecycle.StatusFromSteps` | ebpf-rca/cmd/ebpf-rca/runtime_state.go:57-101 | Failure and health error of each collector, from the steps alone |
| `Lifecycle.RowFromSteps` | ebpf-rca/cmd/ebpf-rca/runtime_state.go:38-101 | Over every disciplined run each field of a row is that of the steps: initialised, polls and the time of the last, error, health and phase |
| `Lifecycle.FinalRowFromSteps` | ebpf-rca/cmd/ebpf-rca/runtime_state.go:103-151 | So at the end of the session, where an unhealthy collector that had not failed carries its health text as the error |
| `Lifecycle.ValidateCollectors` | ebpf-rca/internal/schema/validate.go:162-208 | The loop accepts exactly the valid collector sections: complete, without duplicates, terminal, clean when stopped, explained when failed, with readable times and counter tables, partial consistent |
| `Lifecycle.CheckRow` | ebpf-rca/internal/schema/validate.go:172-201 | The checks of one row accept exactly the valid rows, last poll time and counter table included |
| `Lifecycle.CollectorTracker.FailUnhealthy` | ebpf-rca/cmd/ebpf-rca/runtime_state.go:103-124 | Exactly the collectors with a health error fail, and the result says whether there was one |
| `Lifecycle.CollectorTracker.CaptureHealth` | ebpf-rca/cmd/ebpf-rca/runtime_state.go:78-101 | The capture stores the snapshot with its cost figures and counters, or the error, and notes a non-zero integrity counter |
| `Lifecycle.CollectorTracker.Finish` | ebpf-rca/cmd/ebpf-rca/runtime_state.go:143-151 | Collectors in use stop, failed ones do not change |
| `Lifecycle.CollectorTracker.MarkInitialized` | ebpf-rca/cmd/ebpf-rca/runtime_state.go:38-45 | Recorded as ready; other collectors are untouched |
| `Lifecycle.CollectorTracker.PollOK` | ebpf-rca/cmd/ebpf-rca/runtime_state.go:47-55 | Recorded as running with one more poll and its time |
| `Lifecycle.CollectorTracker.Fail` | ebpf-rca/cmd/ebpf-rca/runtime_state.go:57-67 | Recorded as failed with its error, and the session as partial |
| `Lifecycle.CollectorTracker.HealthUnavailable` | ebpf-rca/cmd/ebpf-rca/runtime_state.go:69-76 | Every collector gets the health error |
| `Lifecycle.CollectorTracker.Rows` | ebpf-rca/cmd/ebpf-rca/runtime_state.go:153-161 | The rows are the statuses in the tracker's order |
| `Lifecycle.HealthIntegrity` | ebpf-rca/cmd/ebpf-rca/runtime_state.go:126-141 | Reports exactly non-zero counters named update_fail or _miss |
| `Lifecycle.LossyMeans` | ebpf-rca/cmd/ebpf-rca/runtime_state.go:126-141 | A counter table is lossy exactly if a counter whose name ends in one of the two endings is not 0 |
| `SessionRun.RunSession` | ebpf-rca/cmd/ebpf-rca/main.go:190-221 | For every pattern of outcomes: the session returns an error if and only if, strictly, anything of any collector fails or an output does, or otherwise an output fails or no collector is left, or without allowPartial a health is in doubt; unless it is cut short each row has one warm-up poll and one for each round it was active in, with the state and error it would have alone; the document is valid if errors have texts and snapshots counters |
| `SessionRun.AloneSays` | ebpf-rca/cmd/ebpf-rca/main.go:356-373 | A collector by itself fails exactly when an outcome of it does, has one warm-up poll and one per round until then, and carries the error of the first failure |
| `SessionRun.StrictStops` | ebpf-rca/cmd/ebpf-rca/main.go:657-700 | Strictly the polls stop exactly when some collector has a failing warm-up, poll or output within the rounds |
| `SessionRun.PartialStops` | ebpf-rca/cmd/ebpf-rca/main.go:657-700 | With allowPartial exactly when an output that is reached fails or every collector has failed |
| `SessionRun.RunAll` | ebpf-rca/cmd/ebpf-rca/main.go:511-700 | The runner of all collectors fails if and only if the outcomes say so, for both values of allowPartial, and each row tells what its collector would do alone |
| `SessionRun.RunScenario` | ebpf-rca/cmd/ebpf-rca/main.go:190-221 | The runner of the scenario, single or all, fails by the outcomes alone and leaves every row and health text as they say |
| `SessionRun.PollAll` | ebpf-rca/cmd/ebpf-rca/main.go:657-700 | Warm-up and rounds stop the session exactly when the outcomes say so, and otherwise every collector has the polls, state and error it would have alone, however long the others last |
| `SessionRun.Collect` | ebpf-rca/cmd/ebpf-rca/main.go:511-700 | Preflight and polls together: exactly the collectors that initialise tick, the result is a failure if and only if the outcomes say so, and a session that is not cut short polls every row as often as its collector would be alone |
| `SessionRun.WarmUp` | ebpf-rca/cmd/ebpf-rca/main.go:657-670 | Every collector that could be initialised is polled once, exactly the successful ones stay active, and the session stops exactly if it is strict and one fails |
| `SessionRun.Round` | ebpf-rca/cmd/ebpf-rca/main.go:677-699 | One round ticks every active collector, switches off the failing ones, and stops exactly when the outcomes of the round say so |
| `SessionRun.InitAll` | ebpf-rca/cmd/ebpf-rca/main.go:511-656 | Every collector is tried once, and exactly the initialised ones tick |
| `SessionRun.CaptureAll` | ebpf-rca/cmd/ebpf-rca/main.go:528-529 | Every initialised collector's health is captured once, last first, after everything else |
| `SessionRun.Conclude` | ebpf-rca/cmd/ebpf-rca/main.go:213-221 | A collector ends failed exactly when it had failed or has a health error, and the rows are valid if no failure was silent |
| `SessionRun.RunOne` | ebpf-rca/cmd/ebpf-rca/main.go:344-374 | A single-scenario runner fails if and only if initialisation, a poll or an output does, and polls as often as the collector would alone |
| `SessionRun.RunPolls` | ebpf-rca/cmd/ebpf-rca/main.go:356-373 | The polls fail exactly when one of them or an output does, and the first such ends them |
| `SustainDetector.Detector.Detect` | ebpf-rca/internal/detector/cpu.go:39-67 | After any calls the signals are exactly those of the history: one at the sample with which a key's run reaches the sustain count; state is kept only for keys that qualified in the last call |
| `SustainDetector.Detector.Observe` | ebpf-rca/internal/detector/cpu.go:43-56 | One sample extends the run of its key only, and signals exactly when it reaches the sustain count |
| `SustainDetector.Detector.Reset` | ebpf-rca/internal/detector/cpu.go:58-65 | Exactly the keys that were not active lose their run |
| `SustainDetector.SignalsAtSustain` | ebpf-rca/internal/detector/cpu.go:43-56 | With one sample per key and call, a key signals exactly when it qualifies for the sustain-th call in a row |
| `SustainDetector.SignalsAfterHotCalls` | ebpf-rca/internal/detector/cpu.go:39-67 | From the samples alone: a key signals exactly when it is over its thresholds in a measured window in this call and each of the sustain last, and was not in the call before those |
| `SustainDetector.SignalSpans` | ebpf-rca/internal/detector/cpu.go:47-56 | The signal spans from the start of the first of those windows to the end of the last, when their ends are in order |
| `SustainDetector.StreakIsRun` | ebpf-rca/internal/detector/cpu.go:47-65 | The run length is then the number of consecutive qualifying calls |
| `SustainDetector.ExtendCovers` | ebpf-rca/internal/collector/window.go:39-47 | For windows in order the extension runs from the first start to the current end |
| `SustainDetector.DuplicateSamplesSignalEarly` | ebpf-rca/internal/detector/cpu.go:43-56 | Two samples of a key in one call signal early |
| `MemDetector.Detector.Detect` | ebpf-rca/internal/detector/mem.go:27-63 | Kills fire at once and restart the run, ordinary pressure fires exactly when its run reaches the sustain count |
| `MemDetector.FiresExactly` | ebpf-rca/internal/detector/mem.go:27-88 | From the snapshots alone: a kill fires at once, pressure fires exactly when this window and those before it were pressed, by the named thresholds, for exactly the sustain count in a row |
| `MemDetector.SignalSays` | ebpf-rca/internal/detector/mem.go:34-62 | A kill blames a victim with most kills over its own window; pressure blames the culprit from the start of the first pressed window to the end of this one |
| `MemDetector.KillFiresAndRestarts` | ebpf-rca/internal/detector/mem.go:34-43 | Every kill window fires, and pressure after it starts a new run |
| `MemDetector.RunRestarts` | ebpf-rca/internal/detector/mem.go:28-49 | A kill, an invalid window and one without pressure all end the run |
| `MemDetector.CulpritByCause` | ebpf-rca/internal/detector/mem.go:100-131 | Blamed is one with the longest time in reclaim, then the most reclaims; if nobody reclaimed, one that grew most of those that grew 64 MiB/s; else one with most major faults of those with 100 a second; else nobody |
| `MemDetector.PressureHasCulprit` | ebpf-rca/internal/detector/mem.go:65-131 | Pressure that is not only global always comes with a contributing culprit |
| `MemDetector.WorstVictim` | ebpf-rca/internal/detector/mem.go:90-98 | The victim picked has the most kills |
| `MemDetector.PickCulprit` | ebpf-rca/internal/detector/mem.go:100-131 | The loops choose the specified process |
| `MemDetector.PickWorst` | ebpf-rca/internal/detector/mem.go:90-98 | A loop chooses the first of the worst competitors |
| `MemDetector.HasOrdinaryMemPressure` | ebpf-rca/internal/detector/mem.go:65-88 | The loop decides system pressure with a contributor or a global contribution |
| `MemPressurePlan.PlanMemPressure` | ebpf-rca/cmd/rca-testload/main.go:403-438 | The computation in wrapping 64-bit arithmetic is the plan the theorems are about, for every request, overflowing or not |
| `MemPressurePlan.PlanSoundAndComplete` | ebpf-rca/cmd/rca-testload/main.go:403-438 | A request succeeds exactly with 1 to 64 workers, a preferred rate of 1 to 160, at least one second of budget and MiB that fit 64 workers at 160 MiB/s for it, and the plan then covers the bytes |
| `MemPressurePlan.PlanIsFrugal` | ebpf-rca/cmd/rca-testload/main.go:417-433 | No faster than preferred unless slower falls short, and no more workers than requested unless fewer fall short |
| `MemPressurePlan.WorkersBeforeSpeed` | ebpf-rca/cmd/rca-testload/main.go:417-433 | Of all plans that suffice it has the lowest rate, and the fewest workers when that is the preferred one; the rate is raised only when 64 workers fall short, and then there are 64 |
| `MemPressurePlan.NeedIsExact` | ebpf-rca/cmd/rca-testload/main.go:411-416 | A rate covers the bytes within the budget if and only if it is at least the aggregate rate |
| `MemPressurePlan.HugeRequestGranted` | ebpf-rca/cmd/rca-testload/main.go:411-415 | Above 2^64 - 2^20 bytes the request is granted as it stands |
| `MemPressurePlan.SplitMemPressureAllocation` | ebpf-rca/cmd/rca-testload/main.go:449-461 | Base shares differ by at most one with the larger first, the reserve goes to worker 0, and the shares sum to the bytes asked for unless worker 0 overflows |

## Left out

- Loading and attaching BPF objects, perf events and links, beyond the attach order; generated bindings.
- `/proc`, `/sys` and kallsyms parsing and stack symbolisation: their results are parameters.
- Root-cause texts, confidence values, Markdown, YAML and JSON rendering, JSON decoding, command-line flags and time-stamp formatting.
- `moreSevere` and `round2`: floating-point severity is an arbitrary choice, and rounding is the identity on the integers modelled; the evidence list that repeats the metrics is not modelled.
- `aggregateKey`: the key is abstract, so two reports with colliding key texts are not distinguished from reports of one object.
- FUTEX_WAKE errors: a wake that fails would lose a wake-up; the kernel call with these arguments does not fail.
- `exit_miss` of the system-call collector: it depends on exit events of newly forked threads that the code does not settle.
- Wake-up latency, long-run samples, stacks, command names, the kernel side of `last_waker` and `update_max`: best-effort fields without an exact invariant.
- `activeTIDs` and `containsTID` of the target tracker: nothing uses them.
- Waits of a key that user space deletes while they are open: `OffCpu` starts that key's account afresh, as the maps do.
- CpuCollector.Collector.Poll: its deletions in the kernel maps, the choice of stacks and command names, and the ratios are not modelled.
- CpuHistory.ChargesAreReported: follows one task from the poll that first reads it until the collector drops it; tasks that have the key after it are those of `LiveRunCredit.GenerationsAddUp`.
- LockPoll.LockCollector.Poll: the sort of the samples, the top-five cut of the waiters and the ratios are not modelled.
- TargetIdentity.KernelMap.SyncTargetTGIDMap: the walk over the map visits the ids that were in it at the start; an id that a hook enters during the walk is not visited by it.
- SustainDetector.Detector.Detect: the thresholds of each scenario are one verdict per sample, and samples of all four keyed detectors are one type.
- Lifecycle.CollectorTracker.CaptureHealth: the list of counters in the error text is not modelled; a health provider exists for every collector. Poll times are the clock's, and a row's time text is modelled by whether it can be read.
