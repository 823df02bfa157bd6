# Perf Analyzer: load generation and measurement, verified

Perf Analyzer keeps a server under load and measures it. This project models, in
Dafny, the parts of it in which the difficulty lies, and proves what holds of
them for every input and every interleaving. `dafny verify dfyconfig.toml`
checks everything.

**Load generation.** `WorkerProtocol` is one asynchronous concurrency worker, the
callbacks that answer its requests, and the main thread that pauses, resumes and
re-levels it, as a machine whose steps are single critical sections or single
accesses to shared state; any thread may take the next step. The `Protocol*`
modules prove what every run keeps: context ids are conserved, the ongoing
counters are exact modulo 2^32, the wait for ongoing requests is a true drain, the
request map holds exactly the requests without a final response, and a request
budget is met exactly. `CtxIdTracker`, `IdleTimers` and `RequestKeys` are the
objects the worker uses; `EvenSplits` and `ConcurrencyManagers` split a level and
a budget over threads and add up what a warmup sends.

**Schedules.** `RateSchedules` deals timestamps out to threads and replays them,
`CustomLoad` is the builder that stops at the least common multiple, and
`FixedSchedules` keeps dataset timestamps aligned with dataset payloads.

**Measurement.** `Filters`, `RecordWindows` and `RecordRuns` follow the request
records through buffers, collection and windows; `ServerStats` and
`ServerTelescoping` are the server counters over the ensemble tree; `ClientStats`
the merged client report; `StableProfiles` the loop that measures until the last
three windows agree; `ProfileSearch` the searches over load levels.

**Data.** `DataLoaders` is the string-keyed store against the streams and steps it
stands for; `InferInputs` and `SharedRegions` are the per-thread input store and
the shared-memory regions against the direct lookup. `Basics` holds what several
modules share.

## Where the code falls short of an expected property

For each of these the project has the input or the run that shows it, and the
exact condition under which the property holds.

- The current concurrency does not bound the load. The bound is the count of the
  last `Reset` plus the callbacks that had counted down but not yet handed their
  id back at that `Reset`, minus the ids dropped since (`TightBound`, an
  equivalence). `LateCallbackOverload` reaches 3 outstanding requests at level 2.
- On a sequence model, a pause that arrives before the first request leaves the
  worker asleep for good (`EarlyPauseHangs`); a sleeping worker can wake if and
  only if it has been notified or has a request in flight (`CanWakeIff`).
- A worker of a sequence model that leaves a pause can answer another one if and
  only if its level is positive (`PauseAnsweredIff`). A worker that is given level
  0 parks, and the manager's next pause waits for ever (`ParkedForGood`).
- A budget smaller than the number of threads, and only such a budget, leaves some
  thread with the budget 0, which means unlimited (`NoUnlimitedThread`).
- The interval file may hold negative numbers. The schedule replays correctly if
  and only if no thread's last turn within the period comes later than the
  period's end (`ReplaysIff`, `NegativeIntervalBreaksReplay`).
- A record whose last response is empty ends before it is pushed. It is counted if
  and only if the window of its end had not been collected by then (`CountedIff`);
  `LostRecord` loses one. All other records are counted in exactly their window
  (`CountedInItsWindow`).
- The write of 0 in `IdleTimer::Reset` happens outside the lock. The timer stays
  within the time since that reset, in every continuation, if and only if the
  write does not fall into a `Stop` that is about to write more than that time
  (`ResetTakesEffect`, `TornReset`).
- Binary search with step 0, which the command line accepts, goes on for ever if
  and only if no measurement fails and every measurement meets the threshold once
  the bracket holds two neighbours (`ZeroStepForeverIff`). Every measurement is a
  new one: a single miss at the lower neighbour ends the loop normally
  (`MissCloses`), and with measurements that depend on their level only it never
  ends (`ZeroStepNeverEnds`).
- At a batch size above 1 the requests of fixed-schedule mode carry the entries
  whose times they are due at if and only if the dataset size divides
  (batch - 1) times each of these entries (`RunPrepared`, `MisalignedRun`).
- Tensor names that differ only in slashes share a shared-memory region. Every
  input finds its own bytes if and only if inputs with such names have equal bytes
  (`RegionsRightIff`, `WrongBytes`).
- Merged averages can be below the true ones (`MergedAverageOneLow`): exactly how
  far, and when not at all or by at most 1, can be read off the windows
  (`MergedAverages`).

Two further points are modelled as the code has them: `MergePerfStatusReports`
resets every summed field of the report except the response count, and
`ValidLatencyMeasurement` does not reset the delayed count; both are added to what
the caller passes in.

## Model

| member | source | states |
|---|---|---|
| RequestKeys.DecimalRoundTrip | src/infer_context.cc:126-127 | reading the decimal form of an id gives the id back |
| RequestKeys.PackIdRoundTrip | src/infer_context.cc:126 | the packed id fits 64 bits, and thread id and request id can be read back modulo 2^16 and 2^48 |
| RequestKeys.RequestKeyInjective | src/infer_context.cc:126-131 | two requests share a map key if and only if their threads agree modulo 2^16 and their ids modulo 2^48 |
| RequestKeys.TensorKeyInjective | src/data_loader.cc:592-597 | the name_stream_step key determines name, stream and step, whatever the name contains |
| CtxIdTracker.QueueCtxIdTracker.Restore | src/base_queue_ctx_id_tracker.h:41 | appends the id at the end of the queue |
| CtxIdTracker.QueueCtxIdTracker.Get | src/base_queue_ctx_id_tracker.h:43-52 | takes the oldest id; fails exactly on the empty queue and then changes nothing |
| CtxIdTracker.QueueCtxIdTracker.Clear | src/base_queue_ctx_id_tracker.h:61-65 | empties the queue |
| CtxIdTracker.QueueCtxIdTracker.Reset | src/fifo_ctx_id_tracker.h:38-45 | leaves 0..count-1 (or, in the other tracker, count copies of 0) and nothing else |
| CtxIdTracker.DistinctIdsOnce | src/fifo_ctx_id_tracker.h:42-44 | a reset FIFO tracker holds every id below count exactly once |
| ProtocolControl.ControlRun | src/concurrency_worker.cc:55-75 | in every run: no step throws (neither an empty tracker nor a timer started or stopped twice), the idle timer is active at exactly the program points between its Start and Stop, and every id and request belongs to an existing context |
| ProtocolConservation.ConservedRun | src/concurrency_worker.cc:164-200 | in every run, for every id: copies in the tracker, in flight, in the worker's hand and dropped equal what the last Reset put in plus what late callbacks owe plus requests that closed sequences |
| ProtocolBounds.OutstandingBound | src/load_worker.cc:100-130 | in every run the ids add up; outside closing, outstanding requests are at most the last Reset count plus late callbacks; with none late no two requests of a sequence model share a context |
| ProtocolBounds.LateAtReset | src/concurrency_worker.cc:103-109 | the ids recorded as late at a Reset belong to callbacks that have counted down and only have their id left to restore |
| ProtocolBounds.OrdinaryBound | src/concurrency_worker.cc:144-156 | an ordinary model resets its tracker at most once, so its first level limits its requests for good |
| ProtocolTightness.TightBound | src/concurrency_worker.cc:164-172 | from any reachable state in the send loop that is told neither to pause nor to exit, with or without a request budget, a number bounds all outstanding requests until the next Reset if and only if it is at least Reset count plus late minus dropped ids |
| ProtocolCounters.CounterRun | src/infer_context.cc:140-152 | in every run each context's counter is increments minus decrements modulo 2^32, also when a callback decrements before the sender increments; sends and finished requests are counted exactly |
| ProtocolDrain.WaitReturnsDrained | src/load_worker.cc:73-89 | when the wait has returned, every request ever sent has had its final decrement and every counter is 0, although the counters are read one by one |
| ProtocolRequestMap.WorkerKeysDistinct | src/infer_context.cc:126-131 | request ids below 2^48 of a worker have different keys |
| ProtocolRequestMap.SentIsRecordedOrMapped | src/infer_context.cc:120-138 | for up to 2^48 requests per context: map keys are exactly the requests without final response, and sent = recorded + still mapped |
| ProtocolRequestMap.FaithfulRun | src/infer_context.cc:299-344 | every record matches its request: it starts when the request was handed over, has its sequence flag, one timestamp per response in order and at least one, and is marked exactly if some response was empty |
| ProtocolHistory.SentByItsStep | src/infer_context.cc:120-138 | every request in flight and every record tells the time and the sequence flag of the step of the run that took its request id |
| ProtocolHistory.RespondDone | src/infer_context.cc:319-337 | a response adds its own time and emptiness to its request and at most one record, for that request |
| ProtocolHistory.RecordsTellTheRun | src/infer_context.cc:299-344 | the start and sequence flag of every record of a worker are those of the step of the run that sent its request |
| ProtocolProgress.CanWakeIff | src/concurrency_worker.cc:175-193 | a waiting worker has a continuation that wakes it if and only if it is notified or has a request in flight |
| ProtocolProgress.SleepsOnlyAtFullLoad | src/concurrency_worker.cc:164-193 | an ordinary worker that sleeps without a pending wake-up has all its ids in flight: no wake-up is lost |
| ProtocolPause.LevelRun | src/concurrency_worker.cc:98-142 | until an exit signal a sequence worker with contexts works at a positive level except between a pause and its next level, and a paused one has free ids |
| ProtocolPause.ParkedNeverPauses | src/concurrency_worker.cc:126-142 | a sequence worker at level 0 behind a pause never reports another pause without an exit signal |
| ProtocolPause.AnswersPause | src/concurrency_worker.cc:98-124 | a sequence worker resumed at a positive level has a continuation that reports a pause |
| ProtocolPause.PauseAnsweredIff | src/concurrency_manager.cc:118-130 | from any reachable end of a pause, with or without a request budget, another pause can be answered without an exit signal if and only if the level is positive |
| ProtocolPause.ParkedForGood | src/concurrency_manager.cc:118-130 | a run in which a worker that has sent a request is re-levelled to 0 and never pauses again |
| ProtocolWitnesses.EarlyPauseHangs | src/concurrency_worker.cc:175-193 | a run in which a pause before the first request puts the worker to sleep in every continuation |
| ProtocolWitnesses.LateCallbackOverload | src/infer_context.cc:350-357 | a run in which level 2 has 3 outstanding requests, because a callback decremented before and restored after a Reset |
| ProtocolQuota.QuotaExact | src/load_worker.cc:37-48 | a worker configured once never sends more than its budget, and when it has ended without exit signal it has sent exactly the budget and all of it is answered |
| ProtocolSent.SentRun | src/infer_context.cc:112-138 | in every run the number of requests sent is the number of request ids the contexts have handed out |
| ProtocolSent.IdsWithinBudget | src/load_worker.cc:37-48 | the request ids handed out by an ordinary worker stay within its budget, and are exactly as many when it has ended without exit signal |
| IdleTimers.IdleTimer.Start | src/idle_timer.h:42-46 | fails exactly on an active timer |
| IdleTimers.IdleTimer.Stop | src/idle_timer.h:48-52 | fails exactly on an inactive timer; adds the period since Start |
| IdleTimers.IdleTimer.Restart | src/idle_timer.h:78-85 | keeps the timer active or inactive and does not change what it will have counted at any time |
| IdleTimers.IdleTimer.GetIdleTime | src/idle_timer.h:66-70 | returns the time counted including a running period, without changing later results |
| IdleTimers.IdleTimer.Reset | src/idle_timer.h:56-60 | without interference the timer counts from the moment of the reset |
| IdleTimers.IdleWithinElapsed | src/idle_timer.h:56-107 | in every interleaving with a monotone clock: after a reset that takes effect, idle time is at most the time since that reset, whatever follows |
| IdleTimers.IdleSinceStart | src/idle_timer.h:42-107 | in every interleaving, idle time is at most the time since the timer was made |
| IdleTimers.ResetTakesEffect | src/idle_timer.h:56-60 | from any reachable moment before the write of a reset, idle time stays within the time since that reset in every continuation if and only if no Stop is in progress that will write more than that |
| IdleTimers.TornReset | src/idle_timer.h:95-106 | an interleaving in which a reset timer still shows all its old idle time |
| EvenSplits.RangesTile | src/concurrency_manager.cc:153-171 | every slot lies in the range of exactly one part |
| EvenSplits.PartCountsTurns | src/request_rate_manager.cc:264-273 | a thread's part is the number of entries it gets when entries are dealt out in turn |
| ConcurrencyManagers.ConcurrencyManager.ReconfigThreads | src/concurrency_manager.cc:132-182 | threads grow until there are as many as the level or the limit, and no further, and never shrink; levels and budgets are floors of the averages plus one for the first few; offsets start at 0, follow on each other and end at the level; exactly the first active threads have work |
| ConcurrencyManagers.ConcurrencyManager.PerformWarmup | src/concurrency_manager.cc:85-104 | runs at min(level, warmup requests), with as many threads as that or the limit, splits the warmup over the threads it joins, leaves no threads behind, and does nothing for 0 |
| ConcurrencyManagers.ActivePrefix | src/concurrency_manager.cc:163-181 | the threads with work are exactly the first min(level, threads) |
| ConcurrencyManagers.LevelsEven | src/concurrency_manager.cc:153-166 | levels differ by at most 1 and add up to the total |
| ConcurrencyManagers.SlotsDisjoint | src/concurrency_worker.cc:202-206 | two contexts of any workers use the same sequence slot only if they are the same context; all slots are below the level |
| ConcurrencyManagers.EverySlotOwned | src/concurrency_worker.cc:202-206 | every slot below the level belongs to a context |
| ConcurrencyManagers.NoUnlimitedThread | src/concurrency_manager.cc:158-175 | no thread has the unlimited budget 0 if and only if there are at least as many requests as threads |
| ConcurrencyManagers.WarmupSendsExactly | src/concurrency_manager.cc:85-104 | on a fresh pool of an ordinary model no thread is unlimited, and once all workers have ended without exit signal exactly the warmup count has been sent, in every interleaving |
| RateSchedules.RateSchedule.Next | src/rate_schedule.h:46-56 | the n-th call returns entry n of the schedule repeated with its duration |
| RateSchedules.CalculateThreadIds | src/request_rate_manager.cc:181-198 | one id per sequence or thread, every thread occurs |
| RateSchedules.SetScheduleDurations | src/request_rate_manager.cc:200-215 | all schedules get the largest last timestamp and are otherwise unchanged |
| RateSchedules.AllAssigned | src/custom_load_manager.cc:135-143 | the shares of all workers together are exactly the timestamps: none is lost and none is doubled |
| RateSchedules.ShareIndices | src/custom_load_manager.cc:135-143 | a thread's share consists of the timestamps at exactly the positions whose cyclic id is its own, in order |
| CustomLoad.CreateWorkerSchedules | src/custom_load_manager.cc:114-148 | the loop ends after exactly lcm(threads ids, intervals) entries and every worker holds its share of the infinite cyclic schedule up to there |
| CustomLoad.ClockFirstRound | src/custom_load_manager.cc:136-137 | within the first round the timestamp is the sum of the intervals so far |
| CustomLoad.LcmDivides | src/custom_load_manager.cc:129-134 | the number at which the loop stops divides every common multiple of the two lengths |
| CustomLoad.SharePeriod | src/custom_load_manager.cc:129-143 | after a common multiple of entries the infinite schedule repeats, shifted by the period |
| CustomLoad.ReplayExact | src/rate_schedule.h:36-56 | replaying a period with its length as duration gives every entry of the infinite schedule |
| CustomLoad.ShareGrows | src/custom_load_manager.cc:135-143 | q periods give a worker q times its share, so that every entry of the replay occurs |
| CustomLoad.ReplaysIff | src/request_rate_manager.cc:200-215 | the built schedules reproduce the infinite one for ever if and only if no thread's last turn in the period comes after the period's end, a condition on thread ids and intervals alone |
| CustomLoad.ReplaysForever | src/custom_load_manager.cc:114-148 | with intervals that are not negative the duration is the last timestamp and the replay is exact for ever |
| CustomLoad.NegativeIntervalBreaksReplay | src/custom_load_manager.cc:176-180 | intervals 5 and -2 make the replay wrong |
| FixedSchedules.GetSchedulesFromDataset | src/custom_request_schedule_manager.cc:89-125 | succeeds exactly for one stream longer than the warmup, splits it there, and reports the first of the three errors otherwise |
| FixedSchedules.ShareInTurn | src/custom_request_schedule_manager.cc:174-190 | thread t gets the entries t, t+N, t+2N, ..., as many as its part of the request budget |
| FixedSchedules.CreateWorkerSchedules | src/custom_request_schedule_manager.cc:174-192 | every worker holds its share of the schedule in nanoseconds, and none is empty |
| FixedSchedules.ScheduledWorker.UpdateJsonData | src/infer_context.cc:236-243 | picks the entry at the cursor times the batch size, modulo the dataset, and moves the cursor by the number of threads |
| FixedSchedules.ScheduledWorker.Run | src/request_rate_worker.cc:95-99 | sends exactly its budget; request j is due at replay entry j and carries the entry of the cursor |
| FixedSchedules.RunPrepared | src/infer_context.cc:106-110 | for a warmup or a benchmark and any batch size, the j-th request of worker t is due at the timestamp of dataset entry offset+t+jN; all requests carry their own entries if and only if the dataset size divides (batch-1) times each; so always at batch size 1 |
| FixedSchedules.EveryEntryOnce | src/custom_request_schedule_manager.cc:193-207 | the workers together send every entry of the schedule, so every entry after the warmup in a benchmark, exactly once, at its own time |
| FixedSchedules.MisalignedRun | src/infer_context.cc:239 | a run at batch size 2 in which the second request is due at one entry's time and carries another |
| FixedSchedules.CustomRequestScheduleManager.InitCustomSchedule | src/custom_request_schedule_manager.cc:163-172 | launches one worker per thread, each prepared with its share, its budget and its cursor |
| FixedSchedules.CustomRequestScheduleManager.PerformWarmup | src/custom_request_schedule_manager.cc:145-161 | fails exactly without warmup entries; prepares min(limit, entries) workers at offset 0 and restores the thread limit |
| FixedSchedules.CustomRequestScheduleManager.StartBenchmark | src/custom_request_schedule_manager.cc:193-207 | fails exactly without entries; lowers the thread limit to the number of entries and prepares the workers behind the warmup |
| Filters.Partition | src/inference_profiler.cc:1376-1387 | selecting and rejecting put every element, as often as it occurs, on exactly the side where it belongs |
| Filters.EraseRejects | src/inference_profiler.cc:1382-1387 | erasing the selected positions from back to front leaves exactly the other elements in order |
| RecordWindows.RecordStore.Scan | src/inference_profiler.cc:1335-1374 | latencies, counts and positions of the window, for the branch on null responses as written |
| RecordWindows.RecordStore.Extract | src/inference_profiler.cc:1376-1387 | copies out the positions and erases them from the back |
| RecordWindows.RecordStore.ValidLatencyMeasurement | src/inference_profiler.cc:1328-1391 | records are split, in order, into those that are null-only or end in the window (with start not after end) and the rest; latencies are a sorted permutation of the counted ones; counts are totals over them |
| RecordWindows.EndMeans | src/inference_profiler.cc:1343-1354 | when a record ends and how many responses count, by whether an empty response was seen |
| RecordWindows.WindowMeans | src/inference_profiler.cc:1356-1361 | which records a window counts, ends included, and which it takes out |
| RecordWindows.ExampleWindow | src/inference_profiler.cc:1328-1391 | latencies, counts and records taken and left for a window over four records |
| RecordRuns.SwapRequestRecords | src/load_manager.cc:61-76 | returns all records in thread order and leaves all buffers empty |
| RecordRuns.CountCollectedRequests | src/load_manager.cc:78-87 | the number of records in all buffers |
| RecordRuns.RecordsConserved | src/inference_profiler.cc:1241-1269 | over any run of pushes, window ends, collections and measurements, each record pushed since the flush is in exactly one of: a buffer, the vector being swapped, the collected records, one window |
| RecordRuns.WindowsHoldTheirs | src/inference_profiler.cc:1204-1244 | windows follow on each other and hold only null-only records and records that end in them |
| RecordRuns.StaleNeverCounted | src/inference_profiler.cc:1357-1361 | a record that ended before the current window is in no later window, wherever it is and even if pushed later |
| RecordRuns.EveryRecordCounted | src/infer_context.cc:303-344 | in every run, every record without an empty last response that ended since the first window began and before the last one ended has been counted |
| RecordRuns.CountedInItsWindow | src/inference_profiler.cc:1241-1269 | such a record that ended strictly inside a window is counted in exactly that window |
| RecordRuns.CountedIff | src/inference_profiler.cc:1241-1269 | a record is counted, once, if and only if it did not end before the last window end read before its buffer was last taken |
| RecordRuns.LostRecord | src/inference_profiler.cc:1339-1352 | a run that loses a record whose empty last response comes after its window was measured |
| ServerStats.HighestAdvanced | src/inference_profiler.cc:1571-1597 | the highest version whose queue count grew, or -1 |
| ServerStats.DetermineStatsModelVersion | src/inference_profiler.cc:1554-1626 | resolves a given version to itself if reported, an open one to the highest that advanced, and fails on -1 unless the cache may have answered |
| ServerStats.ResolveMeans | src/inference_profiler.cc:1571-1602 | a version is resolved to if and only if it is asked for and reported, or none is asked for and it is the highest whose queue count grew |
| ServerStats.SummarizeServerStats | src/inference_profiler.cc:1655-1680 | fails exactly when the model or a part at any depth cannot be resolved; otherwise the whole tree of counter differences |
| ServerStats.NodeCounter | src/inference_profiler.cc:1711-1780 | each of the sixteen counters of a window is the difference of that same counter, counted from 0 for a model that is new and 0 for one that is gone |
| ServerStats.DifferenceMeans | src/inference_profiler.cc:1711-1780 | a difference is what has to be added to the start value modulo 2^64 |
| ServerStats.SummaryNodes | src/inference_profiler.cc:1666-1677 | the report has a node for exactly the composing models, under their resolved versions |
| ServerStats.MergeServerSideStats | src/inference_profiler.cc:939-1017 | fails exactly when the number of parts differs somewhere; otherwise the whole tree of counter sums, looking up missing parts as empty |
| ServerStats.MergedAlone | src/inference_profiler.cc:939-1017 | merging a single tree gives that tree |
| ServerStats.MergedAdds | src/inference_profiler.cc:993-1014 | one more report adds each of its counters to the same counter |
| ServerTelescoping.ResolvedIsReported | src/inference_profiler.cc:1571-1602 | a resolved version is in the end statistics of its window |
| ServerTelescoping.NodeTelescopes | src/inference_profiler.cc:1683-1783 | the summed differences of one node are last end minus first start modulo 2^64 |
| ServerTelescoping.MergeTelescopes | src/inference_profiler.cc:939-1017 | merging consecutive error-free windows that resolve every model to the same version succeeds, and every counter of every node of the tree is last end minus first start |
| ServerTelescoping.MergedCounter | src/inference_profiler.cc:939-1017 | at every node of the merged tree, each of the sixteen counters is what that model's same counter has risen by from the first start to the last end |
| ClientStats.MergeClientStats | src/inference_profiler.cc:1019-1134 | fails exactly on different batch sizes; otherwise sums, concatenated latencies and weighted averages |
| ClientStats.MergedAlone | src/inference_profiler.cc:1019-1134 | merging a single window gives that window |
| ClientStats.MergedAdds | src/inference_profiler.cc:1072-1098 | one more window adds its counts, time and latencies, each to its own field |
| ClientStats.SummarizeMeans | src/inference_profiler.cc:1496-1540 | a window's counts are those passed in and its averages the floored quotients of their own times |
| ClientStats.ClientTelescopes | src/inference_profiler.cc:1515-1520 | completed counts and durations of consecutive windows add up to last minus first |
| ClientStats.MergedAverageBounds | src/inference_profiler.cc:1120-1132 | if no window has time without requests, an average merged from floored averages is at most 1 below the true floored average |
| ClientStats.MergedAverages | src/inference_profiler.cc:1102-1133 | how far the merged request, send and receive times of consecutive windows are below the true average, and exactly when they meet it and when they miss it by at most 1 |
| ClientStats.MergedAverageOneLow | src/inference_profiler.cc:1528-1536 | statistics of two windows whose merged average is 1 below the true one |
| ClientStats.MergedRateBetween | src/inference_profiler.cc:1142-1149 | a merged rate lies between the smallest and the largest rate of its windows |
| StableProfiles.IsWindowStable | src/inference_profiler.cc:876-903 | comparing maximum and minimum holds exactly when every pair is within the threshold and nothing is 0 |
| StableProfiles.DetermineStability | src/inference_profiler.cc:847-866 | true exactly when there are three windows, pairwise close in throughput and, if asked, in latency |
| StableProfiles.IsOverLimit | src/inference_profiler.cc:905-937 | true exactly when a limit is set and one of the last three latencies reaches it |
| StableProfiles.LastThree | src/inference_profiler.cc:753-756 | the windows looked at are the last three |
| StableProfiles.StableMeans | src/inference_profiler.cc:847-903 | stability said of the last three outcomes themselves: measured, positive, and pairwise within the threshold |
| StableProfiles.OverLimitMeans | src/inference_profiler.cc:905-937 | the limit is reached by one of the last three outcomes, a failure counting as the largest latency |
| StableProfiles.GoesOnMeans | src/inference_profiler.cc:798-812 | the loop goes on exactly after a healthy trial without exit signal, with trials left, whose last three outcomes neither agree nor reach the limit |
| StableProfiles.MeasureLoop | src/inference_profiler.cc:730-812 | stops at the first trial after which the loop does not go on; the queue then holds exactly the outcomes of the last three trials |
| StableProfiles.ProfileHelper | src/inference_profiler.cc:712-845 | at most max_trials windows, at least one, and none after the first that decides; stable exactly when the last three outcomes agree (latency waived for async); then exactly these three reports and server trees are merged, failing exactly on different batch sizes or ensembles; otherwise the first error among the last three; one window when a request count is given; exit signals seen at any time are reported |
| StableProfiles.StableReport | src/inference_profiler.cc:833-837 | a stable report comes from exactly three error-free windows with positive throughputs within the threshold of each other, and its throughput lies between theirs |
| ProfileSearch.BinarySearch | src/inference_profiler.h:325-353 | for every step of at least 1 it ends, at the first failed measurement, at an end of the range, or with a level that met and one that missed at most a step apart; a proper range has no level measured twice and logarithmically many measured; a single level may be answered both ways |
| ProfileSearch.HalvingsLogarithmic | src/inference_profiler.h:340-353 | for a range of at most 2^k steps the loop measures at most k levels |
| ProfileSearch.LimitInBracket | src/inference_profiler.h:338-353 | if measurements tell the truth and passing is monotone, the highest passing level lies in the bracket |
| ProfileSearch.ZeroStepForeverIff | src/inference_profiler.h:338-353 | with step 0 the loop goes on for ever if and only if no measurement fails and all meet from a turn on, at most logarithmically late, at which the bracket holds two neighbours |
| ProfileSearch.NeighboursOpenIff | src/inference_profiler.h:340-353 | from a bracket of neighbours the loop stays open for ever if and only if every further measurement meets |
| ProfileSearch.MissCloses | src/inference_profiler.h:348-352 | from the bracket 3 and 4 one missing measurement ends the loop on 3 |
| ProfileSearch.ZeroStepNeverEnds | src/inference_profiler.h:340-353 | with step 0, measurements that depend on their level only and no failure inside the range, the loop is open after any number of turns |
| ProfileSearch.BinarySearchRates | src/inference_profiler.h:325-353 | the same for request rates and every positive step: the bracket consists of the last rate that met and the last that missed |
| ProfileSearch.LinearSearch | src/inference_profiler.h:304-324 | measures start, start+step, ... and stops behind the first measurement that fails, misses or is the last within the range; an unstable last measurement of the first level is an error |
| DataLoaders.DataLoader.ReadTensorData | src/data_loader.cc:581-698 | accepts a step exactly when all tensors are readable, none mandatory is missing and none is unknown, and stores exactly its tensors |
| DataLoaders.StepMeans | src/data_loader.cc:588-694 | a step is refused for a missing mandatory tensor, an unreadable one or an unknown name, and for nothing else |
| DataLoaders.PushRefines | src/data_loader.cc:592-597 | storing a step under its keys keeps the flat store equal to the streams |
| DataLoaders.DataLoader.ValidateParsingMode | src/data_loader.cc:838-853 | the first element ever read decides the mode |
| DataLoaders.DataLoader.ParseData | src/data_loader.cc:182-272 | refuses a file exactly when its elements are not of the one mode or a step is faulty; otherwise sizes, stream count and store stand for the streams extended by the file |
| DataLoaders.MixedRefused | src/data_loader.cc:838-853 | a file that mixes arrays and objects, or is of another kind than the files before, is refused |
| DataLoaders.LoadFiles | src/data_loader.cc:182-272 | a sequence of files is refused exactly when one file with all their elements would be, and otherwise stands for the same streams |
| DataLoaders.ArraysAppendStreams | src/data_loader.cc:223-229 | array files append streams in order |
| DataLoaders.ObjectsFillOneStream | src/data_loader.cc:243-259 | flat files concatenate into stream 0 |
| DataLoaders.MandatoryPresent | src/data_loader.cc:496-514 | every accepted index pair has data for every mandatory input |
| DataLoaders.DataLoader.GetInputData | src/data_loader.cc:416-464 | for a step of a stream, exactly the data given there, if any; fails exactly on a bad index or a missing mandatory input |
| InferInputs.FetchBatch | src/infer_data_manager_base.cc:33-72 | as many pieces as the batch, or one for a shape tensor, the first that of the step itself and the others those of the following steps, cyclically; an error exactly when shapes disagree |
| InferInputs.BatchInOrder | src/infer_data_manager_base.cc:43-44 | within the stream, piece i of the batch at step k is that of step k+i |
| InferInputs.BatchWraps | src/infer_data_manager_base.cc:43-44 | behind the last step of the stream the batch goes on with the first |
| InferInputs.ExpectOrdinary | src/infer_data_manager.cc:74-116 | an input is held, with the bytes of all pieces, if all are there; absent if none is; an error if only some are or the shapes disagree |
| InferInputs.ExpectShapeTensor | src/infer_data_manager_base.cc:74-107 | a shape tensor is held with its bytes at the first step, or an error if the bytes differ within the batch |
| InferInputs.ConcatInOrder | src/infer_data_manager.cc:96-103 | the bytes of a batch are those of its pieces, in order |
| InferInputs.ValidateShapeTensor | src/infer_data_manager_base.cc:74-107 | accepts exactly when the tensor's bytes are the same in the whole batch |
| InferInputs.InferDataManager.CreateAndPopulateInput | src/infer_data_manager.cc:63-119 | stores the concatenated bytes, stores nothing if the whole batch lacks the tensor, fails on a mixed batch |
| InferInputs.InferDataManager.CreateAndPopulateInputs | src/infer_data_manager.cc:40-60 | succeeds exactly when no batch is broken, and then every thread finds, for every input, stream and step, exactly what the direct lookup gives |
| InferInputs.InferDataManager.UpdateInputs | src/infer_data_manager.cc:189-207 | a request carries exactly the inputs of its step that are present, in order |
| InferInputs.PresentIff | src/infer_data_manager.cc:197-205 | an input is in the request, with its bytes, if and only if it is present at the step |
| InferInputs.PresentInOrder | src/infer_data_manager.cc:197-205 | inputs that are all present are in the model's order |
| InferInputs.MandatoryHeld | src/infer_data_manager.cc:105-116 | a mandatory input is never absent from the store |
| InferInputs.CreateInputRegion | src/infer_data_manager_shm.cc:130-167 | a region is built exactly when every piece is there, and holds the same bytes as the plain store |
| InferInputs.CopySharedMemory | src/infer_data_manager_shm.cc:274-291 | the copy loop fills the allocated region exactly, with the pieces one behind the other |
| InferInputs.RegionKeyShared | src/infer_data_manager_shm.cc:155-158 | two regions share a name if and only if the steps are the same and the names agree but for slashes |
| InferInputs.RegionNameKeeps | src/perf_utils.cc:366-376 | region names are built character by character, in order |
| InferInputs.SlashCollision | src/perf_utils.cc:366-376 | the names a/b and ab collide |
| SharedRegions.InferDataManagerShm.CreateAndPopulateInputMemoryRegions | src/infer_data_manager_shm.cc:109-128 | fails exactly when some batch lacks data; otherwise every region of every step holds the bytes of its last writer |
| SharedRegions.RegionsRightIff | src/infer_data_manager_shm.cc:155-164 | every input finds its own bytes at a step if and only if inputs that share a region name have equal bytes there |
| SharedRegions.WrongBytes | src/infer_data_manager_shm.cc:155-164 | with the inputs a/b and ab and different bytes, a/b finds the bytes of ab |

## Left out

- Worker threads, contexts and callbacks are steps on a state value, not heap objects: their interleaving is captured, the sharing of objects between them is not.
- Putting the request into the map, starting the idle timer and the backend's acceptance are one step of the protocol; the increment after the call is a separate one.
- Synchronous mode: one request at a time per thread, without callbacks.
- Runs in which a request, a callback or a worker has an error status; each accepted request is assumed to get exactly one final response, and a callback's context to exist.
- The main thread is assumed to see the pause it is waiting for, and re-levels a sequence worker only then or when the worker has just been created.
- ProtocolDrain.WaitReturnsDrained: assumes fewer than 2^32 requests in flight at once, because the counters are added up in 32 bits.
- ProtocolRequestMap.SentIsRecordedOrMapped: assumes at most 2^48 requests per context, because the packed id keeps 48 bits.
- ProtocolQuota.QuotaExact: ordinary models only; a sequence model sends extra requests to close its sequences.
- The request-rate worker's own loop, apart from fixed-schedule mode, where requests are sent by one context per worker on a model without sequences.
- Distributions of request rates, session and periodic managers, SequenceManager: random, or only wrappers.
- FixedSchedules.GetSchedulesFromDataset: a step without a readable timestamp, which throws, is not modelled.
- ServerStats.SummarizeServerStats: versions are numbers rather than their decimal strings, compositions are acyclic, and which of several errors comes first is not modelled.
- Floating point: throughputs, rates and thresholds are real numbers, a quotient by 0 counts as not stable; rounding, the standard deviation and percentiles are not modelled.
- StableProfiles.ProfileHelper: MPI runs, metrics, mismatches of the sequence setting, which is the same for all windows of a run, and an empty merged latency list are not modelled.
- IdleTimers.IdleWithinElapsed: counts from the restart inside the reset, not from the return of that reset, because the code does.
- ProfileSearch.BinarySearchRates: a step of 0, with which exact fractions are halved for ever, is left out; what doubles do then is a matter of rounding.
- ClampWindow, whose result is unused, and the collection of profile data.
- DataLoaders.DataLoader.ParseData: validation data, message generators and the reading of JSON, base64 and files are not modelled; an array among the objects of a flat file, which the JSON library does not define, is a refused file.
- DataLoaders.DataLoader.GetInputData: generated data for models without a data file is not modelled.
- InferInputs.FetchBatch: a shape longer than the first one of the batch, where the code reads past the end of a vector, counts as a mismatch.
- SharedRegions.InferDataManagerShm.CreateAndPopulateInputMemoryRegions: whether the server accepts the registration of a name twice is not modelled; memory of the same name is assumed to be shared and resized, and the in-process backend, which allocates anew, is left out.
- RecordRuns.EveryRecordCounted: the system clock is assumed not to run backwards, and records of synchronous requests, which are pushed after their time is read, are left out.
- Expected outputs, CUDA regions, registration and unlinking of regions, output regions.
- Command line, reports, CSV and console output, MPI, metrics, client backends.
