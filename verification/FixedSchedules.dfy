/** Fixed-schedule mode: the dataset's own timestamps decide when its payloads
    are sent. Timestamps and payloads travel on different ways, the former dealt
    out to the workers' schedules, the latter picked by a per-context cursor. */
module FixedSchedules {
  import opened Basics
  import opened RateSchedules
  import opened EvenSplits

  datatype ScheduleError = NotOneStream | EmptyDataset | WarmupTooLong | EmptySchedule

  /** `streams` holds the timestamps, in milliseconds, of the steps of each
      stream of the dataset. */
  method GetSchedulesFromDataset(streams: seq<seq<nat>>, warmup: nat) returns (r: Result<(seq<nat>, seq<nat>), ScheduleError>)
    ensures r.Ok? <==> |streams| == 1 && warmup < |streams[0]|
    ensures r.Ok? ==> r.value.0 == streams[0][..warmup] && r.value.1 == streams[0][warmup..]
    ensures r.Err? ==> r.error == if |streams| != 1 then NotOneStream
                                  else if streams[0] == [] then EmptyDataset else WarmupTooLong
  {
    if |streams| != 1 {
      return Err(NotOneStream);
    }
    var size := |streams[0]|;
    if size == 0 {
      return Err(EmptyDataset);
    }
    if warmup >= size {
      return Err(WarmupTooLong);
    }
    var warm, bench := [], [];
    for i := 0 to warmup
      invariant warm == streams[0][..i]
    {
      warm := warm + [streams[0][i]];
    }
    for i := warmup to size
      invariant bench == streams[0][warmup..i]
    {
      bench := bench + [streams[0][i]];
    }
    r := Ok((warm, bench));
  }

  // ------------------------------------------------- dealing out timestamps

  function Nanos(schedule: seq<nat>): (r: seq<int>)
    ensures |r| == |schedule|
  {
    seq(|schedule|, i requires 0 <= i < |schedule| => schedule[i] * NANOS_PER_MILLI)
  }

  /** The thread ids of a model without sequences. */
  ghost predicate InTurn(ids: seq<nat>, threads: nat) {
    threads > 0 && |ids| == threads && forall i :: 0 <= i < threads ==> ids[i] == i
  }

  /** The entry that thread t sends as its j-th. */
  function Entry(threads: nat, t: nat, j: nat): nat {
    t + j * threads
  }

  /** Thread t's share is every threads-th entry from t on, and it is as long as
      the share of the request budget that thread gets. */
  ghost predicate EveryTurn(share: seq<int>, threads: nat, times: seq<int>, t: nat)
    requires threads > 0
  {
    && |share| == Part(|times|, threads, t)
    && forall j: nat :: j < |share| ==> Entry(threads, t, j) < |times| && share[j] == times[Entry(threads, t, j)]
  }

  lemma TurnNext(share: seq<int>, threads: nat, times: seq<int>, x: int, t: nat)
    requires t < threads && EveryTurn(share, threads, times, t)
    ensures EveryTurn(if |times| % threads == t then share + [x] else share, threads, times + [x], t)
  {
    PartNext(|times|, threads, t);
    PartTurn(|times|, threads);
  }

  lemma {:induction false} ShareInTurn(ids: seq<nat>, threads: nat, times: seq<int>, t: nat)
    requires InTurn(ids, threads) && t < threads
    ensures EveryTurn(Assigned(ids, times, t), threads, times, t)
  {
    if times == [] {
      assert Part(0, threads, t) == 0;
    } else {
      var k := |times| - 1;
      ShareInTurn(ids, threads, times[..k], t);
      TurnNext(Assigned(ids, times[..k], t), threads, times[..k], times[k], t);
      assert times[..k] + [times[k]] == times;
    }
  }

  lemma AssignedStep(ids: seq<nat>, times: seq<int>, k: nat, w: nat)
    requires ids != [] && k < |times|
    ensures Assigned(ids, times[..k + 1], w)
         == if ids[k % |ids|] == w then Assigned(ids, times[..k], w) + [times[k]] else Assigned(ids, times[..k], w)
  {
    AssignedAppend(ids, times[..k], times[k], w);
    assert times[..k + 1] == times[..k] + [times[k]];
  }

  method CreateWorkerSchedules(ids: seq<nat>, schedule: seq<nat>, workers: nat) returns (schedules: seq<RateSchedule>)
    requires InTurn(ids, workers) && workers <= |schedule|
    ensures |schedules| == workers && Distinct(schedules) && fresh(schedules)
    ensures forall w :: 0 <= w < workers ==>
              && schedules[w].rounds == schedules[w].index == 0 && schedules[w].intervals != []
              && schedules[w].intervals == Assigned(ids, Nanos(schedule), w)
  {
    schedules := CreateEmptyWorkerSchedules(workers);
    var index := 0;
    ghost var times := Nanos(schedule);
    for k := 0 to |schedule|
      invariant index == k % |ids|
      invariant |schedules| == workers && Distinct(schedules) && fresh(schedules)
      invariant forall w :: 0 <= w < workers ==>
                  && schedules[w].rounds == schedules[w].index == 0
                  && schedules[w].intervals == Assigned(ids, times[..k], w)
    {
      var worker := ids[index];
      schedules[worker].intervals := schedules[worker].intervals + [schedule[k] * NANOS_PER_MILLI];
      forall w | 0 <= w < workers
        ensures schedules[w].intervals == Assigned(ids, times[..k + 1], w)
      {
        AssignedStep(ids, times, k, w);
      }
      NextIndex(k, |ids|);
      index := (index + 1) % |ids|;
    }
    assert times[..|schedule|] == times;
    forall w | 0 <= w < workers
      ensures schedules[w].intervals != []
    {
      ShareInTurn(ids, workers, times, w);
      PartCountsTurns(|times|, workers, w, 0);
    }
    SetScheduleDurations(schedules);
  }

  // ------------------------------------------------- workers

  /** The dataset entry of the j-th request after the cursor stood at `step`. */
  function Payload(step: nat, threads: nat, batch: nat, total: nat, j: nat): nat
    requires total > 0
  {
    (step + j * threads) * batch % total
  }

  /** A request as the backend sees it: when it was due and which dataset entry
      it carries. */
  datatype Sent = Sent(due: int, entry: nat)

  /** A worker with its single context. */
  class ScheduledWorker {
    var schedule: RateSchedule
    const threads: nat
    const quota: nat
    var dataStepId: nat

    constructor (schedule: RateSchedule, thread: nat, threads: nat, quota: nat, offset: nat)
      ensures this.schedule == schedule && this.threads == threads && this.quota == quota
      ensures dataStepId == thread + offset
    {
      this.schedule, this.threads, this.quota := schedule, threads, quota;
      dataStepId := thread;
      new;
      ApplyDatasetOffset(offset);
    }

    method ApplyDatasetOffset(offset: nat)
      modifies this`dataStepId
      ensures dataStepId == old(dataStepId) + offset
    {
      dataStepId := dataStepId + offset;
    }

    /** Picks the dataset entry of the next request. */
    method UpdateJsonData(total: nat, batch: nat) returns (step: nat)
      requires total > 0
      modifies this`dataStepId
      ensures step == (old(dataStepId) * batch) % total && dataStepId == old(dataStepId) + threads
    {
      step := (dataStepId * batch) % total;
      dataStepId := dataStepId + threads;
    }

    /** Sends until the request budget is used up. */
    method Run(total: nat, batch: nat) returns (sent: seq<Sent>)
      requires total > 0 && quota > 0
      requires schedule.intervals != [] && schedule.index == schedule.rounds == 0
      modifies this`dataStepId, schedule`rounds, schedule`index
      ensures |sent| == quota
      ensures forall j :: 0 <= j < quota ==>
                sent[j] == Sent(ReplayAt(schedule.intervals, schedule.duration, j),
                                Payload(old(dataStepId), threads, batch, total, j))
    {
      sent := [];
      while !(quota != 0 && |sent| >= quota)
        invariant |sent| <= quota && schedule.index < |schedule.intervals| && schedule.Position() == |sent|
        invariant schedule.intervals == old(schedule.intervals) && schedule.duration == old(schedule.duration)
        invariant dataStepId == old(dataStepId) + |sent| * threads
        invariant forall j :: 0 <= j < |sent| ==>
                    sent[j] == Sent(ReplayAt(schedule.intervals, schedule.duration, j),
                                    Payload(old(dataStepId), threads, batch, total, j))
        decreases quota - |sent|
      {
        var due := schedule.Next();
        var step := UpdateJsonData(total, batch);
        sent := sent + [Sent(due, step)];
      }
    }
  }

  // ------------------------------------------------- alignment

  /** What worker t is made of after InitCustomSchedule. */
  ghost predicate Prepared(w: ScheduledWorker, t: nat, threads: nat, schedule: seq<nat>, offset: nat)
    requires threads > 0
    reads w, w.schedule
  {
    && w.threads == threads && w.dataStepId == t + offset
    && w.quota == Part(|schedule|, threads, t)
    && w.schedule.index == w.schedule.rounds == 0
    && |w.schedule.intervals| == w.quota > 0
    && forall j: nat :: j < w.quota ==>
         Entry(threads, t, j) < |schedule| && w.schedule.intervals[j] == schedule[Entry(threads, t, j)] * NANOS_PER_MILLI
  }

  /** The schedule covers the `size` entries of the dataset from `offset` on: all
      entries after the warmup in a benchmark, the first ones in a warmup. */
  predicate Covers(dataset: seq<nat>, offset: nat, size: nat) {
    0 < size && offset + size <= |dataset|
  }

  ghost predicate Aligned(sent: seq<Sent>, t: nat, threads: nat, dataset: seq<nat>, offset: nat, size: nat)
    requires threads > 0 && Covers(dataset, offset, size)
  {
    && |sent| == Part(size, threads, t)
    && forall j: nat :: j < |sent| ==>
         var entry := offset + Entry(threads, t, j);
         entry < offset + size && sent[j] == Sent(dataset[entry] * NANOS_PER_MILLI, entry)
  }

  /** With a batch size above 1 the cursor jumps ahead. */
  lemma EntryKept(total: nat, entry: nat, batch: nat)
    requires entry < total && batch > 0
    ensures entry * batch % total == entry <==> entry * (batch - 1) % total == 0
  {
    var x := entry * (batch - 1);
    assert entry * batch == x + entry;
    if x % total == 0 {
      DivModUnique(x + entry, total, x / total, entry);
    } else if (x + entry) % total == entry {
      DivModUnique(x, total, (x + entry) / total, 0);
    }
  }

  /** What a prepared worker sends: request j is due at the timestamp of entry
      offset + t + j * threads and carries the entry at batch times that place. */
  ghost predicate SentInTurn(sent: seq<Sent>, t: nat, threads: nat, dataset: seq<nat>, offset: nat, size: nat, batch: nat)
    requires threads > 0 && Covers(dataset, offset, size)
  {
    && |sent| == Part(size, threads, t)
    && forall j: nat :: j < |sent| ==>
         var entry := offset + Entry(threads, t, j);
         entry < offset + size && sent[j] == Sent(dataset[entry] * NANOS_PER_MILLI, entry * batch % |dataset|)
  }

  lemma PayloadInTurn(t: nat, offset: nat, threads: nat, batch: nat, total: nat, j: nat)
    requires total > 0
    ensures Payload(t + offset, threads, batch, total, j) == (offset + Entry(threads, t, j)) * batch % total
  {
    assert t + offset + j * threads == offset + Entry(threads, t, j);
  }

  lemma AlignedIff(sent: seq<Sent>, t: nat, threads: nat, dataset: seq<nat>, offset: nat, size: nat, batch: nat)
    requires threads > 0 && Covers(dataset, offset, size) && batch > 0 && SentInTurn(sent, t, threads, dataset, offset, size, batch)
    ensures Aligned(sent, t, threads, dataset, offset, size) <==>
              forall j: nat :: j < |sent| ==> (offset + Entry(threads, t, j)) * (batch - 1) % |dataset| == 0
  {
    forall j: nat | j < |sent|
      ensures sent[j].entry == offset + Entry(threads, t, j) <==>
                (offset + Entry(threads, t, j)) * (batch - 1) % |dataset| == 0
    {
      EntryKept(|dataset|, offset + Entry(threads, t, j), batch);
    }
  }

  /** A worker's requests carry the entries whose times they are due at if and
      only if the dataset size divides (batch - 1) times each of these entries; so
      always at batch size 1. */
  method RunPrepared(w: ScheduledWorker, t: nat, threads: nat, dataset: seq<nat>, offset: nat, size: nat, batch: nat) returns (sent: seq<Sent>)
    requires 0 < threads && Covers(dataset, offset, size) && batch > 0 && Prepared(w, t, threads, dataset[offset..offset + size], offset)
    modifies w`dataStepId, w.schedule`rounds, w.schedule`index
    ensures SentInTurn(sent, t, threads, dataset, offset, size, batch)
    ensures Aligned(sent, t, threads, dataset, offset, size) <==>
              forall j: nat :: j < |sent| ==> (offset + Entry(threads, t, j)) * (batch - 1) % |dataset| == 0
    ensures batch == 1 ==> Aligned(sent, t, threads, dataset, offset, size)
  {
    sent := w.Run(|dataset|, batch);
    forall j: nat | j < |sent|
      ensures var entry := offset + Entry(threads, t, j);
              entry < offset + size && sent[j] == Sent(dataset[entry] * NANOS_PER_MILLI, entry * batch % |dataset|)
    {
      DivModUnique(j, w.quota, 0, j);
      PayloadInTurn(t, offset, threads, batch, |dataset|, j);
      assert Entry(threads, t, j) < |dataset[offset..offset + size]|;
    }
    AlignedIff(sent, t, threads, dataset, offset, size, batch);
    if batch == 1 {
      AlignedAtOne(sent, t, threads, dataset, offset, size);
    }
  }

  lemma AlignedAtOne(sent: seq<Sent>, t: nat, threads: nat, dataset: seq<nat>, offset: nat, size: nat)
    requires threads > 0 && Covers(dataset, offset, size) && SentInTurn(sent, t, threads, dataset, offset, size, 1)
    ensures Aligned(sent, t, threads, dataset, offset, size)
  {
    forall j: nat | j < |sent|
      ensures sent[j].entry == offset + Entry(threads, t, j)
    {
      var entry := offset + Entry(threads, t, j);
      DivModUnique(entry, |dataset|, 0, entry);
    }
  }

  lemma EntryUnique(size: nat, threads: nat, k: nat) returns (t: nat, j: nat)
    requires threads > 0 && k < size
    ensures t < threads && j < Part(size, threads, t) && k == Entry(threads, t, j)
    ensures forall t': nat, j': nat :: t' < threads && k == Entry(threads, t', j') ==> t' == t && j' == j
  {
    t, j := k % threads, k / threads;
    PartCountsTurns(size, threads, t, j);
    forall t': nat, j': nat | t' < threads && k == Entry(threads, t', j')
      ensures t' == t && j' == j
    {
      DivModUnique(k, threads, j', t');
    }
  }

  /** The workers together send every entry of the schedule exactly once, each at
      its own time. */
  lemma EveryEntryOnce(runs: seq<seq<Sent>>, dataset: seq<nat>, offset: nat, size: nat, entry: nat) returns (t: nat, j: nat)
    requires runs != [] && Covers(dataset, offset, size) && offset <= entry < offset + size
    requires forall w :: 0 <= w < |runs| ==> Aligned(runs[w], w, |runs|, dataset, offset, size)
    ensures t < |runs| && j < |runs[t]| && runs[t][j] == Sent(dataset[entry] * NANOS_PER_MILLI, entry)
    ensures forall t': nat, j': nat :: t' < |runs| && j' < |runs[t']| && runs[t'][j'].entry == entry ==> t' == t && j' == j
  {
    t, j := EntryUnique(size, |runs|, entry - offset);
    assert Aligned(runs[t], t, |runs|, dataset, offset, size);
  }

  // ------------------------------------------------- the manager

  ghost predicate Dealt(share: RateSchedule, ids: seq<nat>, schedule: seq<nat>, t: nat)
    requires ids != []
    reads share
  {
    share.index == share.rounds == 0 && share.intervals == Assigned(ids, Nanos(schedule), t)
  }

  method ConfigureThread(share: RateSchedule, ids: seq<nat>, schedule: seq<nat>, t: nat, threads: nat, offset: nat)
    returns (w: ScheduledWorker)
    requires InTurn(ids, threads) && t < threads <= |schedule|
    requires Dealt(share, ids, schedule, t)
    ensures fresh(w) && w.schedule == share && Prepared(w, t, threads, schedule, offset)
  {
    var quota := |schedule| / threads + if t < |schedule| % threads then 1 else 0;
    w := new ScheduledWorker(share, t, threads, quota, offset);
    ShareInTurn(ids, threads, Nanos(schedule), t);
    PartCountsTurns(|schedule|, threads, t, 0);
  }

  class CustomRequestScheduleManager {
    var maxThreads: nat
    var warmupSchedule: seq<nat>
    var benchmarkSchedule: seq<nat>

    constructor (maxThreads: nat, warmup: seq<nat>, benchmark: seq<nat>)
      ensures this.maxThreads == maxThreads && warmupSchedule == warmup && benchmarkSchedule == benchmark
    {
      this.maxThreads, warmupSchedule, benchmarkSchedule := maxThreads, warmup, benchmark;
    }

    /** Launches one worker per thread and hands out budgets and schedules. */
    method InitCustomSchedule(schedule: seq<nat>, offset: nat) returns (workers: seq<ScheduledWorker>)
      requires 0 < maxThreads <= |schedule|
      ensures |workers| == maxThreads && fresh(workers)
      ensures forall t :: 0 <= t < maxThreads ==>
                fresh(workers[t].schedule) && Prepared(workers[t], t, maxThreads, schedule, offset)
    {
      var ids := CalculateThreadIds(false, maxThreads, 1);
      var schedules := CreateWorkerSchedules(ids, schedule, maxThreads);
      workers := [];
      var n := maxThreads;
      for t := 0 to n
        invariant |workers| == t && fresh(workers)
        invariant forall i :: 0 <= i < n ==> Dealt(schedules[i], ids, schedule, i)
        invariant forall i :: 0 <= i < t ==>
                    workers[i].schedule == schedules[i] && Prepared(workers[i], i, n, schedule, offset)
      {
        var worker := ConfigureThread(schedules[t], ids, schedule, t, n, offset);
        workers := workers + [worker];
      }
    }

    method PerformWarmup() returns (r: Result<seq<ScheduledWorker>, ScheduleError>)
      requires maxThreads > 0
      modifies this`maxThreads
      ensures maxThreads == old(maxThreads)
      ensures r.Err? <==> warmupSchedule == []
      ensures r.Ok? ==>
                var n := Min(maxThreads, |warmupSchedule|);
                |r.value| == n && forall t :: 0 <= t < n ==> Prepared(r.value[t], t, n, warmupSchedule, 0)
    {
      if warmupSchedule == [] {
        return Err(EmptySchedule);
      }
      var before := maxThreads;
      maxThreads := Min(maxThreads, |warmupSchedule|);
      var workers := InitCustomSchedule(warmupSchedule, 0);
      maxThreads := before;
      r := Ok(workers);
    }

    method StartBenchmark() returns (r: Result<seq<ScheduledWorker>, ScheduleError>)
      requires maxThreads > 0
      modifies this`maxThreads
      ensures r.Err? <==> benchmarkSchedule == []
      ensures r.Err? ==> maxThreads == old(maxThreads)
      ensures r.Ok? ==>
                && maxThreads == Min(old(maxThreads), |benchmarkSchedule|)
                && |r.value| == maxThreads
                && forall t :: 0 <= t < maxThreads ==>
                     && fresh(r.value[t]) && fresh(r.value[t].schedule)
                     && Prepared(r.value[t], t, maxThreads, benchmarkSchedule, |warmupSchedule|)
    {
      if benchmarkSchedule == [] {
        return Err(EmptySchedule);
      }
      maxThreads := Min(maxThreads, |benchmarkSchedule|);
      var workers := InitCustomSchedule(benchmarkSchedule, |warmupSchedule|);
      r := Ok(workers);
    }
  }

  /** A run at batch size 2 over three entries on one thread: the second request
      is due at the time of entry 1 and carries entry 2. */
  method MisalignedRun() returns (sent: seq<Sent>)
    ensures SentInTurn(sent, 0, 1, [10, 20, 30], 0, 3, 2) && !Aligned(sent, 0, 1, [10, 20, 30], 0, 3)
    ensures |sent| == 3 && sent[1] == Sent(20 * NANOS_PER_MILLI, 2)
  {
    var dataset: seq<nat> := [10, 20, 30];
    var manager := new CustomRequestScheduleManager(1, [], dataset);
    var started := manager.StartBenchmark();
    assert dataset[0..3] == dataset;
    sent := RunPrepared(started.value[0], 0, 1, dataset, 0, 3, 2);
    assert Part(3, 1, 0) == 3 && Entry(1, 0, 1) == 1;
  }
}
