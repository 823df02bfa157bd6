/** Schedules of the request-rate workers: how timestamps are dealt out to
    threads, and how a worker replays its share. */
module RateSchedules {
  import opened Basics

  /** A worker's schedule. The consumer loops over `intervals` and adds `duration`
      once per completed round. */
  class RateSchedule {
    var intervals: seq<int>
    var duration: int
    var rounds: nat
    var index: nat

    constructor ()
      ensures intervals == [] && duration == 0 && rounds == index == 0
    {
      intervals, duration, rounds, index := [], 0, 0, 0;
    }

    /** How many timestamps have been handed out. */
    ghost function Position(): nat
      reads this
    {
      rounds * |intervals| + index
    }

    method Next() returns (next: int)
      requires index < |intervals|
      modifies this`rounds, this`index
      ensures next == ReplayAt(intervals, duration, old(Position()))
      ensures index < |intervals| && Position() == old(Position()) + 1
    {
      DivModUnique(Position(), |intervals|, rounds, index);
      next := intervals[index] + duration * rounds;
      index := index + 1;
      if index >= |intervals| {
        rounds := rounds + 1;
        index := 0;
      }
    }
  }

  /** The timestamp number n of a schedule. */
  function ReplayAt(intervals: seq<int>, duration: int, n: nat): int
    requires intervals != []
  {
    intervals[n % |intervals|] + duration * (n / |intervals|)
  }

  lemma ModAddPeriod(n: nat, d: nat)
    requires d > 0
    ensures (n + d) % d == n % d && (n + d) / d == n / d + 1
  {
    DivModUnique(n + d, d, n / d + 1, n % d);
  }

  lemma NextIndex(k: nat, d: nat)
    requires d > 0
    ensures (k % d + 1) % d == (k + 1) % d
  {
    if k % d + 1 == d {
      DivModUnique(k + 1, d, k / d + 1, 0);
    } else {
      DivModUnique(k + 1, d, k / d, k % d + 1);
      DivModUnique(k % d + 1, d, 0, k % d + 1);
    }
  }

  // ------------------------------------------------- dealing out

  /** Thread `w`'s share when the timestamps are dealt out cyclically over the
      thread ids. */
  function Assigned(ids: seq<nat>, times: seq<int>, w: nat): seq<int>
    requires ids != []
  {
    if times == [] then []
    else
      var k := |times| - 1;
      var before := Assigned(ids, times[..k], w);
      if ids[k % |ids|] == w then before + [times[k]] else before
  }

  /** A thread's share consists of the timestamps at exactly its own positions, in
      order. */
  lemma {:induction false} ShareIndices(ids: seq<nat>, times: seq<int>, w: nat) returns (ks: seq<nat>)
    requires ids != []
    ensures |ks| == |Assigned(ids, times, w)|
    ensures forall j :: 0 <= j < |ks| ==> ks[j] < |times| && ids[ks[j] % |ids|] == w && Assigned(ids, times, w)[j] == times[ks[j]]
    ensures forall i, j :: 0 <= i < j < |ks| ==> ks[i] < ks[j]
    ensures forall k: nat :: k < |times| && ids[k % |ids|] == w ==> k in ks
  {
    if times == [] {
      ks := [];
    } else {
      var k := |times| - 1;
      ks := ShareIndices(ids, times[..k], w);
      if ids[k % |ids|] == w {
        ks := ks + [k];
      }
    }
  }

  /** The shares of the first workers together. */
  function AllShares(ids: seq<nat>, times: seq<int>, workers: nat): multiset<int>
    requires ids != []
  {
    if workers == 0 then multiset{}
    else AllShares(ids, times, workers - 1) + multiset(Assigned(ids, times, workers - 1))
  }

  lemma AssignedAppend(ids: seq<nat>, times: seq<int>, t: int, w: nat)
    requires ids != []
    ensures Assigned(ids, times + [t], w)
         == if ids[|times| % |ids|] == w then Assigned(ids, times, w) + [t] else Assigned(ids, times, w)
  {
    assert (times + [t])[..|times|] == times;
  }

  lemma {:induction false} AssignedPrefix(ids: seq<nat>, times: seq<int>, n: nat, w: nat)
    requires ids != [] && n <= |times|
    ensures Assigned(ids, times[..n], w) <= Assigned(ids, times, w)
  {
    if n < |times| {
      var front := times[..|times| - 1];
      AssignedPrefix(ids, front, n, w);
      assert front[..n] == times[..n];
    } else {
      assert times[..n] == times;
    }
  }

  lemma {:induction false} AllSharesAppend(ids: seq<nat>, times: seq<int>, t: int, workers: nat)
    requires ids != []
    ensures AllShares(ids, times + [t], workers)
         == AllShares(ids, times, workers) + if ids[|times| % |ids|] < workers then multiset{t} else multiset{}
  {
    if workers > 0 {
      AssignedAppend(ids, times, t, workers - 1);
      AllSharesAppend(ids, times, t, workers - 1);
    }
  }

  lemma {:induction false} NoShares(ids: seq<nat>, workers: nat)
    requires ids != []
    ensures AllShares(ids, [], workers) == multiset{}
  {
    if workers > 0 {
      NoShares(ids, workers - 1);
    }
  }

  /** When every thread id belongs to a worker, the shares together are the
      timestamps: none is lost and none is dealt out twice. */
  lemma {:induction false} AllAssigned(ids: seq<nat>, times: seq<int>, workers: nat)
    requires ids != [] && forall i :: 0 <= i < |ids| ==> ids[i] < workers
    ensures AllShares(ids, times, workers) == multiset(times)
  {
    if times == [] {
      NoShares(ids, workers);
    } else {
      var k := |times| - 1;
      AllAssigned(ids, times[..k], workers);
      AllSharesAppend(ids, times[..k], times[k], workers);
      assert times[..k] + [times[k]] == times;
    }
  }

  // ------------------------------------------------- threads

  /** One thread per sequence on a sequence model, up to the limit. */
  function NumThreads(sequence: bool, maxThreads: nat, numSequences: nat): (n: nat)
    ensures !sequence ==> n == maxThreads
    ensures sequence ==> n <= maxThreads && n <= numSequences && (n == maxThreads || n == numSequences)
  {
    if sequence && numSequences < maxThreads then numSequences else maxThreads
  }

  /** The thread ids to loop over: one per sequence, or one per thread. Every
      thread occurs, so that no schedule stays empty. */
  method CalculateThreadIds(sequence: bool, maxThreads: nat, numSequences: nat) returns (ids: seq<nat>)
    requires maxThreads > 0 && numSequences > 0
    ensures |ids| == if sequence then numSequences else maxThreads
    ensures forall i :: 0 <= i < |ids| ==> ids[i] == i % NumThreads(sequence, maxThreads, numSequences)
    ensures NumThreads(sequence, maxThreads, numSequences) <= |ids|
    ensures forall w :: 0 <= w < NumThreads(sequence, maxThreads, numSequences) ==> ids[w] == w
  {
    var count := if sequence then numSequences else maxThreads;
    ids := [];
    for i := 0 to count
      invariant |ids| == i
      invariant forall j :: 0 <= j < i ==> ids[j] == j % NumThreads(sequence, maxThreads, numSequences)
    {
      ids := ids + [i % NumThreads(sequence, maxThreads, numSequences)];
    }
    forall w | 0 <= w < NumThreads(sequence, maxThreads, numSequences)
      ensures ids[w] == w
    {
      DivModUnique(w, NumThreads(sequence, maxThreads, numSequences), 0, w);
    }
  }

  // ------------------------------------------------- durations

  ghost predicate Distinct(schedules: seq<RateSchedule>) {
    forall i, j :: 0 <= i < j < |schedules| ==> schedules[i] != schedules[j]
  }

  method CreateEmptyWorkerSchedules(workers: nat) returns (schedules: seq<RateSchedule>)
    ensures |schedules| == workers && Distinct(schedules) && fresh(schedules)
    ensures forall w :: 0 <= w < workers ==>
              schedules[w].intervals == [] && schedules[w].rounds == schedules[w].index == 0
  {
    schedules := [];
    for i := 0 to workers
      invariant |schedules| == i && Distinct(schedules) && fresh(schedules)
      invariant forall w :: 0 <= w < i ==>
                  schedules[w].intervals == [] && schedules[w].rounds == schedules[w].index == 0
    {
      var schedule := new RateSchedule();
      schedules := schedules + [schedule];
    }
  }

  function Last(s: seq<int>): int
    requires s != []
  {
    s[|s| - 1]
  }

  /** Whether `d` is the largest last timestamp among the shares. */
  ghost predicate LargestLast(parts: seq<seq<int>>, d: int) {
    && (forall w :: 0 <= w < |parts| ==> parts[w] != [] && Last(parts[w]) <= d)
    && exists w :: 0 <= w < |parts| && parts[w] != [] && Last(parts[w]) == d
  }

  ghost function Intervals(schedules: seq<RateSchedule>): seq<seq<int>>
    reads schedules
  {
    seq(|schedules|, w requires 0 <= w < |schedules| reads schedules => schedules[w].intervals)
  }

  method SetScheduleDurations(schedules: seq<RateSchedule>)
    requires schedules != [] && Distinct(schedules)
    requires forall w :: 0 <= w < |schedules| ==> schedules[w].intervals != []
    modifies schedules
    ensures exists d :: LargestLast(Intervals(schedules), d) &&
              forall w :: 0 <= w < |schedules| ==> schedules[w].duration == d
    ensures forall w :: 0 <= w < |schedules| ==>
              && schedules[w].intervals == old(schedules[w].intervals)
              && schedules[w].rounds == old(schedules[w].rounds) && schedules[w].index == old(schedules[w].index)
  {
    var duration := Last(schedules[|schedules| - 1].intervals);
    ghost var best := |schedules| - 1;
    for i := 0 to |schedules|
      invariant 0 <= best < |schedules| && Last(schedules[best].intervals) == duration
      invariant forall w :: 0 <= w < i ==> Last(schedules[w].intervals) <= duration
    {
      if Last(schedules[i].intervals) > duration {
        duration := Last(schedules[i].intervals);
        best := i;
      }
    }
    ghost var parts := Intervals(schedules);
    assert Last(parts[best]) == duration;
    assert LargestLast(parts, duration);
    for i := 0 to |schedules|
      invariant forall w :: 0 <= w < |schedules| ==>
                  && schedules[w].intervals == old(schedules[w].intervals)
                  && schedules[w].rounds == old(schedules[w].rounds)
                  && schedules[w].index == old(schedules[w].index)
      invariant forall w :: 0 <= w < i ==> schedules[w].duration == duration
    {
      schedules[i].duration := duration;
    }
    assert Intervals(schedules) == parts;
  }
}
