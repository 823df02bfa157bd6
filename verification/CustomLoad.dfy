/** The schedule builder of the custom-interval load manager. The finite schedule
    it builds stands for an infinite one, in which request k goes to the thread
    ids[k mod T] at the k-th cyclic prefix sum of the intervals. */
module CustomLoad {
  import opened Basics
  import opened RateSchedules

  // ------------------------------------------------- the infinite schedule

  /** The sum of the first k intervals, read cyclically. */
  function Clock(intervals: seq<int>, k: nat): int
    requires intervals != []
  {
    if k == 0 then 0 else Clock(intervals, k - 1) + intervals[(k - 1) % |intervals|]
  }

  function Sum(s: seq<int>): int {
    if s == [] then 0 else s[0] + Sum(s[1..])
  }

  lemma {:induction false} SumAppend(s: seq<int>, x: int)
    ensures Sum(s + [x]) == Sum(s) + x
  {
    if s == [] {
      assert s + [x] == [x] && [x][1..] == [];
    } else {
      SumAppend(s[1..], x);
      assert (s + [x])[1..] == s[1..] + [x];
    }
  }

  /** Within the first round the clock is the sum of the intervals so far; later
      rounds repeat it (ClockPeriod). */
  lemma {:induction false} ClockFirstRound(intervals: seq<int>, k: nat)
    requires intervals != [] && k <= |intervals|
    ensures Clock(intervals, k) == Sum(intervals[..k])
  {
    if k > 0 {
      ClockFirstRound(intervals, k - 1);
      SumAppend(intervals[..k - 1], intervals[k - 1]);
      assert intervals[..k] == intervals[..k - 1] + [intervals[k - 1]];
      DivModUnique(k - 1, |intervals|, 0, k - 1);
    }
  }

  /** The timestamps of the first n requests. */
  function Timeline(intervals: seq<int>, n: nat): seq<int>
    requires intervals != []
  {
    if n == 0 then [] else Timeline(intervals, n - 1) + [Clock(intervals, n)]
  }

  /** The timestamps of worker w among the first n requests. */
  function Share(ids: seq<nat>, intervals: seq<int>, n: nat, w: nat): seq<int>
    requires ids != [] && intervals != []
  {
    Assigned(ids, Timeline(intervals, n), w)
  }

  lemma {:induction false} TimelineAt(intervals: seq<int>, n: nat)
    requires intervals != []
    ensures |Timeline(intervals, n)| == n
    ensures forall k :: 0 <= k < n ==> Timeline(intervals, n)[k] == Clock(intervals, k + 1)
  {
    if n > 0 {
      TimelineAt(intervals, n - 1);
    }
  }

  lemma ShareNext(ids: seq<nat>, intervals: seq<int>, n: nat, w: nat)
    requires ids != [] && intervals != []
    ensures Share(ids, intervals, n + 1, w)
         == Share(ids, intervals, n, w) + if ids[n % |ids|] == w then [Clock(intervals, n + 1)] else []
  {
    TimelineAt(intervals, n);
    AssignedAppend(ids, Timeline(intervals, n), Clock(intervals, n + 1), w);
  }

  lemma {:induction false} SharePrefix(ids: seq<nat>, intervals: seq<int>, m: nat, n: nat, w: nat)
    requires ids != [] && intervals != [] && m <= n
    ensures Share(ids, intervals, m, w) <= Share(ids, intervals, n, w)
  {
    if m < n {
      SharePrefix(ids, intervals, m, n - 1, w);
      ShareNext(ids, intervals, n - 1, w);
    }
  }

  // ------------------------------------------------- least common multiple

  predicate CommonMultiple(n: nat, a: nat, b: nat)
    requires a > 0 && b > 0
  {
    n % a == 0 && n % b == 0
  }

  ghost predicate IsLcm(n: nat, a: nat, b: nat)
    requires a > 0 && b > 0
  {
    && n > 0 && CommonMultiple(n, a, b)
    && forall m: nat :: 0 < m < n ==> !CommonMultiple(m, a, b)
  }

  lemma ProductIsCommon(a: nat, b: nat)
    requires a > 0 && b > 0
    ensures a * b > 0 && CommonMultiple(a * b, a, b)
  {
    DivModUnique(a * b, a, b, 0);
    DivModUnique(a * b, b, a, 0);
  }

  lemma DifferenceDivisible(m: nat, q: nat, n: nat, a: nat)
    requires a > 0 && m % a == 0 && n % a == 0 && q * n <= m
    ensures (m - q * n) % a == 0
  {
    var x, y := m / a, n / a;
    assert m - q * n == (x - q * y) * a by {
      assert q * n == q * y * a;
    }
    assert x - q * y >= 0;
    DivModUnique(m - q * n, a, x - q * y, 0);
  }

  /** The least common multiple divides every common multiple. */
  lemma LcmDivides(n: nat, a: nat, b: nat, m: nat)
    requires a > 0 && b > 0 && IsLcm(n, a, b) && CommonMultiple(m, a, b)
    ensures m % n == 0
  {
    DifferenceDivisible(m, m / n, n, a);
    DifferenceDivisible(m, m / n, n, b);
    assert m - m / n * n == m % n;
    assert CommonMultiple(m % n, a, b);
  }

  lemma PeriodAtLeast(n: nat, a: nat)
    requires a > 0 && n > 0 && n % a == 0
    ensures n >= a
  {
    if n < a {
      DivModUnique(n, a, 0, n);
    }
  }

  // ------------------------------------------------- the builder

  /** Every id names a worker and every worker has an id. */
  ghost predicate CoversWorkers(ids: seq<nat>, workers: nat) {
    && ids != []
    && (forall i :: 0 <= i < |ids| ==> ids[i] < workers)
    && (forall w: nat :: w < workers ==> w in ids)
  }

  lemma ShareNonempty(ids: seq<nat>, intervals: seq<int>, n: nat, w: nat)
    requires ids != [] && intervals != [] && w in ids && n >= |ids|
    ensures Share(ids, intervals, n, w) != []
  {
    var p :| 0 <= p < |ids| && ids[p] == w;
    DivModUnique(p, |ids|, 0, p);
    ShareNext(ids, intervals, p, w);
    SharePrefix(ids, intervals, p + 1, n, w);
  }

  /** The workers hold their shares of the first n requests, unused. */
  ghost predicate HoldShares(schedules: seq<RateSchedule>, ids: seq<nat>, intervals: seq<int>, n: nat)
    requires ids != [] && intervals != []
    reads schedules
  {
    forall w :: 0 <= w < |schedules| ==>
      && schedules[w].rounds == schedules[w].index == 0
      && schedules[w].intervals == Share(ids, intervals, n, w)
  }

  /** One turn of the loop: the entry for time `t` goes to one worker. */
  method Emplace(schedules: seq<RateSchedule>, w: nat, t: int, ghost ids: seq<nat>, ghost intervals: seq<int>, ghost n: nat)
    requires w < |schedules| && Distinct(schedules) && ids != [] && intervals != [] && HoldShares(schedules, ids, intervals, n)
    requires w == ids[n % |ids|] && t == Clock(intervals, n + 1)
    modifies schedules[w]
    ensures HoldShares(schedules, ids, intervals, n + 1)
  {
    schedules[w].intervals := schedules[w].intervals + [t];
    forall v | 0 <= v < |schedules|
      ensures schedules[v].intervals == Share(ids, intervals, n + 1, v)
    {
      ShareNext(ids, intervals, n, v);
    }
  }

  /** The loop ends after exactly lcm(T, I) entries, and the workers hold their
      shares of the infinite schedule up to that point. */
  method CreateWorkerSchedules(ids: seq<nat>, intervals: seq<int>, workers: nat)
    returns (schedules: seq<RateSchedule>, ghost n: nat)
    requires CoversWorkers(ids, workers) && intervals != []
    ensures IsLcm(n, |ids|, |intervals|)
    ensures |schedules| == workers && Distinct(schedules) && fresh(schedules)
    ensures forall w :: 0 <= w < workers ==>
              && schedules[w].rounds == schedules[w].index == 0 && schedules[w].intervals != []
              && schedules[w].intervals == Share(ids, intervals, n, w)
    ensures exists d :: LargestLast(Intervals(schedules), d) &&
              forall w :: 0 <= w < workers ==> schedules[w].duration == d
  {
    schedules := CreateEmptyWorkerSchedules(workers);
    var idIndex, intervalIndex, next, started := 0, 0, 0, false;
    n := 0;
    ProductIsCommon(|ids|, |intervals|);
    while !started || idIndex != 0 || intervalIndex != 0
      invariant n <= |ids| * |intervals| && (started <==> n > 0)
      invariant idIndex == n % |ids| && intervalIndex == n % |intervals| && next == Clock(intervals, n)
      invariant forall m: nat :: 0 < m < n ==> !CommonMultiple(m, |ids|, |intervals|)
      invariant |schedules| == workers && Distinct(schedules) && fresh(schedules)
      invariant HoldShares(schedules, ids, intervals, n)
      decreases |ids| * |intervals| - n
    {
      started := true;
      next := next + intervals[intervalIndex];
      var worker := ids[idIndex];
      Emplace(schedules, worker, next, ids, intervals, n);
      NextIndex(n, |ids|);
      NextIndex(n, |intervals|);
      idIndex := (idIndex + 1) % |ids|;
      intervalIndex := (intervalIndex + 1) % |intervals|;
      n := n + 1;
    }
    PeriodAtLeast(n, |ids|);
    forall w | 0 <= w < workers
      ensures schedules[w].intervals != []
    {
      ShareNonempty(ids, intervals, n, w);
    }
    SetScheduleDurations(schedules);
  }

  // ------------------------------------------------- replay

  lemma {:induction false} ClockPeriod(intervals: seq<int>, n: nat, k: nat)
    requires intervals != [] && n % |intervals| == 0
    ensures Clock(intervals, k + n) == Clock(intervals, k) + Clock(intervals, n)
  {
    if k > 0 {
      ClockPeriod(intervals, n, k - 1);
      SamePhase(k - 1, n, |intervals|);
    }
  }

  lemma SamePhase(k: nat, n: nat, d: nat)
    requires d > 0 && n % d == 0
    ensures (k + n) % d == k % d
  {
    assert k + n == (k / d + n / d) * d + k % d;
    DivModUnique(k + n, d, k / d + n / d, k % d);
  }

  function Shift(s: seq<int>, offset: int): seq<int> {
    seq(|s|, i requires 0 <= i < |s| => s[i] + offset)
  }

  /** After a full period the infinite schedule repeats, later by the period. */
  lemma {:induction false} SharePeriod(ids: seq<nat>, intervals: seq<int>, n: nat, k: nat, w: nat)
    requires ids != [] && intervals != [] && CommonMultiple(n, |ids|, |intervals|)
    ensures Share(ids, intervals, k + n, w)
         == Share(ids, intervals, n, w) + Shift(Share(ids, intervals, k, w), Clock(intervals, n))
  {
    if k > 0 {
      SharePeriod(ids, intervals, n, k - 1, w);
      ShareNext(ids, intervals, k - 1 + n, w);
      ShareNext(ids, intervals, k - 1, w);
      SamePhase(k - 1, n, |ids|);
      ClockPeriod(intervals, n, k);
    }
  }

  /** Replaying a period with its length as duration gives the infinite schedule. */
  lemma {:induction false} ReplayExact(ids: seq<nat>, intervals: seq<int>, n: nat, w: nat, m: nat, j: nat)
    requires ids != [] && intervals != [] && n > 0 && CommonMultiple(n, |ids|, |intervals|)
    requires Share(ids, intervals, n, w) != [] && j < |Share(ids, intervals, m, w)|
    ensures Share(ids, intervals, m, w)[j] == ReplayAt(Share(ids, intervals, n, w), Clock(intervals, n), j)
    decreases m
  {
    var s := Share(ids, intervals, n, w);
    if m > n && j >= |s| {
      SharePeriod(ids, intervals, n, m - n, w);
      ReplayExact(ids, intervals, n, w, m - n, j - |s|);
      ModAddPeriod(j - |s|, |s|);
    } else {
      if m <= n {
        SharePrefix(ids, intervals, m, n, w);
      } else {
        SharePrefix(ids, intervals, n, m, w);
      }
      DivModUnique(j, |s|, 0, j);
    }
  }

  /** The infinite schedule gives every worker any number of requests. */
  lemma {:induction false} ShareGrows(ids: seq<nat>, intervals: seq<int>, n: nat, w: nat, q: nat)
    requires ids != [] && intervals != [] && CommonMultiple(n, |ids|, |intervals|)
    ensures |Share(ids, intervals, q * n, w)| == q * |Share(ids, intervals, n, w)|
  {
    if q > 0 {
      ShareGrows(ids, intervals, n, w, q - 1);
      assert (q - 1) * n + n == q * n;
      SharePeriod(ids, intervals, n, (q - 1) * n, w);
    }
  }

  /** Whether worker w, looping over its part with this duration, fires at the
      times of the infinite schedule for ever. */
  ghost predicate Replays(ids: seq<nat>, intervals: seq<int>, w: nat, part: seq<int>, duration: int)
    requires ids != [] && intervals != [] && part != []
  {
    forall m: nat, j: nat :: j < |Share(ids, intervals, m, w)| ==>
      Share(ids, intervals, m, w)[j] == ReplayAt(part, duration, j)
  }

  /** The built schedule reproduces the infinite schedule if and only if no
      worker's last timestamp lies after the end of the period. */
  lemma ReplaysIfLast(ids: seq<nat>, intervals: seq<int>, n: nat, workers: nat, parts: seq<seq<int>>, d: int)
    requires CoversWorkers(ids, workers) && intervals != [] && n > 0 && CommonMultiple(n, |ids|, |intervals|)
    requires |parts| == workers && LargestLast(parts, d)
    requires forall w :: 0 <= w < workers ==> parts[w] == Share(ids, intervals, n, w)
    ensures (forall w :: 0 <= w < workers ==> Replays(ids, intervals, w, parts[w], d))
            <==> forall w :: 0 <= w < workers ==> Last(parts[w]) <= Clock(intervals, n)
  {
    if d == Clock(intervals, n) {
      forall w | 0 <= w < workers
        ensures Replays(ids, intervals, w, parts[w], d)
      {
        forall m: nat, j: nat | j < |Share(ids, intervals, m, w)|
          ensures Share(ids, intervals, m, w)[j] == ReplayAt(parts[w], d, j)
        {
          ReplayExact(ids, intervals, n, w, m, j);
        }
      }
    } else {
      var w :| 0 <= w < workers && parts[w] != [] && Last(parts[w]) == d;
      ReplayFails(ids, intervals, n, w, d);
      LastIsPeriodEnd(ids, intervals, n, workers, parts);
    }
  }

  /** Position p holds the last occurrence of its thread id. */
  ghost predicate LastOf(ids: seq<nat>, p: nat) {
    p < |ids| && forall q :: p < q < |ids| ==> ids[q] != ids[p]
  }

  lemma {:induction false} LastExists(ids: seq<nat>, w: nat) returns (p: nat)
    requires w in ids
    ensures LastOf(ids, p) && ids[p] == w
  {
    var k := |ids| - 1;
    if ids[k] == w {
      p := k;
    } else {
      assert w in ids[..k];
      p := LastExists(ids[..k], w);
      assert ids[..k][p] == ids[p];
      forall q | p < q < |ids|
        ensures ids[q] != ids[p]
      {
        assert q < k ==> ids[..k][q] == ids[q];
      }
    }
  }

  lemma {:induction false} ShareFlat(ids: seq<nat>, intervals: seq<int>, m: nat, n: nat, w: nat)
    requires ids != [] && intervals != [] && m <= n && forall k :: m <= k < n ==> ids[k % |ids|] != w
    ensures Share(ids, intervals, n, w) == Share(ids, intervals, m, w)
  {
    if m < n {
      ShareFlat(ids, intervals, m, n - 1, w);
      ShareNext(ids, intervals, n - 1, w);
      assert ids[(n - 1) % |ids|] != w;
    }
  }

  lemma PhaseInRound(n: nat, d: nat, q: nat)
    requires q < d <= n && n % d == 0
    ensures (n - d + q) % d == q
  {
    DivModUnique(n - d + q, d, n / d - 1, q);
  }

  lemma NoLaterTurn(ids: seq<nat>, n: nat, p: nat, k: nat)
    requires ids != [] && |ids| <= n && n % |ids| == 0 && LastOf(ids, p) && n - |ids| + p < k < n
    ensures ids[k % |ids|] != ids[p]
  {
    PhaseInRound(n, |ids|, k - (n - |ids|));
  }

  /** When the last request of a period goes to the thread at position p. */
  lemma LastTimestamp(ids: seq<nat>, intervals: seq<int>, n: nat, p: nat)
    requires ids != [] && intervals != [] && |ids| <= n && n % |ids| == 0 && LastOf(ids, p)
    ensures var part := Share(ids, intervals, n, ids[p]);
            part != [] && Last(part) == Clock(intervals, n - (|ids| - 1 - p))
  {
    var m := n - |ids| + p;
    PhaseInRound(n, |ids|, p);
    ShareNext(ids, intervals, m, ids[p]);
    forall k | m + 1 <= k < n
      ensures ids[k % |ids|] != ids[p]
    {
      NoLaterTurn(ids, n, p, k);
    }
    ShareFlat(ids, intervals, m + 1, n, ids[p]);
  }

  /** No thread's last turn within the first n requests comes later than the end
      of the period. */
  ghost predicate TurnsEndInPeriod(ids: seq<nat>, intervals: seq<int>, n: nat)
    requires intervals != [] && |ids| <= n
  {
    forall p: nat :: LastOf(ids, p) ==> Clock(intervals, n - (|ids| - 1 - p)) <= Clock(intervals, n)
  }

  lemma LastTurns(ids: seq<nat>, intervals: seq<int>, n: nat, workers: nat, parts: seq<seq<int>>)
    requires CoversWorkers(ids, workers) && intervals != [] && |ids| <= n && n % |ids| == 0 && |parts| == workers
    requires forall w :: 0 <= w < workers ==> parts[w] == Share(ids, intervals, n, w) && parts[w] != []
    ensures TurnsEndInPeriod(ids, intervals, n) <==> forall w :: 0 <= w < workers ==> Last(parts[w]) <= Clock(intervals, n)
  {
    if TurnsEndInPeriod(ids, intervals, n) {
      forall w | 0 <= w < workers
        ensures Last(parts[w]) <= Clock(intervals, n)
      {
        var p := LastExists(ids, w);
        LastTimestamp(ids, intervals, n, p);
      }
    } else {
      var p: nat :| LastOf(ids, p) && Clock(intervals, n - (|ids| - 1 - p)) > Clock(intervals, n);
      LastTimestamp(ids, intervals, n, p);
      assert Last(parts[ids[p]]) > Clock(intervals, n);
    }
  }

  /** The built schedule reproduces the infinite schedule for ever if and only if
      no thread's last turn within the period comes later than the period's end:
      a condition on the interval file and the thread ids alone. */
  lemma ReplaysIff(ids: seq<nat>, intervals: seq<int>, n: nat, workers: nat, parts: seq<seq<int>>, d: int)
    requires CoversWorkers(ids, workers) && intervals != [] && n > 0 && CommonMultiple(n, |ids|, |intervals|)
    requires |parts| == workers && LargestLast(parts, d)
    requires forall w :: 0 <= w < workers ==> parts[w] == Share(ids, intervals, n, w)
    ensures |ids| <= n
    ensures (forall w :: 0 <= w < workers ==> Replays(ids, intervals, w, parts[w], d))
            <==> TurnsEndInPeriod(ids, intervals, n)
  {
    PeriodAtLeast(n, |ids|);
    ReplaysIfLast(ids, intervals, n, workers, parts, d);
    LastTurns(ids, intervals, n, workers, parts);
  }

  /** The wrong duration shows at the first timestamp of the second round. */
  lemma ReplayFails(ids: seq<nat>, intervals: seq<int>, n: nat, w: nat, d: int)
    requires ids != [] && intervals != [] && n > 0 && CommonMultiple(n, |ids|, |intervals|)
    requires Share(ids, intervals, n, w) != [] && d != Clock(intervals, n)
    ensures !Replays(ids, intervals, w, Share(ids, intervals, n, w), d)
  {
    var s := Share(ids, intervals, n, w);
    SharePeriod(ids, intervals, n, n, w);
    DivModUnique(|s|, |s|, 1, 0);
    assert ReplayAt(s, d, |s|) == s[0] + d;
    var twice := Share(ids, intervals, n + n, w);
    assert |s| < |twice| && twice[|s|] == s[0] + Clock(intervals, n);
  }

  /** The last entry of the period ends it. */
  lemma LastIsPeriodEnd(ids: seq<nat>, intervals: seq<int>, n: nat, workers: nat, parts: seq<seq<int>>)
    requires CoversWorkers(ids, workers) && intervals != [] && n > 0 && |parts| == workers
    requires forall w :: 0 <= w < workers ==> parts[w] == Share(ids, intervals, n, w)
    ensures exists w :: 0 <= w < workers && parts[w] != [] && Last(parts[w]) == Clock(intervals, n)
  {
    var w := ids[(n - 1) % |ids|];
    ShareNext(ids, intervals, n - 1, w);
    assert parts[w] != [] && Last(parts[w]) == Clock(intervals, n);
  }

  lemma {:induction false} ShareBounded(ids: seq<nat>, intervals: seq<int>, n: nat, w: nat)
    requires ids != [] && intervals != [] && forall i :: 0 <= i < |intervals| ==> intervals[i] >= 0
    ensures Clock(intervals, n) >= 0
    ensures forall j :: 0 <= j < |Share(ids, intervals, n, w)| ==> Share(ids, intervals, n, w)[j] <= Clock(intervals, n)
  {
    if n > 0 {
      ShareBounded(ids, intervals, n - 1, w);
      ShareNext(ids, intervals, n - 1, w);
    }
  }

  /** With intervals that are times, none of them negative, the schedule always
      replays. */
  lemma ReplaysForever(ids: seq<nat>, intervals: seq<int>, n: nat, workers: nat, parts: seq<seq<int>>, d: int)
    requires CoversWorkers(ids, workers) && intervals != [] && n > 0 && CommonMultiple(n, |ids|, |intervals|)
    requires |parts| == workers && LargestLast(parts, d)
    requires forall w :: 0 <= w < workers ==> parts[w] == Share(ids, intervals, n, w)
    requires forall i :: 0 <= i < |intervals| ==> intervals[i] >= 0
    ensures d == Clock(intervals, n)
    ensures forall w :: 0 <= w < workers ==> Replays(ids, intervals, w, parts[w], d)
  {
    forall w | 0 <= w < workers
      ensures Last(parts[w]) <= Clock(intervals, n)
    {
      ShareBounded(ids, intervals, n, w);
    }
    LastIsPeriodEnd(ids, intervals, n, workers, parts);
    ReplaysIfLast(ids, intervals, n, workers, parts, d);
  }

  /** The interval file may hold negative numbers, and then the replay can go
      wrong: the second round starts at 10 instead of 8. */
  lemma NegativeIntervalBreaksReplay()
    ensures CommonMultiple(2, 2, 2) && Share([0, 1], [5, -2], 2, 0) == [5] && Share([0, 1], [5, -2], 2, 1) == [3]
    ensures LargestLast([[5], [3]], 5) && !Replays([0, 1], [5, -2], 0, [5], 5)
  {
    var ids: seq<nat>, intervals := [0, 1], [5, -2];
    assert Clock(intervals, 1) == 5 && Clock(intervals, 2) == 3;
    assert Timeline(intervals, 0) == [] && Timeline(intervals, 1) == [5] && Timeline(intervals, 2) == [5, 3];
    ShareNext(ids, intervals, 0, 0);
    ShareNext(ids, intervals, 1, 0);
    ShareNext(ids, intervals, 0, 1);
    ShareNext(ids, intervals, 1, 1);
    var parts := [[5], [3]];
    assert Last(parts[0]) == 5 && Last(parts[1]) == 3;
    ReplayFails(ids, intervals, 2, 0, 5);
  }
}
