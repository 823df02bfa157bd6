/** Profiling one setting: windows are measured until the last three agree, and
    only those three make up the report. */
module StableProfiles {
  import opened Basics
  import opened ClientStats
  import ServerStats

  const WINDOW: nat := 3

  /** `latencyLimit` is in milliseconds, 0 for no limit. */
  datatype Setting = Setting(maxTrials: nat, threshold: real, latencyLimit: nat, async: bool)

  /** The outcome of one measurement. */
  datatype Outcome =
    | Measured(report: Report, server: ServerStats.Tree, inferPerSec: real, latency: nat)
    | Failed(error: nat)

  /** What the outside world answers in one turn of the loop: the health check,
      the measurement, and whether an exit signal has arrived by its end. */
  datatype Trial = Trial(healthy: bool, outcome: Outcome, exiting: bool)

  function Throughput(o: Outcome): real {
    if o.Measured? then o.inferPerSec else 0.0
  }

  function Latency(o: Outcome): nat {
    if o.Measured? then o.latency else UINT64 - 1
  }

  /** Throughputs are not negative. */
  ghost predicate Sensible(ts: seq<Trial>) {
    forall i :: 0 <= i < |ts| ==> Throughput(ts[i].outcome) >= 0.0
  }

  function Throughputs(ts: seq<Trial>): (xs: seq<real>)
    ensures |xs| == |ts| && forall i :: 0 <= i < |xs| ==> xs[i] == Throughput(ts[i].outcome)
  {
    seq(|ts|, i requires 0 <= i < |ts| => Throughput(ts[i].outcome))
  }

  function Latencies(ts: seq<Trial>): (xs: seq<real>)
    ensures |xs| == |ts| && forall i :: 0 <= i < |xs| ==> xs[i] == Latency(ts[i].outcome) as real
  {
    seq(|ts|, i requires 0 <= i < |ts| => Latency(ts[i].outcome) as real)
  }

  function Last<T>(s: seq<T>): (r: seq<T>)
    ensures |r| <= WINDOW
  {
    if |s| <= WINDOW then s else s[|s| - WINDOW..]
  }

  /** The last three of three or more. */
  lemma LastThree<T>(s: seq<T>, j: nat)
    requires |s| >= 3 && j < 3
    ensures |Last(s)| == 3 && Last(s)[j] == s[|s| - 3 + j]
  {
  }

  // ------------------------------------------------- stability

  /** Whether a is at most the threshold above b. */
  predicate Within(a: real, b: real, threshold: real) {
    b > 0.0 && a / b <= 1.0 + threshold
  }

  /** No value is 0 and no two differ by more than the threshold. */
  ghost predicate Close(xs: seq<real>, threshold: real) {
    forall i, j :: 0 <= i < |xs| && 0 <= j < |xs| ==> Within(xs[i], xs[j], threshold)
  }

  lemma WithinMonotone(a: real, b: real, lo: real, hi: real, threshold: real)
    requires 0.0 <= a <= hi && lo <= b && Within(hi, lo, threshold)
    ensures Within(a, b, threshold)
  {
    var q := hi / lo;
    assert q * lo == hi;
    assert q * b >= q * lo;
    DivideOut(a / b, q, b);
  }

  lemma DivideOut(r: real, q: real, b: real)
    requires b > 0.0 && r * b <= q * b
    ensures r <= q
  {
    if r > q {
      ProductLess(q, r, b);
    }
  }

  lemma ProductLess(q: real, r: real, b: real)
    requires b > 0.0 && q < r
    ensures q * b < r * b
  {
    assert (r - q) * b > 0.0;
  }

  /** Comparing the largest with the smallest value is enough. A smallest value
      of 0 gives an infinite or undefined quotient, which is not below anything. */
  method IsWindowStable(xs: seq<real>, threshold: real) returns (stable: bool)
    requires xs != [] && forall i :: 0 <= i < |xs| ==> xs[i] >= 0.0
    ensures stable <==> Close(xs, threshold)
  {
    var lo, hi := 0, 0;
    for i := 1 to |xs|
      invariant 0 <= lo < i && 0 <= hi < i
      invariant forall j :: 0 <= j < i ==> xs[lo] <= xs[j] <= xs[hi]
    {
      if xs[i] < xs[lo] {
        lo := i;
      }
      if xs[i] >= xs[hi] {
        hi := i;
      }
    }
    stable := xs[lo] != 0.0 && xs[hi] / xs[lo] <= 1.0 + threshold;
    assert stable <==> Within(xs[hi], xs[lo], threshold);
    if stable {
      forall i, j | 0 <= i < |xs| && 0 <= j < |xs|
        ensures Within(xs[i], xs[j], threshold)
      {
        WithinMonotone(xs[i], xs[j], xs[lo], xs[hi], threshold);
      }
    }
  }

  /** Whether the last windows of the trials agree. */
  ghost predicate Stable(s: Setting, ts: seq<Trial>, checkLatency: bool) {
    && |ts| >= WINDOW && Close(Throughputs(Last(ts)), s.threshold)
    && (checkLatency ==> Close(Latencies(Last(ts)), s.threshold))
  }

  method DetermineStability(s: Setting, ips: seq<real>, lats: seq<real>, checkLatency: bool, ghost ts: seq<Trial>)
    returns (stable: bool)
    requires Sensible(ts) && ips == Throughputs(ts) && lats == Latencies(ts)
    ensures stable <==> Stable(s, ts, checkLatency)
  {
    stable := false;
    if |ips| >= WINDOW {
      assert Last(ips) == Throughputs(Last(ts)) && Last(lats) == Latencies(Last(ts));
      stable := NoneZero(Last(ips), s.threshold);
      if stable {
        stable := IsWindowStable(Last(ips), s.threshold);
        if stable && checkLatency {
          stable := IsWindowStable(Last(lats), s.threshold);
        }
      }
    }
  }

  method NoneZero(xs: seq<real>, ghost threshold: real) returns (ok: bool)
    ensures Close(xs, threshold) ==> ok
  {
    ok := true;
    for i := 0 to |xs|
      invariant !ok ==> exists j :: 0 <= j < i && xs[j] == 0.0
    {
      if xs[i] == 0.0 {
        ok := false;
      }
    }
    if !ok {
      ghost var j :| 0 <= j < |xs| && xs[j] == 0.0;
      assert !Within(xs[j], xs[j], threshold);
    }
  }

  ghost predicate OverLimit(s: Setting, ts: seq<Trial>) {
    s.latencyLimit != 0 && |ts| >= WINDOW &&
    exists i :: 0 <= i < WINDOW && Latencies(Last(ts))[i] >= (s.latencyLimit * NANOS_PER_MILLI) as real
  }

  method IsOverLimit(s: Setting, lats: seq<real>, ghost ts: seq<Trial>) returns (over: bool)
    requires lats == Latencies(ts)
    ensures over <==> OverLimit(s, ts)
  {
    over := false;
    if |lats| >= WINDOW {
      var xs := Last(lats);
      assert xs == Latencies(Last(ts));
      for i := 0 to WINDOW
        invariant over <==> exists j :: 0 <= j < i && xs[j] >= (s.latencyLimit * NANOS_PER_MILLI) as real
      {
        if xs[i] >= (s.latencyLimit * NANOS_PER_MILLI) as real {
          over := true;
        }
      }
    }
    over := over && s.latencyLimit != 0;
  }

  // ------------------------------------------------- the loop

  /** Whether the loop stops after these trials for the sake of the results. */
  ghost predicate Done(s: Setting, ts: seq<Trial>) {
    Stable(s, ts, true) || OverLimit(s, ts)
  }

  /** The loop goes on after these trials. */
  ghost predicate GoesOn(s: Setting, once: bool, ts: seq<Trial>)
    requires ts != []
  {
    var last := ts[|ts| - 1];
    !once && last.healthy && !last.exiting && |ts| < s.maxTrials && !Done(s, ts)
  }

  /** The length of the trials if the loop goes on after each of them. */
  ghost function GoingOn(s: Setting, once: bool, ts: seq<Trial>): nat {
    if ts == [] then 0 else GoingOn(s, once, ts[..|ts| - 1]) + if GoesOn(s, once, ts) then 1 else 0
  }

  function Outcomes(ts: seq<Trial>): (os: seq<Outcome>)
    ensures |os| == |ts| && forall i :: 0 <= i < |os| ==> os[i] == ts[i].outcome
  {
    seq(|ts|, i requires 0 <= i < |ts| => ts[i].outcome)
  }

  /** What the loop carries after the trials `ts`: the queue of outcomes and the
      lists of throughputs and latencies. */
  ghost predicate Carries(queue: seq<Outcome>, ips: seq<real>, lats: seq<real>, ts: seq<Trial>) {
    queue == Outcomes(Last(ts)) && ips == Throughputs(ts) && lats == Latencies(ts)
  }

  method Append(queue: seq<Outcome>, ips: seq<real>, lats: seq<real>, trial: Trial, ghost ts: seq<Trial>)
    returns (queue': seq<Outcome>, ips': seq<real>, lats': seq<real>)
    requires Carries(queue, ips, lats, ts)
    ensures Carries(queue', ips', lats', ts + [trial])
  {
    queue' := queue + [trial.outcome];
    if |queue'| > WINDOW {
      queue' := queue'[1..];
    }
    assert queue' == Outcomes(Last(ts + [trial]));
    ips' := ips + [Throughput(trial.outcome)];
    lats' := lats + [Latency(trial.outcome) as real];
  }

  function Trials(s: Setting): nat {
    if s.maxTrials == 0 then 1 else s.maxTrials
  }

  /** What holds when the loop is left after the trials `ts`. */
  ghost predicate Ended(s: Setting, once: bool, ts: seq<Trial>, healthy: bool, stable: bool,
                        queue: seq<Outcome>, ips: seq<real>, lats: seq<real>)
    requires ts != []
  {
    && healthy == ts[|ts| - 1].healthy && !GoesOn(s, once, ts)
    && (healthy ==> Carries(queue, ips, lats, ts) && (stable <==> once || Stable(s, ts, true)))
  }

  /** Measures until the results are stable, over the limit, or the trials are
      used up. */
  method MeasureLoop(s: Setting, once: bool, world: seq<Trial>)
    returns (healthy: bool, stable: bool, queue: seq<Outcome>, ips: seq<real>, lats: seq<real>, n: nat)
    requires Sensible(world) && |world| == Trials(s)
    ensures 1 <= n <= |world| && GoingOn(s, once, world[..n - 1]) == n - 1
    ensures Ended(s, once, world[..n], healthy, stable, queue, ips, lats)
    ensures once ==> n == 1
  {
    queue, ips, lats, n := [], [], [], 0;
    healthy, stable := true, false;
    var goOn := true;
    ghost var before, ts := [], [];
    while goOn
      invariant n == |ts| <= |world| && ts == world[..n]
      invariant goOn ==> n < |world| && GoingOn(s, once, ts) == n && Carries(queue, ips, lats, ts)
      invariant !goOn ==> n > 0 && before == world[..n - 1] && GoingOn(s, once, before) == n - 1
      invariant !goOn ==> Ended(s, once, ts, healthy, stable, queue, ips, lats)
      invariant once && n > 0 ==> n == 1 && !goOn
      decreases |world| - n, goOn
    {
      before, ts := ts, ts + [world[n]];
      Prefixes(world, n, before, ts);
      healthy, stable, goOn, queue, ips, lats := Turn(s, once, world[n], queue, ips, lats, before, ts);
      n := n + 1;
    }
  }

  lemma Prefixes(world: seq<Trial>, n: nat, before: seq<Trial>, ts: seq<Trial>)
    requires n < |world| && before == world[..n] && ts == before + [world[n]] && Sensible(world)
    ensures ts == world[..n + 1] && ts[..n] == before && Sensible(ts)
  {
  }

  /** One turn of the loop. */
  method Turn(s: Setting, once: bool, trial: Trial, queue: seq<Outcome>, ips: seq<real>, lats: seq<real>,
              ghost before: seq<Trial>, ghost ts: seq<Trial>)
    returns (healthy: bool, stable: bool, goOn: bool, queue': seq<Outcome>, ips': seq<real>, lats': seq<real>)
    requires ts == before + [trial] && Sensible(ts) && Carries(queue, ips, lats, before)
    ensures goOn ==> GoesOn(s, once, ts) && Carries(queue', ips', lats', ts)
    ensures !goOn ==> Ended(s, once, ts, healthy, stable, queue', ips', lats')
  {
    healthy, stable, goOn, queue', ips', lats' := trial.healthy, false, false, queue, ips, lats;
    if trial.healthy {
      queue', ips', lats' := Append(queue, ips, lats, trial, before);
      stable, goOn := Assess(s, once, trial, ips', lats', ts);
    }
  }

  /** The end of a turn: is the profile stable, and does the loop go on? */
  method Assess(s: Setting, once: bool, trial: Trial, ips: seq<real>, lats: seq<real>, ghost ts: seq<Trial>)
    returns (stable: bool, goOn: bool)
    requires Sensible(ts) && ts != [] && trial == ts[|ts| - 1] && trial.healthy
    requires ips == Throughputs(ts) && lats == Latencies(ts)
    ensures stable <==> once || Stable(s, ts, true)
    ensures goOn <==> GoesOn(s, once, ts)
  {
    if once {
      return true, false;
    }
    stable := DetermineStability(s, ips, lats, true, ts);
    var over := IsOverLimit(s, lats, ts);
    goOn := !stable && !over && !trial.exiting && |ips| < s.maxTrials;
  }

  // ------------------------------------------------- what the loop decides

  /** Two positive values, neither more than the threshold above the other. */
  predicate Agree(x: real, y: real, threshold: real) {
    x > 0.0 && y > 0.0 && x / y <= 1.0 + threshold && y / x <= 1.0 + threshold
  }

  predicate AllAgree(x: real, y: real, z: real, threshold: real) {
    Agree(x, y, threshold) && Agree(y, z, threshold) && Agree(x, z, threshold)
  }

  /** Three measurements without error agree in throughput and, if asked, in
      latency. */
  predicate ThreeAgree(s: Setting, a: Outcome, b: Outcome, c: Outcome, checkLatency: bool) {
    && a.Measured? && b.Measured? && c.Measured?
    && AllAgree(a.inferPerSec, b.inferPerSec, c.inferPerSec, s.threshold)
    && (checkLatency ==> AllAgree(a.latency as real, b.latency as real, c.latency as real, s.threshold))
  }

  lemma CloseMeans(xs: seq<real>, threshold: real)
    requires |xs| == 3
    ensures Close(xs, threshold) <==> AllAgree(xs[0], xs[1], xs[2], threshold)
  {
    if AllAgree(xs[0], xs[1], xs[2], threshold) {
      OneWithin(xs[0], xs[1], threshold);
      OneWithin(xs[1], xs[2], threshold);
    }
  }

  /** Values can only agree if the threshold is not negative. */
  lemma OneWithin(x: real, y: real, threshold: real)
    requires Agree(x, y, threshold)
    ensures Within(x, x, threshold) && Within(y, y, threshold)
  {
    if x >= y {
      WithinMonotone(x, x, y, x, threshold);
      WithinMonotone(y, y, y, x, threshold);
    } else {
      WithinMonotone(x, x, x, y, threshold);
      WithinMonotone(y, y, x, y, threshold);
    }
  }

  /** The loop's test, said of the last three outcomes themselves. */
  lemma StableMeans(s: Setting, ts: seq<Trial>, checkLatency: bool)
    ensures Stable(s, ts, checkLatency) <==>
              && |ts| >= 3
              && ThreeAgree(s, ts[|ts| - 3].outcome, ts[|ts| - 2].outcome, ts[|ts| - 1].outcome, checkLatency)
  {
    if |ts| >= 3 {
      var xs, ys := Throughputs(Last(ts)), Latencies(Last(ts));
      LastThree(ts, 0);
      LastThree(ts, 1);
      LastThree(ts, 2);
      CloseMeans(xs, s.threshold);
      CloseMeans(ys, s.threshold);
      assert xs[0] == Throughput(ts[|ts| - 3].outcome) && xs[1] == Throughput(ts[|ts| - 2].outcome);
      assert xs[2] == Throughput(ts[|ts| - 1].outcome);
      assert ys[0] == Latency(ts[|ts| - 3].outcome) as real && ys[1] == Latency(ts[|ts| - 2].outcome) as real;
      assert ys[2] == Latency(ts[|ts| - 1].outcome) as real;
    }
  }

  /** Reaching the limit; a failed measurement counts as the largest latency. */
  predicate Reaches(limit: nat, o: Outcome) {
    match o
    case Measured(_, _, _, latency) => latency >= limit * 1_000_000
    case Failed(_) => 0xffff_ffff_ffff_ffff >= limit * 1_000_000
  }

  lemma OverLimitMeans(s: Setting, ts: seq<Trial>)
    ensures OverLimit(s, ts) <==>
              && s.latencyLimit != 0 && |ts| >= 3
              && (Reaches(s.latencyLimit, ts[|ts| - 3].outcome) || Reaches(s.latencyLimit, ts[|ts| - 2].outcome)
                  || Reaches(s.latencyLimit, ts[|ts| - 1].outcome))
  {
    if |ts| >= 3 {
      LastThree(ts, 0);
      LastThree(ts, 1);
      LastThree(ts, 2);
      var ys := Latencies(Last(ts));
      assert ys[0] == Latency(ts[|ts| - 3].outcome) as real && ys[1] == Latency(ts[|ts| - 2].outcome) as real;
      assert ys[2] == Latency(ts[|ts| - 1].outcome) as real;
    }
  }

  /** The loop has gone on after every one of its first trials. */
  lemma {:induction false} WentOnEach(s: Setting, once: bool, ts: seq<Trial>, m: nat)
    requires GoingOn(s, once, ts) == |ts| && 1 <= m <= |ts|
    ensures GoesOn(s, once, ts[..m])
  {
    GoingOnAtMost(s, once, ts[..|ts| - 1]);
    if m < |ts| {
      WentOnEach(s, once, ts[..|ts| - 1], m);
      assert ts[..|ts| - 1][..m] == ts[..m];
    } else {
      assert ts[..m] == ts;
    }
  }

  lemma {:induction false} GoingOnAtMost(s: Setting, once: bool, ts: seq<Trial>)
    ensures GoingOn(s, once, ts) <= |ts|
  {
    if ts != [] {
      GoingOnAtMost(s, once, ts[..|ts| - 1]);
    }
  }

  /** Trial number m, counted from 1, has not ended the loop: it was healthy and no
      exit signal came, trials were left, and the last three outcomes neither
      agreed nor reached the limit. */
  ghost predicate Undecided(s: Setting, world: seq<Trial>, m: nat)
    requires 1 <= m <= |world|
  {
    && world[m - 1].healthy && !world[m - 1].exiting && m < s.maxTrials
    && (m >= 3 ==>
          && !ThreeAgree(s, world[m - 3].outcome, world[m - 2].outcome, world[m - 1].outcome, true)
          && (s.latencyLimit == 0 || (!Reaches(s.latencyLimit, world[m - 3].outcome)
                                      && !Reaches(s.latencyLimit, world[m - 2].outcome)
                                      && !Reaches(s.latencyLimit, world[m - 1].outcome))))
  }

  lemma GoesOnMeans(s: Setting, once: bool, world: seq<Trial>, m: nat)
    requires 1 <= m <= |world|
    ensures GoesOn(s, once, world[..m]) <==> !once && Undecided(s, world, m)
  {
    var ts := world[..m];
    StableMeans(s, ts, true);
    OverLimitMeans(s, ts);
    assert m >= 3 ==> ts[m - 3] == world[m - 3] && ts[m - 2] == world[m - 2];
    assert ts[m - 1] == world[m - 1];
  }

  // ------------------------------------------------- the result

  datatype Verdict = Success | Unhealthy | MeasureError(error: nat) | MergeError | ExitSignal

  ghost predicate FirstFailure(os: seq<Outcome>, error: nat) {
    exists i :: 0 <= i < |os| && os[i] == Failed(error) && forall j :: 0 <= j < i ==> os[j].Measured?
  }

  ghost predicate AllMeasured(os: seq<Outcome>) {
    forall i :: 0 <= i < |os| ==> os[i].Measured?
  }

  /** The first error of the queue. */
  method FirstError(queue: seq<Outcome>) returns (failed: bool, error: nat)
    ensures failed <==> !AllMeasured(queue)
    ensures failed ==> FirstFailure(queue, error)
  {
    failed, error := false, 0;
    for i := 0 to |queue|
      invariant !failed && forall j :: 0 <= j < i ==> queue[j].Measured?
    {
      if queue[i].Failed? {
        return true, queue[i].error;
      }
    }
  }

  function Reports(os: seq<Outcome>): (ws: seq<Report>)
    requires forall i :: 0 <= i < |os| ==> os[i].Measured?
    ensures |ws| == |os| && forall i :: 0 <= i < |ws| ==> ws[i] == os[i].report
  {
    seq(|os|, i requires 0 <= i < |os| => os[i].report)
  }

  function Servers(os: seq<Outcome>): (ts: seq<ServerStats.Tree>)
    requires forall i :: 0 <= i < |os| ==> os[i].Measured?
    ensures |ts| == |os| && forall i :: 0 <= i < |ts| ==> ts[i] == os[i].server
  {
    seq(|os|, i requires 0 <= i < |os| => os[i].server)
  }

  lemma StableIsMeasured(s: Setting, ts: seq<Trial>, checkLatency: bool)
    requires Stable(s, ts, checkLatency)
    ensures AllMeasured(Outcomes(Last(ts)))
  {
    var last := Last(ts);
    forall i | 0 <= i < |last|
      ensures last[i].outcome.Measured?
    {
      assert Within(Throughputs(last)[i], Throughputs(last)[i], s.threshold);
    }
  }

  /** Whether the profile counts as stable after these trials: an asynchronous
      one is excused from stable latencies. */
  ghost predicate StableEnough(s: Setting, ts: seq<Trial>) {
    Stable(s, ts, true) || (s.async && Stable(s, ts, false))
  }

  /** The reports were made with one batch size, and the ensembles have the same
      number of parts at every node. */
  ghost predicate Mergeable(ws: seq<Report>, trees: seq<ServerStats.Tree>)
    requires ws != [] && trees != []
  {
    (forall i :: 0 <= i < |ws| ==> ws[i].batch == ws[0].batch) && ServerStats.Merges(trees)
  }

  /** MergePerfStatusReports. */
  method MergeReports(ws: seq<Report>, trees: seq<ServerStats.Tree>)
    returns (ok: bool, merged: Report, server: ServerStats.Tree)
    requires ws != [] && trees != []
    ensures ok <==> Mergeable(ws, trees)
    ensures ok ==> merged == MergedReport(ws, 0) && server == ServerStats.Merged(trees)
  {
    server := trees[0];
    ok, merged := MergeClientStats(ws, 0);
    if ok {
      var r := ServerStats.MergeServerSideStats(trees);
      ok := r.Ok?;
      if ok {
        server := r.value;
      }
    }
  }

  /** The loop and what follows it, in terms of the queue. */
  method ProfileWindows(s: Setting, once: bool, world: seq<Trial>, exitLater: bool)
    returns (verdict: Verdict, stable: bool, used: seq<Report>, merged: Report, server: ServerStats.Tree, n: nat)
    requires Sensible(world) && |world| == Trials(s)
    ensures 1 <= n <= |world| && GoingOn(s, once, world[..n - 1]) == n - 1 && !GoesOn(s, once, world[..n])
    ensures verdict.Unhealthy? <==> !world[n - 1].healthy
    ensures !verdict.Unhealthy? && !once ==> (stable <==> StableEnough(s, world[..n]))
    ensures !verdict.Unhealthy? && once ==> n == 1 && stable
    ensures verdict.MeasureError? ==> FirstFailure(Outcomes(Last(world[..n])), verdict.error) && used == []
    ensures !once && stable ==> !verdict.MeasureError?
    ensures !stable ==> used == []
    ensures !verdict.Unhealthy? && !verdict.MeasureError? ==> AllMeasured(Outcomes(Last(world[..n])))
    ensures !verdict.Unhealthy? && !verdict.MeasureError? && stable ==>
              && used == Reports(Outcomes(Last(world[..n]))) != []
              && var trees := Servers(Outcomes(Last(world[..n])));
                 && (verdict.MergeError? <==> !Mergeable(used, trees))
                 && (!verdict.MergeError? ==> merged == MergedReport(used, 0) && server == ServerStats.Merged(trees))
    ensures verdict.MergeError? ==> stable
    ensures verdict.ExitSignal? ==> world[n - 1].exiting || exitLater
    ensures verdict.Success? ==> !world[n - 1].exiting && !exitLater
  {
    used, merged, server := [], Report(0, 0, 0, 0, 0, 0, 0, 0, 0, 0, []), ServerStats.Node(ServerStats.ZEROS, map[]);
    var healthy, queue, ips, lats;
    healthy, stable, queue, ips, lats, n := MeasureLoop(s, once, world);
    if !healthy {
      return Unhealthy, false, used, merged, server, n;
    }
    if s.async && !stable {
      stable := DetermineStability(s, ips, lats, false, world[..n]);
    }
    if !once && stable {
      StableIsMeasured(s, world[..n], Stable(s, world[..n], true));
    }
    var failed, error := FirstError(queue);
    if failed {
      return MeasureError(error), stable, used, merged, server, n;
    }
    if stable {
      used := Reports(queue);
      var ok;
      ok, merged, server := MergeReports(used, Servers(queue));
      if !ok {
        return MergeError, stable, used, merged, server, n;
      }
    }
    verdict := if world[n - 1].exiting || exitLater then ExitSignal else Success;
  }

  /** The reports are those of the last three measurements. */
  ghost predicate FromLastThree(world: seq<Trial>, n: nat, used: seq<Report>) {
    && 3 <= n <= |world| && |used| == 3
    && forall j :: 0 <= j < 3 ==> world[n - 3 + j].outcome.Measured? && used[j] == world[n - 3 + j].outcome.report
  }

  /** The server trees of the last three measurements. */
  function LastServers(world: seq<Trial>, n: nat): seq<ServerStats.Tree>
    requires 3 <= n <= |world|
    requires world[n - 3].outcome.Measured? && world[n - 2].outcome.Measured? && world[n - 1].outcome.Measured?
  {
    [world[n - 3].outcome.server, world[n - 2].outcome.server, world[n - 1].outcome.server]
  }

  /** Profiles one setting. `used` are the windows merged into the report; n is
      the number of windows measured. An exit signal is never taken back: it may
      have arrived in the last turn or `exitLater`. */
  method ProfileHelper(s: Setting, requestCount: nat, world: seq<Trial>, exitLater: bool)
    returns (verdict: Verdict, stable: bool, used: seq<Report>, merged: Report, server: ServerStats.Tree, n: nat)
    requires Sensible(world) && |world| == Trials(s)
    ensures 1 <= n <= |world| && (n == 1 || n <= s.maxTrials)
    ensures forall m :: 1 <= m < n ==> requestCount == 0 && Undecided(s, world, m)
    ensures requestCount != 0 || !Undecided(s, world, n)
    ensures verdict.Unhealthy? <==> !world[n - 1].healthy
    ensures !verdict.Unhealthy? && requestCount == 0 ==>
              (stable <==> n >= 3 && ThreeAgree(s, world[n - 3].outcome, world[n - 2].outcome, world[n - 1].outcome, !s.async))
    ensures !verdict.Unhealthy? && requestCount != 0 ==> n == 1 && stable
    ensures requestCount == 0 && stable && !verdict.Unhealthy? ==> !verdict.MeasureError? && FromLastThree(world, n, used)
    ensures requestCount == 0 && stable && !verdict.Unhealthy? ==>
              && FromLastThree(world, n, used)
              && (verdict.MergeError? <==> !Mergeable(used, LastServers(world, n)))
              && (!verdict.MergeError? ==> merged == MergedReport(used, 0) && server == ServerStats.Merged(LastServers(world, n)))
    ensures requestCount != 0 && !verdict.Unhealthy? ==>
              match world[0].outcome
              case Failed(error) => verdict == MeasureError(error)
              case Measured(report, tree, _, _) =>
                && used == [report]
                && (verdict.MergeError? <==> !Mergeable([report], [tree]))
                && (!verdict.MergeError? ==> merged == MergedReport([report], 0) && server == ServerStats.Merged([tree]))
    ensures verdict.MeasureError? ==> used == [] && FirstFailure(Outcomes(Last(world[..n])), verdict.error)
    ensures verdict.MergeError? ==> stable
    ensures !stable ==> used == []
    ensures !verdict.Unhealthy? && !verdict.MeasureError? ==> AllMeasured(Outcomes(Last(world[..n])))
    ensures verdict.ExitSignal? ==> world[n - 1].exiting || exitLater
    ensures verdict.Success? ==> !world[n - 1].exiting && !exitLater
  {
    verdict, stable, used, merged, server, n := ProfileWindows(s, requestCount != 0, world, exitLater);
    LoopMeans(s, requestCount != 0, world, n);
    if requestCount != 0 && !verdict.Unhealthy? {
      OnlyOutcome(world);
    } else if stable && !verdict.Unhealthy? {
      ThreeOutcomes(world, n);
    }
  }

  lemma ThreeOutcomes(world: seq<Trial>, n: nat)
    requires 3 <= n <= |world| && AllMeasured(Outcomes(Last(world[..n])))
    ensures var os := Outcomes(Last(world[..n]));
            FromLastThree(world, n, Reports(os)) && Servers(os) == LastServers(world, n)
  {
    var os := Outcomes(Last(world[..n]));
    LastOutcomes(world, n);
    assert os[0] == world[n - 3].outcome && os[1] == world[n - 2].outcome && os[2] == world[n - 1].outcome;
  }

  lemma OnlyOutcome(world: seq<Trial>)
    requires world != []
    ensures var os, o := Outcomes(Last(world[..1])), world[0].outcome;
            && os == [o] && (AllMeasured(os) <==> o.Measured?)
            && (forall error :: FirstFailure(os, error) <==> o == Failed(error))
            && (o.Measured? ==> Reports(os) == [o.report] && Servers(os) == [o.server])
  {
    LastOutcomes(world, 1);
    var os := Outcomes(Last(world[..1]));
    assert os[0] == world[0].outcome;
  }

  lemma LoopMeans(s: Setting, once: bool, world: seq<Trial>, n: nat)
    requires 1 <= n <= |world| == Trials(s) && GoingOn(s, once, world[..n - 1]) == n - 1 && !GoesOn(s, once, world[..n])
    ensures n == 1 || n <= s.maxTrials
    ensures forall m :: 1 <= m < n ==> !once && Undecided(s, world, m)
    ensures once || !Undecided(s, world, n)
    ensures StableEnough(s, world[..n]) <==>
              n >= 3 && ThreeAgree(s, world[n - 3].outcome, world[n - 2].outcome, world[n - 1].outcome, !s.async)
  {
    forall m | 1 <= m < n
      ensures !once && Undecided(s, world, m)
    {
      WentOnEach(s, once, world[..n - 1], m);
      assert world[..n - 1][..m] == world[..m];
      GoesOnMeans(s, once, world, m);
    }
    GoesOnMeans(s, once, world, n);
    StableMeans(s, world[..n], true);
    StableMeans(s, world[..n], false);
    assert n >= 3 ==> world[..n][n - 3] == world[n - 3] && world[..n][n - 2] == world[n - 2];
    assert world[..n][n - 1] == world[n - 1];
  }

  lemma LastOutcomes(world: seq<Trial>, n: nat)
    requires 1 <= n <= |world|
    ensures n >= 3 ==> Outcomes(Last(world[..n])) == [world[n - 3].outcome, world[n - 2].outcome, world[n - 1].outcome]
    ensures n == 1 ==> Outcomes(Last(world[..n])) == [world[0].outcome]
  {
    if n >= 3 {
      LastThree(world[..n], 0);
      LastThree(world[..n], 1);
      LastThree(world[..n], 2);
    }
  }

  // ------------------------------------------------- what a report means

  function Inferences(w: Report): nat {
    w.requests * w.batch
  }

  /** A window's throughput is its number of inferences over its time. A window
      over no time is an error. */
  ghost predicate HasRate(w: Report, r: real) {
    w.duration > 0 && r == Rate(Inferences(w), w.duration)
  }

  ghost predicate Honest(ts: seq<Trial>) {
    forall i :: 0 <= i < |ts| && ts[i].outcome.Measured? ==> HasRate(ts[i].outcome.report, ts[i].outcome.inferPerSec)
  }

  ghost predicate AllWithin(xs: seq<real>, lo: real, hi: real) {
    forall i :: 0 <= i < |xs| ==> lo <= xs[i] <= hi
  }

  ghost predicate OneBatch(ws: seq<Report>) {
    ws != [] && forall i :: 0 <= i < |ws| ==> ws[i].batch == ws[0].batch
  }

  lemma {:induction false} SumScales(ws: seq<Report>, batch: nat)
    requires forall i :: 0 <= i < |ws| ==> ws[i].batch == batch
    ensures Sum(ws, Inferences) == Sum(ws, Requests) * batch
  {
    if ws != [] {
      SumScales(ws[..|ws| - 1], batch);
    }
  }

  lemma MergedRate(ws: seq<Report>, lo: real, hi: real) returns (r: real)
    requires OneBatch(ws) && AllBetween(ws, Inferences, lo, hi)
    ensures HasRate(MergedReport(ws, 0), r) && lo <= r <= hi
  {
    MergedRateBetween(ws, Inferences, lo, hi);
    SumScales(ws, ws[0].batch);
    r := Rate(Sum(ws, Inferences), Sum(ws, Duration));
  }

  /** A stable report is merged from exactly three windows without errors, whose
      throughputs are positive and within the threshold of each other, and its
      own throughput lies between the smallest and the largest of them. */
  lemma StableReport(s: Setting, ts: seq<Trial>, used: seq<Report>, lo: real, hi: real) returns (r: real)
    requires StableEnough(s, ts) && Honest(ts) && OneBatch(used)
    requires AllMeasured(Outcomes(Last(ts))) && used == Reports(Outcomes(Last(ts)))
    requires AllWithin(Throughputs(Last(ts)), lo, hi)
    ensures |used| == WINDOW && Close(Throughputs(Last(ts)), s.threshold)
    ensures HasRate(MergedReport(used, 0), r) && lo <= r <= hi
  {
    forall i | 0 <= i < |used|
      ensures used[i].duration > 0 && lo <= Rate(Inferences(used[i]), used[i].duration) <= hi
    {
      WindowRate(ts, i);
      assert lo <= Throughputs(Last(ts))[i] <= hi;
    }
    r := MergedRate(used, lo, hi);
  }

  lemma WindowRate(ts: seq<Trial>, i: nat)
    requires Honest(ts) && i < |Last(ts)| && Last(ts)[i].outcome.Measured?
    ensures HasRate(Last(ts)[i].outcome.report, Throughput(Last(ts)[i].outcome))
  {
    var k := |ts| - |Last(ts)| + i;
    assert Last(ts)[i] == ts[k];
  }
}
