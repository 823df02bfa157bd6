/** Client-side statistics of the measurement windows and of the report merged
    from them. */
module ClientStats {
  import opened Basics

  /** Accumulated statistics of the client library; times in nanoseconds. */
  datatype InferStat = InferStat(completed: nat, requestTime: nat, sendTime: nat, receiveTime: nat)

  predicate Grows(a: InferStat, b: InferStat) {
    a.completed <= b.completed && a.requestTime <= b.requestTime && a.sendTime <= b.sendTime && a.receiveTime <= b.receiveTime
  }

  /** The client statistics of a window, or of a merged report. */
  datatype Report = Report(
    batch: nat,
    requests: nat,
    sequences: nat,
    delayed: nat,
    responses: nat,
    duration: nat,
    completed: nat,
    avgRequest: nat,
    avgSend: nat,
    avgReceive: nat,
    latencies: seq<int>)

  /** An average that stays 0 when nothing was counted. */
  function Average(time: nat, count: nat): nat {
    if count == 0 then 0 else time / count
  }

  /** SummarizeClientStat for one window. */
  function Summarize(start: InferStat, end: InferStat, batch: nat, requests: nat, sequences: nat, delayed: nat,
                     responses: nat, duration: nat, latencies: seq<int>): Report
    requires Grows(start, end)
  {
    var n := end.completed - start.completed;
    Report(if batch == 0 then 1 else batch, requests, sequences, delayed, responses, duration, n,
           Average(end.requestTime - start.requestTime, n), Average(end.sendTime - start.sendTime, n),
           Average(end.receiveTime - start.receiveTime, n), latencies)
  }

  // ------------------------------------------------- merging

  function Sum(ws: seq<Report>, f: Report -> nat): nat {
    if ws == [] then 0 else Sum(ws[..|ws| - 1], f) + f(ws[|ws| - 1])
  }

  function Latencies(ws: seq<Report>): seq<int> {
    if ws == [] then [] else Latencies(ws[..|ws| - 1]) + ws[|ws| - 1].latencies
  }

  function Requests(w: Report): nat { w.requests }
  function Sequences(w: Report): nat { w.sequences }
  function Delayed(w: Report): nat { w.delayed }
  function Responses(w: Report): nat { w.responses }
  function Duration(w: Report): nat { w.duration }
  function Completed(w: Report): nat { w.completed }
  function RequestTime(w: Report): nat { w.avgRequest * w.completed }
  function SendTime(w: Report): nat { w.avgSend * w.completed }
  function ReceiveTime(w: Report): nat { w.avgReceive * w.completed }

  /** The client part of the merged report, before its latencies are sorted. The
      response count is added to what the report held before; every other field
      starts from 0. */
  function MergedReport(ws: seq<Report>, before: nat): Report
    requires ws != []
  {
    var n := Sum(ws, Completed);
    Report(ws[0].batch, Sum(ws, Requests), Sum(ws, Sequences), Sum(ws, Delayed), before + Sum(ws, Responses),
           Sum(ws, Duration), n, Average(Sum(ws, RequestTime), n), Average(Sum(ws, SendTime), n),
           Average(Sum(ws, ReceiveTime), n), Latencies(ws))
  }

  /** Merging a single window gives that window; one without completed requests
      has averages of 0. */
  lemma MergedAlone(w: Report)
    requires w.completed == 0 ==> w.avgRequest == w.avgSend == w.avgReceive == 0
    ensures MergedReport([w], 0) == w
  {
    SumAlone(w, Requests);
    SumAlone(w, Sequences);
    SumAlone(w, Delayed);
    SumAlone(w, Responses);
    SumAlone(w, Duration);
    SumAlone(w, Completed);
    SumAlone(w, RequestTime);
    SumAlone(w, SendTime);
    SumAlone(w, ReceiveTime);
    assert [w][..0] == [] && Latencies([w]) == [] + w.latencies;
    if w.completed > 0 {
      DivModUnique(w.avgRequest * w.completed, w.completed, w.avgRequest, 0);
      DivModUnique(w.avgSend * w.completed, w.completed, w.avgSend, 0);
      DivModUnique(w.avgReceive * w.completed, w.completed, w.avgReceive, 0);
    }
  }

  lemma SumAlone(w: Report, f: Report -> nat)
    ensures Sum([w], f) == f(w)
  {
    assert [w][..0] == [];
  }

  /** One more window adds its counts, its time and its latencies. */
  lemma MergedAdds(ws: seq<Report>, w: Report, before: nat)
    requires ws != []
    ensures var m, n := MergedReport(ws + [w], before), MergedReport(ws, before);
            && m.batch == ws[0].batch && m.requests == n.requests + w.requests && m.sequences == n.sequences + w.sequences
            && m.delayed == n.delayed + w.delayed && m.responses == n.responses + w.responses
            && m.duration == n.duration + w.duration && m.completed == n.completed + w.completed
            && m.latencies == n.latencies + w.latencies
  {
    assert (ws + [w])[..|ws|] == ws;
  }

  /** What a window says of the client statistics. */
  lemma SummarizeMeans(start: InferStat, end: InferStat, batch: nat, requests: nat, sequences: nat, delayed: nat,
                       responses: nat, duration: nat, latencies: seq<int>)
    requires Grows(start, end) && start.completed < end.completed
    ensures var w, n := Summarize(start, end, batch, requests, sequences, delayed, responses, duration, latencies),
                        end.completed - start.completed;
            && w.completed == n && w.duration == duration && w.latencies == latencies && w.batch >= 1
            && w.requests == requests && w.sequences == sequences && w.delayed == delayed && w.responses == responses
            && w.avgRequest * n <= end.requestTime - start.requestTime < (w.avgRequest + 1) * n
            && w.avgSend * n <= end.sendTime - start.sendTime < (w.avgSend + 1) * n
            && w.avgReceive * n <= end.receiveTime - start.receiveTime < (w.avgReceive + 1) * n
  {
    var n := end.completed - start.completed;
    Floored(end.requestTime - start.requestTime, n);
    Floored(end.sendTime - start.sendTime, n);
    Floored(end.receiveTime - start.receiveTime, n);
  }

  lemma Floored(t: nat, n: nat)
    requires n > 0
    ensures Average(t, n) * n <= t < (Average(t, n) + 1) * n
  {
  }

  /** Infer, sequence or response rate: a count over a time. */
  function Rate(count: nat, duration: nat): real
    requires duration > 0
  {
    count as real / (duration as real / NANOS_PER_SECOND as real)
  }

  /** The loops of MergePerfStatusReports over the client statistics. It fails
      exactly when the windows were made with different batch sizes. */
  method MergeClientStats(ws: seq<Report>, before: nat) returns (ok: bool, m: Report)
    requires ws != []
    ensures ok <==> forall i :: 0 <= i < |ws| ==> ws[i].batch == ws[0].batch
    ensures ok ==> m == MergedReport(ws, before)
  {
    m := ws[0];
    ok := SameBatch(ws);
    if ok {
      m := MergeCounts(ws, before);
      var n, request, send, receive := MergeTimes(ws);
      request, send, receive := TakeAverages(n, request, send, receive);
      m := m.(completed := n, avgRequest := request, avgSend := send, avgReceive := receive);
    }
  }

  method TakeAverages(n: nat, request: nat, send: nat, receive: nat) returns (avgRequest: nat, avgSend: nat, avgReceive: nat)
    requires n == 0 ==> request == send == receive == 0
    ensures avgRequest == Average(request, n) && avgSend == Average(send, n) && avgReceive == Average(receive, n)
  {
    avgRequest, avgSend, avgReceive := request, send, receive;
    if n != 0 {
      avgRequest, avgSend, avgReceive := request / n, send / n, receive / n;
    }
  }

  method SameBatch(ws: seq<Report>) returns (ok: bool)
    requires ws != []
    ensures ok <==> forall i :: 0 <= i < |ws| ==> ws[i].batch == ws[0].batch
  {
    for i := 1 to |ws|
      invariant forall j :: 0 <= j < i ==> ws[j].batch == ws[0].batch
    {
      if ws[i].batch != ws[0].batch {
        return false;
      }
    }
    ok := true;
  }

  method MergeCounts(ws: seq<Report>, before: nat) returns (m: Report)
    requires ws != []
    ensures m == Report(ws[0].batch, Sum(ws, Requests), Sum(ws, Sequences), Sum(ws, Delayed),
                        before + Sum(ws, Responses), Sum(ws, Duration), 0, 0, 0, 0, Latencies(ws))
  {
    var requests, sequences, delayed, responses, duration, latencies := 0, 0, 0, before, 0, [];
    for i := 0 to |ws|
      invariant requests == Sum(ws[..i], Requests) && sequences == Sum(ws[..i], Sequences)
      invariant delayed == Sum(ws[..i], Delayed) && responses == before + Sum(ws[..i], Responses)
      invariant duration == Sum(ws[..i], Duration) && latencies == Latencies(ws[..i])
    {
      var w := ws[i];
      assert ws[..i + 1][..i] == ws[..i];
      requests, sequences, delayed := requests + w.requests, sequences + w.sequences, delayed + w.delayed;
      responses, duration, latencies := responses + w.responses, duration + w.duration, latencies + w.latencies;
    }
    assert ws[..|ws|] == ws;
    m := Report(ws[0].batch, requests, sequences, delayed, responses, duration, 0, 0, 0, 0, latencies);
  }

  /** Without completed requests all the weighted times are 0. */
  lemma {:induction false} NoTimeWithoutRequests(ws: seq<Report>)
    requires Sum(ws, Completed) == 0
    ensures Sum(ws, RequestTime) == Sum(ws, SendTime) == Sum(ws, ReceiveTime) == 0
  {
    if ws != [] {
      NoTimeWithoutRequests(ws[..|ws| - 1]);
    }
  }

  method MergeTimes(ws: seq<Report>) returns (n: nat, request: nat, send: nat, receive: nat)
    ensures n == Sum(ws, Completed) && request == Sum(ws, RequestTime)
    ensures send == Sum(ws, SendTime) && receive == Sum(ws, ReceiveTime)
    ensures n == 0 ==> request == send == receive == 0
  {
    n, request, send, receive := 0, 0, 0, 0;
    for i := 0 to |ws|
      invariant n == Sum(ws[..i], Completed) && request == Sum(ws[..i], RequestTime)
      invariant send == Sum(ws[..i], SendTime) && receive == Sum(ws[..i], ReceiveTime)
    {
      var w := ws[i];
      assert ws[..i + 1][..i] == ws[..i];
      n := n + w.completed;
      request := request + w.avgRequest * w.completed;
      send := send + w.avgSend * w.completed;
      receive := receive + w.avgReceive * w.completed;
    }
    assert ws[..|ws|] == ws;
    if n == 0 {
      NoTimeWithoutRequests(ws);
    }
  }

  // ------------------------------------------------- averages

  /** The time and count of a window, before the average was taken. */
  datatype Part = Part(time: nat, count: nat)

  function TotalTime(ps: seq<Part>): nat {
    if ps == [] then 0 else TotalTime(ps[..|ps| - 1]) + ps[|ps| - 1].time
  }

  function TotalCount(ps: seq<Part>): nat {
    if ps == [] then 0 else TotalCount(ps[..|ps| - 1]) + ps[|ps| - 1].count
  }

  /** What the merge adds up: floored averages times counts. */
  function FlooredTime(ps: seq<Part>): nat {
    if ps == [] then 0
    else
      var p := ps[|ps| - 1];
      FlooredTime(ps[..|ps| - 1]) + Average(p.time, p.count) * p.count
  }

  /** Windows without requests have no time either. */
  ghost predicate NoIdleTime(ps: seq<Part>) {
    forall i :: 0 <= i < |ps| && ps[i].count == 0 ==> ps[i].time == 0
  }

  lemma {:induction false} FlooredBounds(ps: seq<Part>)
    ensures FlooredTime(ps) <= TotalTime(ps)
    ensures NoIdleTime(ps) && TotalCount(ps) > 0 ==> TotalTime(ps) < FlooredTime(ps) + TotalCount(ps)
    ensures NoIdleTime(ps) && TotalCount(ps) == 0 ==> TotalTime(ps) == 0
  {
    if ps != [] {
      var p := ps[|ps| - 1];
      FlooredBounds(ps[..|ps| - 1]);
      if p.count != 0 {
        assert p.time / p.count * p.count == p.time - p.time % p.count;
      }
    }
  }

  lemma QuotientBounds(x: nat, n: nat)
    requires n > 0
    ensures x / n == 0 <==> x < n
    ensures x / n <= 1 <==> x < 2 * n
  {
    if x < n {
      DivModUnique(x, n, 0, x);
    } else if x < 2 * n {
      DivModUnique(x, n, 1, x - n);
    } else {
      DivModUnique(x, n, (x - 2 * n) / n + 2, (x - 2 * n) % n);
    }
  }

  lemma QuotientGap(a: nat, b: nat, n: nat)
    requires n > 0 && a <= b
    ensures b / n == a / n + (a % n + (b - a)) / n
  {
    var x := a % n + (b - a);
    assert b == (a / n + x / n) * n + x % n;
    DivModUnique(b, n, a / n + x / n, x % n);
  }

  /** How an average taken from `weighed` nanoseconds compares with the true one
      of p: the true one is higher by a quotient that can be computed from the
      windows, so it is met exactly, or missed by at most 1, exactly when a
      remainder is small enough. */
  predicate ComparesWith(average: nat, weighed: nat, p: Part) {
    && weighed <= p.time
    && if p.count == 0 then average == Average(p.time, p.count) == 0
       else
         var rest := weighed % p.count + (p.time - weighed);
         && Average(p.time, p.count) == average + rest / p.count
         && (Average(p.time, p.count) == average <==> rest < p.count)
         && (Average(p.time, p.count) <= average + 1 <==> rest < 2 * p.count)
  }

  lemma FlooredAverage(ps: seq<Part>)
    ensures var n := TotalCount(ps); ComparesWith(Average(FlooredTime(ps), n), FlooredTime(ps), Part(TotalTime(ps), n))
  {
    var n, s, t := TotalCount(ps), FlooredTime(ps), TotalTime(ps);
    FlooredBounds(ps);
    if n > 0 {
      QuotientGap(s, t, n);
      QuotientBounds(s % n + (t - s), n);
    }
  }

  /** The merged average is at most 1 below the true one when no window has time
      without requests. */
  lemma MergedAverageBounds(ps: seq<Part>)
    requires NoIdleTime(ps)
    ensures var n := TotalCount(ps); Average(TotalTime(ps), n) <= Average(FlooredTime(ps), n) + 1
  {
    FlooredBounds(ps);
    FlooredAverage(ps);
  }

  // ------------------------------------------------- telescoping

  /** The windows of a run: window i goes from stats[i] at time ends[i] to
      stats[i + 1] at time ends[i + 1]. */
  ghost predicate Consecutive(ws: seq<Report>, stats: seq<InferStat>, ends: seq<nat>) {
    && |stats| == |ends| == |ws| + 1
    && forall i :: 0 <= i < |ws| ==>
         && Grows(stats[i], stats[i + 1]) && ends[i] <= ends[i + 1]
         && ws[i] == Summarize(stats[i], stats[i + 1], ws[i].batch, ws[i].requests, ws[i].sequences, ws[i].delayed,
                               ws[i].responses, ends[i + 1] - ends[i], ws[i].latencies)
  }

  /** Completed requests and durations telescope to last minus first. */
  lemma {:induction false} ClientTelescopes(ws: seq<Report>, stats: seq<InferStat>, ends: seq<nat>)
    requires Consecutive(ws, stats, ends)
    ensures Grows(stats[0], stats[|ws|]) && ends[0] <= ends[|ws|]
    ensures Sum(ws, Completed) == stats[|ws|].completed - stats[0].completed
    ensures Sum(ws, Duration) == ends[|ws|] - ends[0]
  {
    if ws != [] {
      var k := |ws| - 1;
      ClientTelescopes(ws[..k], stats[..k + 1], ends[..k + 1]);
    }
  }

  datatype Kind = RequestKind | SendKind | ReceiveKind

  function TimeOf(kind: Kind, stat: InferStat): nat {
    match kind case RequestKind => stat.requestTime case SendKind => stat.sendTime case ReceiveKind => stat.receiveTime
  }

  function AverageOf(kind: Kind, w: Report): nat {
    match kind case RequestKind => w.avgRequest case SendKind => w.avgSend case ReceiveKind => w.avgReceive
  }

  function WeightOf(kind: Kind): Report -> nat {
    match kind case RequestKind => RequestTime case SendKind => SendTime case ReceiveKind => ReceiveTime
  }

  function PartOf(kind: Kind, start: InferStat, end: InferStat): Part
    requires Grows(start, end)
  {
    Part(TimeOf(kind, end) - TimeOf(kind, start), end.completed - start.completed)
  }

  function PartsOf(kind: Kind, stats: seq<InferStat>): (ps: seq<Part>)
    requires stats != [] && forall i :: 0 <= i < |stats| - 1 ==> Grows(stats[i], stats[i + 1])
    ensures |ps| == |stats| - 1
  {
    seq(|stats| - 1, i requires 0 <= i < |stats| - 1 => PartOf(kind, stats[i], stats[i + 1]))
  }

  predicate Weighs(w: Report, f: Report -> nat, p: Part) {
    f(w) == Average(p.time, p.count) * p.count && w.completed == p.count
  }

  lemma {:induction false} SumIsFloored(ws: seq<Report>, f: Report -> nat, ps: seq<Part>)
    requires |ws| == |ps|
    requires forall i :: 0 <= i < |ws| ==> Weighs(ws[i], f, ps[i])
    ensures Sum(ws, f) == FlooredTime(ps) && Sum(ws, Completed) == TotalCount(ps)
  {
    if ws != [] {
      SumIsFloored(ws[..|ws| - 1], f, ps[..|ws| - 1]);
    }
  }

  lemma {:induction false} TimeTelescopes(kind: Kind, stats: seq<InferStat>)
    requires stats != [] && forall i :: 0 <= i < |stats| - 1 ==> Grows(stats[i], stats[i + 1])
    ensures TimeOf(kind, stats[0]) <= TimeOf(kind, stats[|stats| - 1])
    ensures TotalTime(PartsOf(kind, stats)) == TimeOf(kind, stats[|stats| - 1]) - TimeOf(kind, stats[0])
  {
    if |stats| > 1 {
      var front := stats[..|stats| - 1];
      TimeTelescopes(kind, front);
      assert PartsOf(kind, stats)[..|stats| - 2] == PartsOf(kind, front);
    }
  }

  lemma WindowWeight(kind: Kind, ws: seq<Report>, stats: seq<InferStat>, ends: seq<nat>, i: nat)
    requires Consecutive(ws, stats, ends) && i < |ws|
    ensures Weighs(ws[i], WeightOf(kind), PartOf(kind, stats[i], stats[i + 1]))
  {
  }

  lemma AllWeigh(kind: Kind, ws: seq<Report>, stats: seq<InferStat>, ends: seq<nat>)
    requires Consecutive(ws, stats, ends)
    ensures forall i :: 0 <= i < |ws| ==> Weighs(ws[i], WeightOf(kind), PartsOf(kind, stats)[i])
  {
    forall i | 0 <= i < |ws|
      ensures Weighs(ws[i], WeightOf(kind), PartsOf(kind, stats)[i])
    {
      WindowWeight(kind, ws, stats, ends, i);
    }
  }

  lemma MergedAverage(kind: Kind, ws: seq<Report>, before: nat)
    requires ws != []
    ensures AverageOf(kind, MergedReport(ws, before)) == Average(Sum(ws, WeightOf(kind)), Sum(ws, Completed))
  {
  }

  lemma MergedIsFloored(kind: Kind, ws: seq<Report>, stats: seq<InferStat>, ends: seq<nat>, before: nat)
    requires ws != [] && Consecutive(ws, stats, ends)
    ensures var ps := PartsOf(kind, stats);
            AverageOf(kind, MergedReport(ws, before)) == Average(FlooredTime(ps), TotalCount(ps))
            && TotalCount(ps) == Sum(ws, Completed) && FlooredTime(ps) == Sum(ws, WeightOf(kind))
  {
    AllWeigh(kind, ws, stats, ends);
    SumIsFloored(ws, WeightOf(kind), PartsOf(kind, stats));
    MergedAverage(kind, ws, before);
  }

  lemma RunAverage(kind: Kind, stats: seq<InferStat>, merged: nat)
    requires stats != [] && forall i :: 0 <= i < |stats| - 1 ==> Grows(stats[i], stats[i + 1])
    requires Grows(stats[0], stats[|stats| - 1])
    requires var ps := PartsOf(kind, stats);
             && TotalCount(ps) == stats[|stats| - 1].completed - stats[0].completed
             && merged == Average(FlooredTime(ps), TotalCount(ps))
    ensures var ps, p := PartsOf(kind, stats), PartOf(kind, stats[0], stats[|stats| - 1]);
            && ComparesWith(merged, FlooredTime(ps), p)
            && (NoIdleTime(ps) ==> Average(p.time, p.count) <= merged + 1)
  {
    var ps := PartsOf(kind, stats);
    TimeTelescopes(kind, stats);
    assert PartOf(kind, stats[0], stats[|stats| - 1]) == Part(TotalTime(ps), TotalCount(ps));
    FlooredAverage(ps);
    if NoIdleTime(ps) {
      MergedAverageBounds(ps);
    }
  }

  /** The merged averages of consecutive windows against the true average from
      the first start to the last end: exactly how far below it they are, when
      they meet it, and when they miss it by at most 1, which they always do if
      the client library counts a request together with its times. */
  lemma MergedAverages(kind: Kind, ws: seq<Report>, stats: seq<InferStat>, ends: seq<nat>, before: nat)
    requires ws != [] && Consecutive(ws, stats, ends)
    ensures Grows(stats[0], stats[|ws|])
    ensures ComparesWith(AverageOf(kind, MergedReport(ws, before)), Sum(ws, WeightOf(kind)), PartOf(kind, stats[0], stats[|ws|]))
    ensures var p := PartOf(kind, stats[0], stats[|ws|]);
            NoIdleTime(PartsOf(kind, stats)) ==> Average(p.time, p.count) <= AverageOf(kind, MergedReport(ws, before)) + 1
  {
    ClientTelescopes(ws, stats, ends);
    MergedIsFloored(kind, ws, stats, ends, before);
    RunAverage(kind, stats, AverageOf(kind, MergedReport(ws, before)));
  }

  lemma SumPair(a: Report, b: Report, f: Report -> nat)
    ensures Sum([a, b], f) == f(a) + f(b)
  {
    SumAlone(a, f);
    assert [a, b][..1] == [a];
  }

  /** Two windows of two requests each, with 1 and 3 nanoseconds: the merged
      average is 0 and the true one is 1. */
  lemma MergedAverageOneLow() returns (ws: seq<Report>, stats: seq<InferStat>, ends: seq<nat>)
    ensures Consecutive(ws, stats, ends) && |ws| == 2 && NoIdleTime(PartsOf(RequestKind, stats))
    ensures MergedReport(ws, 0).avgRequest == 0
    ensures Average(stats[2].requestTime - stats[0].requestTime, stats[2].completed - stats[0].completed) == 1
  {
    stats := [InferStat(0, 0, 0, 0), InferStat(2, 1, 1, 1), InferStat(4, 4, 4, 4)];
    ends := [0, 10, 20];
    var a := Summarize(stats[0], stats[1], 1, 2, 0, 0, 2, 10, [0, 1]);
    var b := Summarize(stats[1], stats[2], 1, 2, 0, 0, 2, 10, [1, 2]);
    ws := [a, b];
    assert a.avgRequest == 0 && b.avgRequest == 1 && a.completed == b.completed == 2;
    SumPair(a, b, RequestTime);
    SumPair(a, b, Completed);
  }

  // ------------------------------------------------- throughput

  ghost predicate AllBetween(ws: seq<Report>, f: Report -> nat, lo: real, hi: real) {
    forall i :: 0 <= i < |ws| ==> ws[i].duration > 0 && lo <= Rate(f(ws[i]), ws[i].duration) <= hi
  }

  lemma RateBounds(count: nat, duration: nat, lo: real, hi: real)
    requires duration > 0
    ensures var d := duration as real / NANOS_PER_SECOND as real;
            lo <= Rate(count, duration) <= hi <==> lo * d <= count as real <= hi * d
  {
    var d := duration as real / NANOS_PER_SECOND as real;
    var r := Rate(count, duration);
    assert r * d == count as real;
    if lo <= r {
      assert (r - lo) * d >= 0.0;
    } else {
      assert (lo - r) * d > 0.0;
    }
    if r <= hi {
      assert (hi - r) * d >= 0.0;
    } else {
      assert (r - hi) * d > 0.0;
    }
  }

  lemma RateAdds(c: nat, d: nat, b: nat, e: nat, lo: real, hi: real)
    requires d > 0 && e > 0 && lo <= Rate(c, d) <= hi && lo <= Rate(b, e) <= hi
    ensures lo <= Rate(c + b, d + e) <= hi
  {
    var x, y, z := d as real / NANOS_PER_SECOND as real, e as real / NANOS_PER_SECOND as real,
                   (d + e) as real / NANOS_PER_SECOND as real;
    RateBounds(c, d, lo, hi);
    RateBounds(b, e, lo, hi);
    assert x + y == z;
    assert lo * z == lo * x + lo * y && hi * z == hi * x + hi * y;
    RateBounds(c + b, d + e, lo, hi);
  }

  /** A merged rate lies between the smallest and the largest rate of its
      windows. */
  lemma {:induction false} MergedRateBetween(ws: seq<Report>, f: Report -> nat, lo: real, hi: real)
    requires ws != [] && AllBetween(ws, f, lo, hi)
    ensures Sum(ws, Duration) > 0 && lo <= Rate(Sum(ws, f), Sum(ws, Duration)) <= hi
  {
    var k := |ws| - 1;
    var w := ws[k];
    if k > 0 {
      MergedRateBetween(ws[..k], f, lo, hi);
      RateAdds(Sum(ws[..k], f), Sum(ws[..k], Duration), f(w), w.duration, lo, hi);
    } else {
      assert ws[..0] == [];
    }
  }
}
