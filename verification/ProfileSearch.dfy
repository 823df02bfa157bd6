/** The searches over load levels: a linear sweep and a binary search for the
    highest level that meets the latency threshold. */
module ProfileSearch {

  /** What profiling one level answers. */
  datatype Probe = Failed | Answered(meets: bool, stable: bool)

  predicate Meets(p: Probe) {
    p.Answered? && p.meets
  }

  predicate Misses(p: Probe) {
    p.Answered? && !p.meets
  }

  // ------------------------------------------------- binary search

  /** How the search ended. `Low` and `High` are the two early returns. */
  datatype Ending = Error | Low | High | Bracket

  /** How many halvings bring the gap down to the step. */
  function Halvings(gap: nat, step: nat): nat
    requires step > 0
  {
    if gap <= step then 0 else 1 + Halvings((gap + 1) / 2, step)
  }

  lemma {:induction false} HalvingsMonotone(a: nat, b: nat, step: nat)
    requires step > 0 && a <= b
    ensures Halvings(a, step) <= Halvings(b, step)
    decreases b
  {
    if a > step {
      HalvingsMonotone((a + 1) / 2, (b + 1) / 2, step);
    }
  }

  function Power(k: nat): nat {
    if k == 0 then 1 else 2 * Power(k - 1)
  }

  /** The number of halvings is logarithmic: k of them are enough for a gap of
      2^k steps. */
  lemma {:induction false} HalvingsLogarithmic(gap: nat, step: nat, k: nat)
    requires step > 0 && gap <= step * Power(k)
    ensures Halvings(gap, step) <= k
  {
    if k > 0 && gap > step {
      assert step * Power(k) == 2 * (step * Power(k - 1));
      HalvingsLogarithmic((gap + 1) / 2, step, k - 1);
    }
  }

  ghost predicate NoRepeats(s: seq<nat>) {
    forall i, j :: 0 <= i < j < |s| ==> s[i] != s[j]
  }

  lemma NoRepeatsAppend(s: seq<nat>, x: nat)
    requires NoRepeats(s) && x !in s
    ensures NoRepeats(s + [x])
  {
  }

  lemma Halve(lo: nat, hi: nat, step: nat)
    requires step > 0 && hi > lo + step
    ensures var mid := (hi + lo) / 2;
            && lo < mid < hi
            && Halvings(hi - mid, step) < Halvings(hi - lo, step) && Halvings(mid - lo, step) < Halvings(hi - lo, step)
  {
    var mid := (hi + lo) / 2;
    HalvingsMonotone(hi - mid, (hi - lo + 1) / 2, step);
    HalvingsMonotone(mid - lo, (hi - lo + 1) / 2, step);
  }

  /** `measured` are the levels in the order in which they were measured, and
      answer(i) is what the i-th measurement said. Levels are measured anew every
      time, so answers belong to measurements and not to levels. `lo` met the
      threshold at some measurement, and `hi` missed it. */
  ghost predicate IsBracket(measured: seq<nat>, answer: nat -> Probe, lo: nat, hi: nat) {
    && (exists a :: 0 <= a < |measured| && measured[a] == lo && Meets(answer(a)))
    && exists b :: 0 <= b < |measured| && measured[b] == hi && Misses(answer(b))
  }

  lemma BracketAppend(measured: seq<nat>, x: nat, answer: nat -> Probe, lo: nat, hi: nat)
    requires IsBracket(measured, answer, lo, hi) && answer(|measured|).Answered?
    ensures if answer(|measured|).meets then IsBracket(measured + [x], answer, x, hi)
            else IsBracket(measured + [x], answer, lo, x)
  {
    var all := measured + [x];
    var a :| 0 <= a < |measured| && measured[a] == lo && Meets(answer(a));
    var b :| 0 <= b < |measured| && measured[b] == hi && Misses(answer(b));
    assert all[a] == lo && all[b] == hi && all[|measured|] == x;
  }

  /** The answers of all measurements but the last are in; only the last may have
      failed. */
  ghost predicate Failing(measured: seq<nat>, answer: nat -> Probe) {
    && measured != [] && answer(|measured| - 1).Failed?
    && forall i :: 0 <= i < |measured| - 1 ==> answer(i).Answered?
  }

  ghost predicate AllAnswered(measured: seq<nat>, answer: nat -> Probe) {
    forall i :: 0 <= i < |measured| ==> answer(i).Answered?
  }

  ghost predicate Within(measured: seq<nat>, start: nat, end: nat) {
    forall i :: 0 <= i < |measured| ==> start <= measured[i] <= end
  }

  /** With a step of at least 1 the search ends. Unless a measurement fails or an
      end of the range decides already, it ends with a level that met the
      threshold and one that did not, at most a step apart. No level of a proper
      range is measured twice, and at most logarithmically many are. A range of a
      single level is measured twice, and the answers may differ. */
  method BinarySearch(start: nat, end: nat, step: nat, answer: nat -> Probe)
    returns (ending: Ending, lo: nat, hi: nat, measured: seq<nat>)
    requires start <= end && step > 0
    ensures ending.Error? <==> Failing(measured, answer)
    ensures !ending.Error? ==> AllAnswered(measured, answer)
    ensures ending.Low? <==> Misses(answer(0))
    ensures ending.Low? ==> measured == [start]
    ensures ending.High? <==> Meets(answer(0)) && Meets(answer(1))
    ensures ending.High? ==> measured == [start, end]
    ensures ending.Bracket? ==>
              start <= lo <= hi <= end && hi - lo <= step && IsBracket(measured, answer, lo, hi)
    ensures ending.Bracket? && start < end ==> lo < hi
    ensures start < end ==> NoRepeats(measured)
    ensures |measured| <= 2 + Halvings(end - start, step) && Within(measured, start, end)
  {
    lo, hi, measured := start, end, [start];
    if answer(0).Failed? {
      return Error, lo, hi, measured;
    }
    if !answer(0).meets {
      return Low, lo, hi, measured;
    }
    measured := [start, end];
    if answer(1).Failed? {
      return Error, lo, hi, measured;
    }
    if answer(1).meets {
      return High, lo, hi, measured;
    }
    assert measured[0] == start && measured[1] == end;
    ending, lo, hi, measured := Narrow(start, end, step, answer);
  }

  /** The loop, from a bracket. */
  method Narrow(start: nat, end: nat, step: nat, answer: nat -> Probe)
    returns (ending: Ending, lo: nat, hi: nat, measured: seq<nat>)
    requires start <= end && step > 0 && Meets(answer(0)) && Misses(answer(1))
    ensures ending.Error? || ending.Bracket?
    ensures ending.Error? <==> Failing(measured, answer)
    ensures ending.Bracket? ==> AllAnswered(measured, answer) && IsBracket(measured, answer, lo, hi)
    ensures ending.Bracket? ==> start <= lo <= hi <= end && hi - lo <= step && (start < end ==> lo < hi)
    ensures start < end ==> NoRepeats(measured)
    ensures |measured| <= 2 + Halvings(end - start, step) && Within(measured, start, end)
  {
    lo, hi, measured := start, end, [start, end];
    assert measured[0] == start && measured[1] == end;
    while hi - lo > step
      invariant Narrowing(start, end, measured, answer, lo, hi)
      invariant |measured| + Halvings(hi - lo, step) <= 2 + Halvings(end - start, step)
      decreases hi - lo
    {
      var current := (hi + lo) / 2;
      var call := |measured|;
      Halve(lo, hi, step);
      NarrowTurn(start, end, measured, answer, lo, hi, current);
      measured := measured + [current];
      if answer(call).Failed? {
        return Error, lo, hi, measured;
      }
      if answer(call).meets {
        lo := current;
      } else {
        hi := current;
      }
    }
    ending := Bracket;
  }

  /** What the loop keeps: all levels measured lie outside the open bracket. */
  ghost predicate Narrowing(start: nat, end: nat, measured: seq<nat>, answer: nat -> Probe, lo: nat, hi: nat) {
    && start <= lo <= hi <= end && (start < end ==> lo < hi && NoRepeats(measured))
    && IsBracket(measured, answer, lo, hi) && AllAnswered(measured, answer) && Within(measured, start, end)
    && forall i :: 0 <= i < |measured| ==> measured[i] <= lo || hi <= measured[i]
  }

  lemma NarrowTurn(start: nat, end: nat, measured: seq<nat>, answer: nat -> Probe, lo: nat, hi: nat, x: nat)
    requires Narrowing(start, end, measured, answer, lo, hi) && lo < x < hi
    ensures var all := measured + [x];
            && NoRepeats(all) && Within(all, start, end)
            && match answer(|measured|)
               case Failed => Failing(all, answer)
               case Answered(meets, _) =>
                 if meets then Narrowing(start, end, all, answer, x, hi) else Narrowing(start, end, all, answer, lo, x)
  {
    NoRepeatsAppend(measured, x);
    if answer(|measured|).Answered? {
      BracketAppend(measured, x, answer, lo, hi);
    }
  }

  /** If every measurement tells the truth about its level, and passing is
      monotone in the load, then the highest passing level lies in the bracket. */
  lemma LimitInBracket(passes: nat -> bool, start: nat, end: nat, measured: seq<nat>, answer: nat -> Probe,
                       lo: nat, hi: nat, limit: nat)
    requires forall u: nat, v: nat :: start <= u <= v <= end && passes(v) ==> passes(u)
    requires forall i :: 0 <= i < |measured| && answer(i).Answered? ==> (answer(i).meets <==> passes(measured[i]))
    requires Within(measured, start, end) && IsBracket(measured, answer, lo, hi)
    requires start <= limit <= end && passes(limit) && forall v: nat :: limit < v <= end ==> !passes(v)
    ensures lo <= limit < hi
  {
    var a :| 0 <= a < |measured| && measured[a] == lo && Meets(answer(a));
    var b :| 0 <= b < |measured| && measured[b] == hi && Misses(answer(b));
    assert passes(measured[a]) && !passes(measured[b]);
  }

  // ------------------------------------------------- step 0

  /** The loop with step 0: open with a bracket, closed on a single level, which
      is a normal end, or left with an error. */
  datatype Search = Open(lo: nat, hi: nat) | Closed(at: nat) | Left

  function Mid(s: Search): nat
    requires s.Open?
  {
    (s.hi + s.lo) / 2
  }

  /** The loop test. */
  function Test(lo: nat, hi: nat): Search {
    if lo < hi then Open(lo, hi) else Closed(lo)
  }

  /** One turn of the loop, given the answer of its measurement. */
  function Turn(s: Search, p: Probe): Search {
    if !s.Open? then s
    else if p.Failed? then Left
    else if p.meets then Test(Mid(s), s.hi)
    else Test(s.lo, Mid(s))
  }

  /** The loop after n turns; answer(i) is that of turn i. */
  function Turns(lo: nat, hi: nat, answer: nat -> Probe, n: nat): Search {
    if n == 0 then Test(lo, hi) else Turn(Turns(lo, hi, answer, n - 1), answer(n - 1))
  }

  /** The bracket holds two neighbours. */
  predicate Neighbours(s: Search) {
    s.Open? && s.hi == s.lo + 1
  }

  /** A wider bracket gets narrower with every answer and cannot close. */
  lemma WideTurn(s: Search, p: Probe)
    requires s.Open? && s.lo + 1 < s.hi && p.Answered?
    ensures Turn(s, p).Open? && s.lo <= Turn(s, p).lo < Turn(s, p).hi <= s.hi
    ensures Halvings(Turn(s, p).hi - Turn(s, p).lo, 1) < Halvings(s.hi - s.lo, 1)
  {
    Halve(s.lo, s.hi, 1);
  }

  /** Between neighbours the lower one is measured: if it meets again nothing
      changes, and if it misses the loop ends. */
  lemma NeighbourTurn(s: Search, p: Probe)
    requires Neighbours(s)
    ensures Meets(p) ==> Turn(s, p) == s
    ensures Misses(p) ==> Turn(s, p) == Closed(s.lo)
    ensures p.Failed? ==> Turn(s, p) == Left
  {
    assert Mid(s) == s.lo;
  }

  /** Unless a measurement fails, the bracket comes down to two neighbours after
      at most Halvings(hi - lo, 1) turns. */
  lemma {:induction false} ReachNeighbours(lo: nat, hi: nat, answer: nat -> Probe, n: nat) returns (h: nat)
    requires lo < hi && forall i: nat :: answer(i).Answered?
    requires var s := Turns(lo, hi, answer, n);
             s.Open? && s.lo < s.hi && n + Halvings(s.hi - s.lo, 1) <= Halvings(hi - lo, 1)
    ensures h <= Halvings(hi - lo, 1) && Neighbours(Turns(lo, hi, answer, h))
    decreases Halvings(hi - lo, 1) - n
  {
    var s := Turns(lo, hi, answer, n);
    if Neighbours(s) {
      h := n;
    } else {
      WideTurn(s, answer(n));
      assert Turns(lo, hi, answer, n + 1) == Turn(s, answer(n));
      h := ReachNeighbours(lo, hi, answer, n + 1);
    }
  }

  /** The first turn after which the loop is no longer open keeps it so. */
  lemma {:induction false} OnceOpen(lo: nat, hi: nat, answer: nat -> Probe, m: nat, n: nat)
    requires m <= n && Turns(lo, hi, answer, n).Open?
    ensures Turns(lo, hi, answer, m).Open?
  {
    if m < n {
      OnceOpen(lo, hi, answer, m, n - 1);
    }
  }

  lemma {:induction false} StayNeighbours(lo: nat, hi: nat, answer: nat -> Probe, h: nat, n: nat)
    requires h <= n && Neighbours(Turns(lo, hi, answer, h))
    requires forall i: nat :: h <= i < n ==> Meets(answer(i))
    ensures Turns(lo, hi, answer, n) == Turns(lo, hi, answer, h)
  {
    if h < n {
      StayNeighbours(lo, hi, answer, h, n - 1);
      NeighbourTurn(Turns(lo, hi, answer, n - 1), answer(n - 1));
    }
  }

  ghost predicate Forever(lo: nat, hi: nat, answer: nat -> Probe) {
    forall n: nat :: Turns(lo, hi, answer, n).Open?
  }

  ghost predicate MeetsFrom(answer: nat -> Probe, h: nat) {
    forall i: nat :: h <= i ==> Meets(answer(i))
  }

  /** From a bracket of neighbours the loop stays open for ever if and only if
      every further measurement meets. */
  lemma NeighboursOpenIff(lo: nat, hi: nat, answer: nat -> Probe, h: nat)
    requires Neighbours(Turns(lo, hi, answer, h))
    ensures Forever(lo, hi, answer) <==> MeetsFrom(answer, h)
  {
    if MeetsFrom(answer, h) {
      forall n: nat
        ensures Turns(lo, hi, answer, n).Open?
      {
        if h <= n {
          StayNeighbours(lo, hi, answer, h, n);
        } else {
          OnceOpen(lo, hi, answer, n, h);
        }
      }
    } else {
      var i: nat :| h <= i && !Meets(answer(i));
      FirstStop(lo, hi, answer, h, i);
    }
  }

  /** Some measurement from h to i ends the loop. */
  lemma {:induction false} FirstStop(lo: nat, hi: nat, answer: nat -> Probe, h: nat, i: nat)
    requires h <= i && Neighbours(Turns(lo, hi, answer, h)) && !Meets(answer(i))
    ensures !Turns(lo, hi, answer, i + 1).Open?
    decreases i
  {
    if j: nat :| h <= j < i && !Meets(answer(j)) {
      FirstStop(lo, hi, answer, h, j);
      if Turns(lo, hi, answer, i + 1).Open? {
        OnceOpen(lo, hi, answer, j + 1, i + 1);
      }
    } else {
      StayNeighbours(lo, hi, answer, h, i);
      NeighbourTurn(Turns(lo, hi, answer, i), answer(i));
    }
  }

  /** With a step of 0 the loop goes on for ever if and only if no measurement
      fails and every measurement meets once the bracket holds two neighbours,
      which it does after at most Halvings(hi - lo, 1) turns. */
  lemma ZeroStepForeverIff(lo: nat, hi: nat, answer: nat -> Probe)
    requires lo < hi
    ensures Forever(lo, hi, answer) <==>
              && (forall i: nat :: answer(i).Answered?)
              && exists h: nat :: h <= Halvings(hi - lo, 1) && Neighbours(Turns(lo, hi, answer, h)) && MeetsFrom(answer, h)
  {
    if Forever(lo, hi, answer) {
      forall i: nat
        ensures answer(i).Answered?
      {
        assert Turns(lo, hi, answer, i).Open? && Turns(lo, hi, answer, i + 1).Open?;
      }
      var h := ReachNeighbours(lo, hi, answer, 0);
      NeighboursOpenIff(lo, hi, answer, h);
    } else if h: nat :| h <= Halvings(hi - lo, 1) && Neighbours(Turns(lo, hi, answer, h)) && MeetsFrom(answer, h) {
      NeighboursOpenIff(lo, hi, answer, h);
    }
  }

  /** One miss at the lower neighbour ends the loop. */
  lemma MissCloses(answer: nat -> Probe)
    requires Misses(answer(0))
    ensures Turns(3, 4, answer, 1) == Closed(3)
  {
    NeighbourTurn(Open(3, 4), answer(0));
    assert Turns(3, 4, answer, 0) == Open(3, 4);
  }

  /** Turn i measures its level with this probe. */
  ghost predicate Follows(lo: nat, hi: nat, probe: nat -> Probe, answer: nat -> Probe, i: nat) {
    var s := Turns(lo, hi, answer, i);
    s.Open? ==> answer(i) == probe(Mid(s))
  }

  /** The bracket stays inside the range, with a lower end that meets. */
  predicate Steady(lo: nat, hi: nat, probe: nat -> Probe, s: Search) {
    s.Open? && lo <= s.lo < s.hi <= hi && Meets(probe(s.lo))
  }

  lemma SteadyTurn(lo: nat, hi: nat, probe: nat -> Probe, s: Search)
    requires Steady(lo, hi, probe, s) && forall v: nat :: lo < v < hi ==> probe(v).Answered?
    ensures Steady(lo, hi, probe, Turn(s, probe(Mid(s))))
  {
    if s.lo + 1 < s.hi {
      Halve(s.lo, s.hi, 1);
    } else {
      NeighbourTurn(s, probe(Mid(s)));
    }
  }

  /** If measurements only depend on their level, the lower end met when it was
      measured and no level inside the range fails, then the loop never ends. */
  lemma {:induction false} ZeroStepNeverEnds(lo: nat, hi: nat, probe: nat -> Probe, answer: nat -> Probe, n: nat)
    requires lo < hi && Meets(probe(lo)) && forall v: nat :: lo < v < hi ==> probe(v).Answered?
    requires forall i: nat :: Follows(lo, hi, probe, answer, i)
    ensures Steady(lo, hi, probe, Turns(lo, hi, answer, n))
  {
    if n > 0 {
      ZeroStepNeverEnds(lo, hi, probe, answer, n - 1);
      assert Follows(lo, hi, probe, answer, n - 1);
      SteadyTurn(lo, hi, probe, Turns(lo, hi, answer, n - 1));
    }
  }

  // ------------------------------------------------- request rates

  /** The same search over request rates, which are fractions. It ends for every
      positive step. */
  method BinarySearchRates(start: real, end: real, step: real, answer: nat -> Probe)
    returns (ending: Ending, lo: real, hi: real, calls: nat)
    requires start <= end && step > 0.0
    ensures ending.Error? <==> calls > 0 && answer(calls - 1).Failed?
    ensures forall i: nat :: i < calls - 1 ==> answer(i).Answered?
    ensures ending.Low? <==> Misses(answer(0))
    ensures ending.High? <==> Meets(answer(0)) && Meets(answer(1))
    ensures ending.Bracket? ==> start <= lo <= hi <= end && hi - lo <= step && (start < end ==> lo < hi)
    ensures ending.Bracket? ==> lo == LowEnd(start, end, answer, calls) && hi == HighEnd(start, end, answer, calls)
  {
    lo, hi, calls := start, end, 1;
    if answer(0).Failed? {
      return Error, lo, hi, calls;
    }
    if !answer(0).meets {
      return Low, lo, hi, calls;
    }
    calls := 2;
    if answer(1).Failed? {
      return Error, lo, hi, calls;
    }
    if answer(1).meets {
      return High, lo, hi, calls;
    }
    while hi - lo > step
      invariant calls >= 2 && forall i: nat :: i < calls ==> answer(i).Answered?
      invariant start <= lo <= hi <= end && (start < end ==> lo < hi)
      invariant lo == LowEnd(start, end, answer, calls) && hi == HighEnd(start, end, answer, calls)
      decreases ((hi - lo) / step).Floor
    {
      var current := (hi + lo) / 2.0;
      HalfAsMany(hi - lo, step);
      assert hi - current == (hi - lo) / 2.0 && current - lo == (hi - lo) / 2.0;
      calls := calls + 1;
      if answer(calls - 1).Failed? {
        return Error, lo, hi, calls;
      }
      if answer(calls - 1).meets {
        lo := current;
      } else {
        hi := current;
      }
    }
    ending := Bracket;
  }

  /** The bracket after n measurements: its lower end is the last rate that met,
      its upper end the last that missed. */
  function LowEnd(start: real, end: real, answer: nat -> Probe, n: nat): real
    decreases n, 0
  {
    if n <= 2 then start
    else if Meets(answer(n - 1)) then Middle(start, end, answer, n - 1)
    else LowEnd(start, end, answer, n - 1)
  }

  function HighEnd(start: real, end: real, answer: nat -> Probe, n: nat): real
    decreases n, 0
  {
    if n <= 2 then end
    else if Meets(answer(n - 1)) then HighEnd(start, end, answer, n - 1)
    else Middle(start, end, answer, n - 1)
  }

  function Middle(start: real, end: real, answer: nat -> Probe, n: nat): real
    decreases n, 1
  {
    (HighEnd(start, end, answer, n) + LowEnd(start, end, answer, n)) / 2.0
  }

  lemma HalfAsMany(gap: real, step: real)
    requires 0.0 < step < gap
    ensures 0 <= (gap / 2.0 / step).Floor < (gap / step).Floor
  {
    var x := gap / step;
    assert x * step == gap;
    assert x > 1.0;
    assert gap / 2.0 / step == x / 2.0 by {
      assert x / 2.0 * step == gap / 2.0;
    }
  }

  // ------------------------------------------------- linear search

  /** Whether the sweep goes on after measuring `level`. */
  predicate GoesOn(level: nat, end: nat, step: nat, p: Probe) {
    Meets(p) && (level + step <= end || end == 0)
  }

  /** The i-th level of the sweep. */
  function Level(start: nat, step: nat, i: nat): nat {
    start + i * step
  }

  lemma LevelsGrow(start: nat, step: nat, i: nat)
    ensures Level(start, step, 0) == start && Level(start, step, i + 1) == Level(start, step, i) + step
    ensures Level(start, step, i) >= start && (Level(start, step, i) == start ==> i == 0 || step == 0)
  {
    if i > 0 && step > 0 {
      assert i * step >= step;
    }
  }

  ghost predicate Sweep(start: nat, end: nat, step: nat, answer: nat -> Probe, measured: seq<nat>) {
    && (forall i :: 0 <= i < |measured| ==> measured[i] == Level(start, step, i))
    && forall i :: 0 <= i < |measured| - 1 ==> GoesOn(measured[i], end, step, answer(i))
  }

  lemma SweepMeans(start: nat, end: nat, step: nat, answer: nat -> Probe, measured: seq<nat>)
    requires measured != [] && Sweep(start, end, step, answer, measured)
    ensures measured[0] == start && forall i :: 0 <= i < |measured| - 1 ==> measured[i + 1] == measured[i] + step
    ensures end != 0 ==> forall i :: 1 <= i < |measured| ==> measured[i] <= end
    ensures forall i :: 0 <= i < |measured| - 1 ==> Meets(answer(i))
  {
    LevelsGrow(start, step, 0);
    forall i | 0 <= i < |measured| - 1
      ensures measured[i + 1] == measured[i] + step
    {
      LevelsGrow(start, step, i);
    }
    forall i | 1 <= i < |measured| && end != 0
      ensures measured[i] <= end
    {
      assert GoesOn(measured[i - 1], end, step, answer(i - 1));
      assert measured[i - 1 + 1] == measured[i - 1] + step;
    }
  }

  /** The sweep measures start, start + step, ... and stops behind the first level
      that fails, misses the threshold or is the last one not above the end. With
      an end of 0, which means no limit, or a step of 0 it ends only if some
      measurement, here number `last`, stops it. An unstable last measurement is
      an error if it was of the first level. */
  method LinearSearch(start: nat, end: nat, step: nat, answer: nat -> Probe, ghost last: nat)
    returns (ok: bool, measured: seq<nat>)
    requires end == 0 || step == 0 ==> !Meets(answer(last))
    ensures measured != [] && Sweep(start, end, step, answer, measured)
    ensures measured[0] == start && forall i :: 0 <= i < |measured| - 1 ==> measured[i + 1] == measured[i] + step
    ensures !GoesOn(measured[|measured| - 1], end, step, answer(|measured| - 1))
    ensures end != 0 ==> forall i :: 1 <= i < |measured| ==> measured[i] <= end
    ensures forall i :: 0 <= i < |measured| - 1 ==> Meets(answer(i))
    ensures ok <==> var p := answer(|measured| - 1); p.Answered? && (|measured| == 1 || step == 0 ==> p.stable)
  {
    var current := start;
    measured := [];
    LevelsGrow(start, step, 0);
    while true
      invariant current == Level(start, step, |measured|)
      invariant forall i :: 0 <= i < |measured| ==> measured[i] == Level(start, step, i)
      invariant forall i :: 0 <= i < |measured| ==> GoesOn(measured[i], end, step, answer(i))
      invariant end == 0 || step == 0 ==> |measured| <= last
      invariant end != 0 && measured != [] ==> current <= end
      decreases if end == 0 || step == 0 then last - |measured| else if measured == [] then end + 1 else end - current
    {
      var p := answer(|measured|);
      LevelsGrow(start, step, |measured|);
      measured := measured + [current];
      SweepMeans(start, end, step, answer, measured);
      if p.Failed? {
        return false, measured;
      }
      current := current + step;
      if !((current <= end || end == 0) && p.meets) {
        ok := !(current == start + step && !p.stable);
        return;
      }
    }
  }
}
