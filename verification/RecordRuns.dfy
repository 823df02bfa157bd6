/** Records over a whole profile: callbacks push them to their thread's buffer at
    any moment, the profiler collects the buffers one thread at a time, and each
    window takes its records out of the collected ones. */
module RecordRuns {
  import opened RequestRecords
  import opened Filters
  import opened RecordWindows

  // ------------------------------------------------- collecting

  class ThreadStat {
    var requestRecords: seq<RequestRecord>
  }

  function Concat(parts: seq<seq<RequestRecord>>): seq<RequestRecord> {
    if parts == [] then [] else Concat(parts[..|parts| - 1]) + parts[|parts| - 1]
  }

  ghost function Buffers(threads: seq<ThreadStat>): seq<seq<RequestRecord>>
    reads threads
  {
    seq(|threads|, i requires 0 <= i < |threads| reads threads => threads[i].requestRecords)
  }

  /** Gathers the records of all threads, in thread order, and clears them. */
  method SwapRequestRecords(threads: seq<ThreadStat>) returns (records: seq<RequestRecord>)
    requires forall i, j :: 0 <= i < j < |threads| ==> threads[i] != threads[j]
    modifies threads
    ensures records == Concat(old(Buffers(threads)))
    ensures forall i :: 0 <= i < |threads| ==> threads[i].requestRecords == []
  {
    records := [];
    ghost var before := Buffers(threads);
    for i := 0 to |threads|
      invariant records == Concat(before[..i])
      invariant forall k :: 0 <= k < i ==> threads[k].requestRecords == []
      invariant forall k :: i <= k < |threads| ==> threads[k].requestRecords == before[k]
    {
      assert before[..i + 1][..i] == before[..i];
      records := records + threads[i].requestRecords;
      threads[i].requestRecords := [];
    }
    assert before[..|threads|] == before;
  }

  /** CountCollectedRequests. */
  method CountCollectedRequests(threads: seq<ThreadStat>) returns (n: nat)
    ensures n == |Concat(Buffers(threads))|
  {
    n := 0;
    ghost var buffers := Buffers(threads);
    for i := 0 to |threads|
      invariant n == |Concat(buffers[..i])|
    {
      assert buffers[..i + 1][..i] == buffers[..i];
      n := n + |threads[i].requestRecords|;
    }
    assert buffers[..|threads|] == buffers;
  }

  // ------------------------------------------------- runs

  /** A measurement window and the records it took. */
  datatype Window = Window(lo: int, hi: int, valid: seq<RequestRecord>)

  /** Between two measurements, or in one: its end `hi` has been read, and the
      buffers before number `next` have been taken. */
  datatype Phase = Running | Swapping(hi: int, next: nat)

  /** `pending` is the vector a swap is filling, `collected` is
      all_request_records_, `edge` the end of the last window, and `pushed` the
      history of all records handed in since the initial flush. */
  datatype Profile = Profile(
    buffers: seq<seq<RequestRecord>>,
    pending: seq<RequestRecord>,
    collected: seq<RequestRecord>,
    clock: int,
    edge: int,
    phase: Phase,
    windows: seq<Window>,
    pushed: seq<RequestRecord>)

  datatype Event =
    | Tick(now: int)
    | Push(thread: nat, record: RequestRecord)
    | CloseWindow
    | TakeBuffer
    | Measure

  /** After the initial flush of every thread; `buffers` is what callbacks have
      pushed behind the flush, `start` the start of the first window. */
  function Flushed(buffers: seq<seq<RequestRecord>>, start: int): Profile {
    Profile(buffers, [], [], start, start, Running, [], Concat(buffers))
  }

  /** The clock does not run backwards. A callback reads it for the last response
      and pushes the record in one critical section of the thread's lock, the
      lock under which the buffer is taken; the end of a window is read before
      the first buffer is taken. */
  predicate Possible(s: Profile, e: Event) {
    match e
    case Tick(now) => s.clock <= now
    case Push(t, r) => t < |s.buffers| && r.responses != [] && r.responses[|r.responses| - 1] == s.clock
    case CloseWindow => s.phase.Running?
    case TakeBuffer => s.phase.Swapping? && s.phase.next < |s.buffers|
    case Measure => s.phase.Swapping? && s.phase.next == |s.buffers|
  }

  function Step(s: Profile, e: Event): Profile
    requires Possible(s, e)
  {
    match e
    case Tick(now) => s.(clock := now)
    case Push(t, r) => s.(buffers := s.buffers[t := s.buffers[t] + [r]], pushed := s.pushed + [r])
    case CloseWindow => s.(phase := Swapping(s.clock, 0))
    case TakeBuffer =>
      var t := s.phase.next;
      s.(buffers := s.buffers[t := []], pending := s.pending + s.buffers[t], phase := s.phase.(next := t + 1))
    case Measure =>
      var all, taken := s.collected + s.pending, Removed(s.edge, s.phase.hi);
      s.(pending := [], collected := Reject(all, taken), edge := s.phase.hi, phase := Running,
         windows := s.windows + [Window(s.edge, s.phase.hi, Select(all, taken))])
  }

  ghost predicate Follows(s: Profile, es: seq<Event>, t: Profile)
    decreases |es|
  {
    if es == [] then t == s
    else Possible(s, es[0]) && Follows(Step(s, es[0]), es[1..], t)
  }

  /** Windows end when the clock says so. */
  predicate Timed(s: Profile) {
    s.edge <= s.clock && (s.phase.Swapping? ==> s.edge <= s.phase.hi <= s.clock && s.phase.next <= |s.buffers|)
  }

  lemma {:induction false} FollowsTimed(s: Profile, es: seq<Event>, t: Profile)
    requires Follows(s, es, t) && Timed(s)
    ensures Timed(t) && s.edge <= t.edge
    decreases |es|
  {
    if es != [] {
      FollowsTimed(Step(s, es[0]), es[1..], t);
    }
  }

  // ------------------------------------------------- conservation

  function InBuffers(buffers: seq<seq<RequestRecord>>, x: RequestRecord): nat {
    if buffers == [] then 0
    else InBuffers(buffers[..|buffers| - 1], x) + multiset(buffers[|buffers| - 1])[x]
  }

  function InWindows(windows: seq<Window>, x: RequestRecord): nat {
    if windows == [] then 0
    else InWindows(windows[..|windows| - 1], x) + multiset(windows[|windows| - 1].valid)[x]
  }

  /** How often record x waits for a window. */
  function Waiting(s: Profile, x: RequestRecord): nat {
    InBuffers(s.buffers, x) + multiset(s.pending)[x] + multiset(s.collected)[x]
  }

  /** How often record x is anywhere. */
  function Places(s: Profile, x: RequestRecord): nat {
    Waiting(s, x) + InWindows(s.windows, x)
  }

  lemma {:induction false} InBuffersUpdate(buffers: seq<seq<RequestRecord>>, t: nat, b: seq<RequestRecord>, x: RequestRecord)
    requires t < |buffers|
    ensures InBuffers(buffers[t := b], x) == InBuffers(buffers, x) - multiset(buffers[t])[x] + multiset(b)[x]
  {
    var k := |buffers| - 1;
    if t < k {
      InBuffersUpdate(buffers[..k], t, b, x);
      assert buffers[t := b][..k] == buffers[..k][t := b];
    } else {
      assert buffers[t := b][..k] == buffers[..k];
    }
  }

  lemma {:induction false} InBuffersZero(buffers: seq<seq<RequestRecord>>, x: RequestRecord)
    ensures InBuffers(buffers, x) == 0 <==> forall j :: 0 <= j < |buffers| ==> multiset(buffers[j])[x] == 0
  {
    if buffers != [] {
      InBuffersZero(buffers[..|buffers| - 1], x);
    }
  }

  lemma InWindowsAppend(windows: seq<Window>, w: Window, x: RequestRecord)
    ensures InWindows(windows + [w], x) == InWindows(windows, x) + multiset(w.valid)[x]
  {
    assert (windows + [w])[..|windows|] == windows;
  }

  lemma {:induction false} InConcat(buffers: seq<seq<RequestRecord>>, x: RequestRecord)
    ensures multiset(Concat(buffers))[x] == InBuffers(buffers, x)
  {
    if buffers != [] {
      InConcat(buffers[..|buffers| - 1], x);
    }
  }

  /** A measurement moves x to the new window if the window takes it, and leaves
      it with the collected records otherwise. */
  lemma MeasureMoves(s: Profile, x: RequestRecord)
    requires Possible(s, Measure)
    ensures var t, n := Step(s, Measure), multiset(s.collected)[x] + multiset(s.pending)[x];
            && InWindows(t.windows, x) == InWindows(s.windows, x) + (if Removed(s.edge, s.phase.hi)(x) then n else 0)
            && multiset(t.collected)[x] == (if Removed(s.edge, s.phase.hi)(x) then 0 else n)
  {
    var all, taken := s.collected + s.pending, Removed(s.edge, s.phase.hi);
    Partition(all, taken, x);
    InWindowsAppend(s.windows, Window(s.edge, s.phase.hi, Select(all, taken)), x);
  }

  lemma StepConserves(s: Profile, e: Event, x: RequestRecord)
    requires Possible(s, e) && multiset(s.pushed)[x] == Places(s, x)
    ensures multiset(Step(s, e).pushed)[x] == Places(Step(s, e), x)
  {
    match e
    case Tick(_) =>
    case Push(t, r) => InBuffersUpdate(s.buffers, t, s.buffers[t] + [r], x);
    case CloseWindow =>
    case TakeBuffer => InBuffersUpdate(s.buffers, s.phase.next, [], x);
    case Measure => MeasureMoves(s, x);
  }

  lemma {:induction false} FollowsConserves(s: Profile, es: seq<Event>, t: Profile, x: RequestRecord)
    requires Follows(s, es, t) && multiset(s.pushed)[x] == Places(s, x)
    ensures multiset(t.pushed)[x] == Places(t, x)
    decreases |es|
  {
    if es != [] {
      StepConserves(s, es[0], x);
      FollowsConserves(Step(s, es[0]), es[1..], t, x);
    }
  }

  /** In every run, every record handed in since the flush is in exactly one
      place: a buffer, the vector being swapped, the collected records or one
      window. */
  lemma RecordsConserved(buffers: seq<seq<RequestRecord>>, start: int, es: seq<Event>, t: Profile, x: RequestRecord)
    requires Follows(Flushed(buffers, start), es, t)
    ensures multiset(t.pushed)[x] == Places(t, x)
  {
    InConcat(buffers, x);
    FollowsConserves(Flushed(buffers, start), es, t, x);
  }

  // ------------------------------------------------- windows

  ghost predicate InChain(start: int, windows: seq<Window>, i: nat)
    requires i < |windows|
  {
    var w := windows[i];
    && w.lo == (if i == 0 then start else windows[i - 1].hi) && w.lo <= w.hi
    && forall r :: r in w.valid ==> NullOnly(r) || Counts(r, w.lo, w.hi)
  }

  /** Windows follow on each other and hold what they should. */
  ghost predicate WindowsChain(start: int, windows: seq<Window>, edge: int) {
    && (forall i: nat :: i < |windows| ==> InChain(start, windows, i))
    && edge == if windows == [] then start else windows[|windows| - 1].hi
  }

  lemma StepChains(start: int, s: Profile, e: Event)
    requires Possible(s, e) && Timed(s) && WindowsChain(start, s.windows, s.edge)
    ensures WindowsChain(start, Step(s, e).windows, Step(s, e).edge)
  {
    if e.Measure? {
      var all, taken := s.collected + s.pending, Removed(s.edge, s.phase.hi);
      forall r | r in Select(all, taken)
        ensures NullOnly(r) || Counts(r, s.edge, s.phase.hi)
      {
        SelectIn(all, taken, r);
      }
      var windows := Step(s, e).windows;
      forall i: nat | i < |windows|
        ensures InChain(start, windows, i)
      {
        if i < |s.windows| {
          assert InChain(start, s.windows, i);
        }
      }
    }
  }

  lemma {:induction false} WindowsHoldTheirs(start: int, s: Profile, es: seq<Event>, t: Profile)
    requires Follows(s, es, t) && Timed(s) && WindowsChain(start, s.windows, s.edge)
    ensures WindowsChain(start, t.windows, t.edge)
    decreases |es|
  {
    if es != [] {
      StepChains(start, s, es[0]);
      FollowsTimed(s, [es[0]], Step(s, es[0]));
      WindowsHoldTheirs(start, Step(s, es[0]), es[1..], t);
    }
  }

  /** Records with content that ended after they started: the ones a window can
      count. */
  predicate Countable(x: RequestRecord) {
    !NullOnly(x) && x.start <= EndTime(x)
  }

  lemma {:induction false} ChainOrdered(start: int, windows: seq<Window>, edge: int, i: nat, j: nat)
    requires WindowsChain(start, windows, edge) && i < j < |windows|
    ensures windows[i].hi <= windows[j].lo
  {
    assert InChain(start, windows, j);
    if i < j - 1 {
      ChainOrdered(start, windows, edge, i, j - 1);
      assert InChain(start, windows, j - 1);
    }
  }

  lemma {:induction false} OnlyWindow(windows: seq<Window>, i: nat, x: RequestRecord, n: nat)
    requires n <= |windows|
    requires forall j :: 0 <= j < n && j != i ==> multiset(windows[j].valid)[x] == 0
    ensures InWindows(windows[..n], x) == if i < n then multiset(windows[i].valid)[x] else 0
  {
    if n > 0 {
      OnlyWindow(windows, i, x, n - 1);
      assert windows[..n][..n - 1] == windows[..n - 1];
    } else {
      assert windows[..0] == [];
    }
  }

  /** A record that ended strictly inside a window is in no other. */
  lemma InsideOneWindow(start: int, windows: seq<Window>, edge: int, i: nat, x: RequestRecord)
    requires WindowsChain(start, windows, edge) && i < |windows| && Countable(x)
    requires windows[i].lo < EndTime(x) < windows[i].hi
    ensures InWindows(windows, x) == multiset(windows[i].valid)[x]
  {
    forall j | 0 <= j < |windows| && j != i
      ensures multiset(windows[j].valid)[x] == 0
    {
      assert InChain(start, windows, j);
      if j < i {
        ChainOrdered(start, windows, edge, j, i);
      } else {
        ChainOrdered(start, windows, edge, i, j);
      }
      assert x !in windows[j].valid;
    }
    OnlyWindow(windows, i, x, |windows|);
    assert windows[..|windows|] == windows;
  }

  // ------------------------------------------------- which records are counted

  /** The time from which on a record pushed to thread t now can be counted: the
      end of the window being measured if its buffer has been taken, else the end
      of the last window. */
  function Horizon(s: Profile, t: nat): int {
    if s.phase.Swapping? && t < s.phase.next then s.phase.hi else s.edge
  }

  /** Nothing that ended before the edge waits, and nothing that ended before the
      end being measured is in a buffer already taken. */
  ghost predicate Prompt(s: Profile, x: RequestRecord) {
    && (EndTime(x) < s.edge ==> Waiting(s, x) == 0)
    && (s.phase.Swapping? && EndTime(x) < s.phase.hi ==>
          forall j :: 0 <= j < s.phase.next && j < |s.buffers| ==> multiset(s.buffers[j])[x] == 0)
  }

  /** Pushes of x come before its horizon has passed. */
  predicate InTime(s: Profile, e: Event, x: RequestRecord) {
    e.Push? && e.record == x ==> Horizon(s, e.thread) <= EndTime(x)
  }

  lemma StepPrompt(s: Profile, e: Event, x: RequestRecord)
    requires Possible(s, e) && Timed(s) && Prompt(s, x) && Countable(x) && InTime(s, e, x)
    ensures Prompt(Step(s, e), x)
  {
    match e
    case Tick(_) =>
    case Push(t, r) => InBuffersUpdate(s.buffers, t, s.buffers[t] + [r], x);
    case CloseWindow =>
    case TakeBuffer => InBuffersUpdate(s.buffers, s.phase.next, [], x);
    case Measure =>
      MeasureMoves(s, x);
      InBuffersZero(s.buffers, x);
  }

  /** An asynchronous record without an empty last response ends when it is
      pushed, and is therefore always in time. */
  lemma OrdinaryInTime(s: Profile, e: Event, x: RequestRecord)
    requires Possible(s, e) && Timed(s) && !x.nullLast
    ensures InTime(s, e, x)
  {
  }

  lemma {:induction false} FollowsPrompt(s: Profile, es: seq<Event>, t: Profile, x: RequestRecord)
    requires Follows(s, es, t) && Timed(s) && Prompt(s, x) && Countable(x)
    requires !x.nullLast || forall i :: 0 <= i < |es| ==> !(es[i].Push? && es[i].record == x)
    ensures Prompt(t, x)
    decreases |es|
  {
    if es != [] {
      if !x.nullLast {
        OrdinaryInTime(s, es[0], x);
      }
      StepPrompt(s, es[0], x);
      FollowsTimed(s, [es[0]], Step(s, es[0]));
      FollowsPrompt(Step(s, es[0]), es[1..], t, x);
    }
  }

  /** In every run, every record without an empty last response that ended since
      the first window started and before the end of the last one has been
      counted, in whatever buffer it was at any time. */
  lemma EveryRecordCounted(buffers: seq<seq<RequestRecord>>, start: int, es: seq<Event>, t: Profile, x: RequestRecord)
    requires Follows(Flushed(buffers, start), es, t)
    requires Countable(x) && !x.nullLast && start <= EndTime(x) < t.edge
    ensures InWindows(t.windows, x) == multiset(t.pushed)[x]
  {
    RecordsConserved(buffers, start, es, t, x);
    FollowsPrompt(Flushed(buffers, start), es, t, x);
  }

  /** If it ended strictly inside a window, it is counted in exactly that one. */
  lemma CountedInItsWindow(buffers: seq<seq<RequestRecord>>, start: int, es: seq<Event>, t: Profile, i: nat, x: RequestRecord)
    requires Follows(Flushed(buffers, start), es, t) && i < |t.windows|
    requires Countable(x) && !x.nullLast && t.windows[i].lo < EndTime(x) < t.windows[i].hi
    ensures multiset(t.windows[i].valid)[x] == InWindows(t.windows, x) == multiset(t.pushed)[x]
  {
    WindowsHoldTheirs(start, Flushed(buffers, start), es, t);
    WindowInRange(start, t.windows, t.edge, i);
    EveryRecordCounted(buffers, start, es, t, x);
    InsideOneWindow(start, t.windows, t.edge, i, x);
  }

  lemma {:induction false} WindowInRange(start: int, windows: seq<Window>, edge: int, i: nat)
    requires WindowsChain(start, windows, edge) && i < |windows|
    ensures start <= windows[i].lo && windows[i].hi <= edge
  {
    assert InChain(start, windows, i);
    if i > 0 {
      WindowInRange(start, windows, edge, i - 1);
      assert InChain(start, windows, i - 1);
    }
    if i < |windows| - 1 {
      ChainOrdered(start, windows, edge, i, |windows| - 1);
      assert InChain(start, windows, |windows| - 1);
    }
  }

  // ------------------------------------------------- which records are lost

  /** A record that ended before the current edge is in no later window, wherever
      it is now and even if it is pushed later. */
  lemma {:induction false} StaleNeverCounted(s: Profile, es: seq<Event>, t: Profile, x: RequestRecord)
    requires Follows(s, es, t) && Timed(s) && !NullOnly(x) && EndTime(x) < s.edge
    ensures InWindows(t.windows, x) == InWindows(s.windows, x)
    decreases |es|
  {
    if es != [] {
      if es[0].Measure? {
        MeasureMoves(s, x);
      }
      FollowsTimed(s, [es[0]], Step(s, es[0]));
      StaleNeverCounted(Step(s, es[0]), es[1..], t, x);
    }
  }

  /** x has come too late for its window. */
  ghost predicate TooLate(s: Profile, x: RequestRecord) {
    || EndTime(x) < s.edge
    || (&& s.phase.Swapping? && EndTime(x) < s.phase.hi && multiset(s.pending)[x] == multiset(s.collected)[x] == 0
        && forall j :: s.phase.next <= j < |s.buffers| ==> multiset(s.buffers[j])[x] == 0)
  }

  lemma {:induction false} LateNeverCounted(s: Profile, es: seq<Event>, t: Profile, x: RequestRecord)
    requires Follows(s, es, t) && Timed(s) && !NullOnly(x) && TooLate(s, x)
    requires forall i :: 0 <= i < |es| ==> !(es[i].Push? && es[i].record == x)
    ensures InWindows(t.windows, x) == InWindows(s.windows, x)
    decreases |es|
  {
    if EndTime(x) < s.edge {
      StaleNeverCounted(s, es, t, x);
    } else if es != [] {
      if es[0].Measure? {
        MeasureMoves(s, x);
      }
      FollowsTimed(s, [es[0]], Step(s, es[0]));
      LateNeverCounted(Step(s, es[0]), es[1..], t, x);
    }
  }

  /** Exactly when a record is counted. Let x be pushed for the first and only
      time. Once the windows have passed its end it has been counted once, if it
      did not end before the horizon at its push, and is in no window
      otherwise. */
  lemma CountedIff(buffers: seq<seq<RequestRecord>>, start: int, es: seq<Event>, s: Profile, thread: nat,
                   x: RequestRecord, more: seq<Event>, t: Profile)
    requires Follows(Flushed(buffers, start), es, s) && x !in s.pushed && Countable(x) && Possible(s, Push(thread, x))
    requires Follows(Step(s, Push(thread, x)), more, t) && EndTime(x) < t.edge
    requires forall i :: 0 <= i < |more| ==> !(more[i].Push? && more[i].record == x)
    ensures InWindows(t.windows, x) == if Horizon(s, thread) <= EndTime(x) then 1 else 0
  {
    var e := Push(thread, x);
    var m := Step(s, e);
    FollowsTimed(Flushed(buffers, start), es, s);
    RecordsConserved(buffers, start, es, s, x);
    assert Waiting(s, x) == 0 && InWindows(s.windows, x) == 0;
    InBuffersZero(s.buffers, x);
    if Horizon(s, thread) <= EndTime(x) {
      StepPrompt(s, e, x);
      StepConserves(s, e, x);
      FollowsPrompt(m, more, t, x);
      FollowsConserves(m, more, t, x);
      PushedOnce(m, more, t, x);
    } else {
      LateNeverCounted(m, more, t, x);
    }
  }

  lemma {:induction false} PushedOnce(s: Profile, es: seq<Event>, t: Profile, x: RequestRecord)
    requires Follows(s, es, t)
    requires forall i :: 0 <= i < |es| ==> !(es[i].Push? && es[i].record == x)
    ensures multiset(t.pushed)[x] == multiset(s.pushed)[x]
    decreases |es|
  {
    if es != [] {
      PushedOnce(Step(s, es[0]), es[1..], t, x);
    }
  }

  /** A record with a response at time 5 and an empty one at time 12. */
  const NULL_LAST: RequestRecord := RequestRecord(0, [5, 12], true, false, true)

  /** A run that loses it: the window from 0 to 10 is measured before the empty
      response comes in, and no later window takes it. */
  lemma LostRecord() returns (es: seq<Event>, t: Profile)
    ensures Follows(Flushed([[]], 0), es, t) && t.pushed == [NULL_LAST] && Countable(NULL_LAST)
    ensures |t.windows| == 1 && t.windows[0].lo < EndTime(NULL_LAST) < t.windows[0].hi
    ensures forall more, u :: Follows(t, more, u) ==> InWindows(u.windows, NULL_LAST) == 0
  {
    var s0 := Flushed([[]], 0);
    var s1 := Step(s0, Tick(10));
    var s2 := Step(s1, CloseWindow);
    var s3 := Step(s2, TakeBuffer);
    var s4 := Step(s3, Measure);
    var s5 := Step(s4, Tick(12));
    t := Step(s5, Push(0, NULL_LAST));
    es := [Tick(10), CloseWindow, TakeBuffer, Measure, Tick(12), Push(0, NULL_LAST)];
    assert Concat([[]]) == [] by {
      var none: seq<seq<RequestRecord>> := [[]];
      assert none[..0] == [];
    }
    FollowsOne(s5, Push(0, NULL_LAST), [], t);
    FollowsOne(s4, Tick(12), [Push(0, NULL_LAST)], t);
    FollowsOne(s3, Measure, [Tick(12), Push(0, NULL_LAST)], t);
    FollowsOne(s2, TakeBuffer, [Measure, Tick(12), Push(0, NULL_LAST)], t);
    FollowsOne(s1, CloseWindow, [TakeBuffer, Measure, Tick(12), Push(0, NULL_LAST)], t);
    FollowsOne(s0, Tick(10), [CloseWindow, TakeBuffer, Measure, Tick(12), Push(0, NULL_LAST)], t);
    assert [Push(0, NULL_LAST)] + [] == [Push(0, NULL_LAST)];
    assert es == [Tick(10)] + [CloseWindow, TakeBuffer, Measure, Tick(12), Push(0, NULL_LAST)];
    assert t.windows == [Window(0, 10, [])];
    assert InWindows(t.windows, NULL_LAST) == 0;
    forall more, u | Follows(t, more, u)
      ensures InWindows(u.windows, NULL_LAST) == 0
    {
      StaleNeverCounted(t, more, u, NULL_LAST);
    }
  }

  lemma FollowsOne(s: Profile, e: Event, es: seq<Event>, t: Profile)
    requires Possible(s, e) && Follows(Step(s, e), es, t)
    ensures Follows(s, [e] + es, t)
  {
    assert ([e] + es)[1..] == es;
  }
}
