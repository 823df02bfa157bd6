/** How the concurrency manager spreads a concurrency level and a request budget
    over its threads, and what a warmup sends in total. */
module ConcurrencyManagers {
  import opened Basics
  import opened EvenSplits
  import opened WorkerProtocol
  import opened ProtocolQuota

  class ThreadConfig {
    const threadId: nat
    var concurrency: nat
    var seqStatIndexOffset: nat
    var numRequests: nat

    constructor (threadId: nat)
      ensures this.threadId == threadId && concurrency == seqStatIndexOffset == numRequests == 0
    {
      this.threadId := threadId;
      concurrency, seqStatIndexOffset, numRequests := 0, 0, 0;
    }
  }

  /** A thread with its part of the level and of the budget. */
  ghost predicate Configured(c: ThreadConfig, i: nat, threads: nat, level: nat, count: nat)
    requires threads > 0
    reads c
  {
    && c.concurrency == Part(level, threads, i) && c.seqStatIndexOffset == Offset(level, threads, i)
    && c.numRequests == Part(count, threads, i)
  }

  class ConcurrencyManager {
    const maxThreads: nat
    var threads: seq<ThreadConfig>
    var activeThreads: nat

    ghost predicate Valid()
      reads this
    {
      && |threads| <= maxThreads
      && forall i, j :: 0 <= i < j < |threads| ==> threads[i] != threads[j]
    }

    constructor (maxThreads: nat)
      ensures this.maxThreads == maxThreads && threads == [] && Valid()
    {
      this.maxThreads := maxThreads;
      threads, activeThreads := [], 0;
    }

    /** New threads are launched up to the level or the limit; all are kept. */
    method LaunchThreads(level: nat)
      requires Valid()
      modifies this`threads
      ensures Valid() && old(threads) <= threads
      ensures |threads| == Grown(old(|threads|), level, maxThreads)
      ensures forall i :: old(|threads|) <= i < |threads| ==> fresh(threads[i])
    {
      while level > |threads| && |threads| < maxThreads
        invariant Valid() && old(threads) <= threads
        invariant |threads| <= Grown(old(|threads|), level, maxThreads)
        invariant forall i :: old(|threads|) <= i < |threads| ==> fresh(threads[i])
        decreases maxThreads - |threads|
      {
        var config := new ThreadConfig(|threads|);
        threads := threads + [config];
      }
    }

    /** The level and the budget are split over all threads, and the threads that
        get work are counted. */
    method ReconfigThreads(level: nat, count: nat)
      requires Valid() && maxThreads > 0 && (level > 0 || threads != [])
      modifies this, threads
      ensures Valid() && old(threads) <= threads && |threads| == Grown(old(|threads|), level, maxThreads) > 0
      ensures forall i :: 0 <= i < |threads| ==> Configured(threads[i], i, |threads|, level, count)
      ensures |threads| >= level || |threads| == maxThreads
      ensures |threads| > old(|threads|) ==> |threads| <= level
      ensures forall i :: 0 <= i < |threads| ==>
                && threads[i].concurrency == level / |threads| + One(i < level % |threads|)
                && threads[i].numRequests == count / |threads| + One(i < count % |threads|)
                && threads[i].seqStatIndexOffset + threads[i].concurrency
                   == if i + 1 == |threads| then level else threads[i + 1].seqStatIndexOffset
      ensures threads[0].seqStatIndexOffset == 0
      ensures activeThreads == Min(level, |threads|)
      ensures forall i :: 0 <= i < |threads| ==> (threads[i].concurrency > 0 <==> i < activeThreads)
      ensures forall i :: old(|threads|) <= i < |threads| ==> fresh(threads[i])
    {
      LaunchThreads(level);
      Spread(level, count);
      OffsetTotal(level, |threads|);
      forall i | 0 <= i < |threads|
        ensures threads[i].concurrency > 0 <==> i < Min(level, |threads|)
      {
        ActivePrefix(level, |threads|, i);
      }
    }

    method Spread(level: nat, count: nat)
      requires Valid() && threads != []
      modifies this`activeThreads, threads
      ensures forall i :: 0 <= i < |threads| ==> Configured(threads[i], i, |threads|, level, count)
      ensures activeThreads == Min(level, |threads|)
    {
      var n := |threads|;
      var averageLevel, levelAddOne := level / n, level % n;
      var averageCount, countAddOne := count / n, count % n;
      var offset := 0;
      activeThreads := 0;
      for i := 0 to n
        invariant offset == Offset(level, n, i)
        invariant activeThreads == Min(level, i)
        invariant forall k :: 0 <= k < i ==> Configured(threads[k], k, n, level, count)
      {
        var concurrency := averageLevel + if i < levelAddOne then 1 else 0;
        var requests := averageCount + if i < countAddOne then 1 else 0;
        assert concurrency == Part(level, n, i) && requests == Part(count, n, i);
        threads[i].concurrency := concurrency;
        threads[i].seqStatIndexOffset := offset;
        threads[i].numRequests := requests;
        offset := offset + concurrency;
        ActivePrefix(level, n, i);
        if concurrency != 0 {
          activeThreads := activeThreads + 1;
        }
      }
    }

    /** A warmup never runs at a higher level than it has requests, and it leaves
        no threads behind. `joined` are the threads it waited for. */
    method PerformWarmup(level: nat, warmup: nat) returns (joined: seq<ThreadConfig>)
      requires Valid() && maxThreads > 0 && level > 0
      modifies this, threads
      ensures Valid()
      ensures warmup == 0 ==> joined == [] && threads == old(threads)
      ensures warmup > 0 ==>
                && threads == [] && |joined| == Grown(old(|threads|), Min(level, warmup), maxThreads) > 0
                && forall i :: 0 <= i < |joined| ==> Configured(joined[i], i, |joined|, Min(level, warmup), warmup)
      ensures warmup > 0 ==> |joined| >= level || |joined| >= warmup || |joined| == maxThreads
      ensures |joined| > old(|threads|) ==> |joined| <= level && |joined| <= warmup
    {
      joined := [];
      if warmup == 0 {
        return;
      }
      var adjusted := level;
      if adjusted > warmup {
        adjusted := warmup;
      }
      ReconfigThreads(adjusted, warmup);
      joined := threads;
      threads := [];
    }
  }

  function Grown(threads: nat, level: nat, maxThreads: nat): nat {
    Max(threads, Min(level, maxThreads))
  }

  // ------------------------------------------------- levels

  /** The threads that get work are a prefix of length min(level, threads). */
  lemma ActivePrefix(level: nat, threads: nat, i: nat)
    requires i < threads
    ensures Part(level, threads, i) > 0 <==> i < Min(level, threads)
  {
    PartCountsTurns(level, threads, i, 0);
  }

  /** Levels are as even as can be and add up. */
  lemma LevelsEven(level: nat, threads: nat, i: nat, j: nat)
    requires i <= j < threads
    ensures Part(level, threads, j) <= Part(level, threads, i) <= Part(level, threads, j) + 1
    ensures Offset(level, threads, threads) == level
  {
    OffsetTotal(level, threads);
  }

  /** GetSeqStatIndex: no two contexts of all workers use the same slot of the
      sequence statuses, and every slot below the level belongs to one. */
  lemma SlotsDisjoint(level: nat, threads: nat, i: nat, c: nat, j: nat, d: nat)
    requires i < threads && j < threads && c < Part(level, threads, i) && d < Part(level, threads, j)
    ensures Offset(level, threads, i) + c < level
    ensures Offset(level, threads, i) + c == Offset(level, threads, j) + d <==> i == j && c == d
  {
    OffsetTotal(level, threads);
    OffsetMonotone(level, threads, i + 1, threads);
    var owner := RangesTile(level, threads, threads, Offset(level, threads, i) + c);
    assert i == owner;
  }

  lemma EverySlotOwned(level: nat, threads: nat, slot: nat) returns (i: nat, c: nat)
    requires threads > 0 && slot < level
    ensures i < threads && c < Part(level, threads, i) && slot == Offset(level, threads, i) + c
  {
    OffsetTotal(level, threads);
    i := RangesTile(level, threads, threads, slot);
    c := slot - Offset(level, threads, i);
  }

  // ------------------------------------------------- budgets

  /** A budget of 0 means unlimited. No thread is unlimited if and only if there
      are at least as many requests as threads. */
  lemma NoUnlimitedThread(count: nat, threads: nat)
    requires threads > 0
    ensures (forall i: nat :: i < threads ==> Part(count, threads, i) > 0) <==> threads <= count
  {
    if threads <= count {
      forall i: nat | i < threads
        ensures Part(count, threads, i) > 0
      {
        PartCountsTurns(count, threads, i, 0);
      }
    } else {
      PartCountsTurns(count, threads, threads - 1, 0);
    }
  }

  function TotalSent(ends: seq<State>): nat {
    if ends == [] then 0 else TotalSent(ends[..|ends| - 1]) + ends[|ends| - 1].hist.sent
  }

  /** The end of thread i: a run of its worker that was configured once, with
      thread i's part of the budget, and has ended without an exit signal. */
  ghost predicate EndOf(i: nat, threads: nat, count: nat, s: State)
    requires threads > 0
  {
    && s.pc.Done? && !s.earlyExit && ConfiguredOnce(s) && s.quota == Part(count, threads, i)
    && exists ls :: Run(WorkerConfig(false, i), true, ls) == Some(s)
  }

  lemma EndSent(i: nat, threads: nat, count: nat, s: State)
    requires threads > 0 && EndOf(i, threads, count, s)
    ensures s.hist.sent == Part(count, threads, i)
  {
    var ls :| Run(WorkerConfig(false, i), true, ls) == Some(s);
    QuotaExact(WorkerConfig(false, i), true, ls, s);
  }

  lemma {:induction false} SentAddsUp(threads: nat, count: nat, ends: seq<State>)
    requires threads > 0
    requires forall i :: 0 <= i < |ends| ==> ends[i].hist.sent == Part(count, threads, i)
    ensures TotalSent(ends) == Offset(count, threads, |ends|)
  {
    if ends != [] {
      SentAddsUp(threads, count, ends[..|ends| - 1]);
    }
  }

  /** A warmup of an ordinary model on a fresh pool gives every thread a limit,
      and once all its threads have ended without an exit signal exactly
      `warmup` requests have been sent, whatever the interleaving was. */
  lemma WarmupSendsExactly(level: nat, warmup: nat, maxThreads: nat, ends: seq<State>)
    requires level > 0 && warmup > 0 && maxThreads > 0
    requires |ends| == Grown(0, Min(level, warmup), maxThreads)
    requires forall i :: 0 <= i < |ends| ==> EndOf(i, |ends|, warmup, ends[i])
    ensures forall i: nat :: i < |ends| ==> Part(warmup, |ends|, i) > 0
    ensures TotalSent(ends) == warmup
  {
    NoUnlimitedThread(warmup, |ends|);
    forall i | 0 <= i < |ends|
      ensures ends[i].hist.sent == Part(warmup, |ends|, i)
    {
      EndSent(i, |ends|, warmup, ends[i]);
    }
    SentAddsUp(|ends|, warmup, ends);
    OffsetTotal(warmup, |ends|);
  }
}
