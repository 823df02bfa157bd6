/** WaitForOngoingRequests reads the counters one at a time while callbacks keep
    arriving. As long as fewer than 2^32 requests were ever in flight at once,
    it returns only when every request has had its final decrement. */
module ProtocolDrain {
  import opened Basics
  import opened WorkerProtocol
  import opened ProtocolControl
  import opened ProtocolCounters

  /** Every request of the worker has been counted down. */
  ghost predicate Drained(s: State) {
    Pending(s.inflight, 0, |s.ctxs|) == 0
  }

  /** How many contexts the current level asks for. */
  function Needed(cfg: Config, s: State): nat {
    if cfg.sequence then s.concurrency else 1
  }

  /** Program points that are reached only after a wait: before any Reset, while
      paused, after an orderly exit, and on the way to creating contexts. */
  predicate AfterWait(cfg: Config, s: State) {
    || s.pc.Resetting? || s.pc.Paused? || (s.pc.Done? && s.pc.drained)
    || ((s.pc.NoConc? || s.pc.NoConcWait? || s.pc.CreateCtx?) && |s.ctxs| < Needed(cfg, s))
  }

  /** The running sum never wraps, and while it is 0 the contexts already read
      have nothing pending. */
  ghost predicate ScanInv(s: State) {
    s.pc.Draining? ==>
      && s.pc.i <= |s.ctxs|
      && s.pc.acc + Pending(s.inflight, s.pc.i, |s.ctxs|) <= s.hist.peak
      && (s.pc.acc == 0 ==> Pending(s.inflight, 0, s.pc.i) == 0)
  }

  ghost predicate DrainInv(cfg: Config, s: State) {
    && |s.inflight| <= s.hist.peak
    && (s.hist.peak < UINT32 ==> ScanInv(s) && (AfterWait(cfg, s) ==> Drained(s)))
  }

  lemma {:induction false} PendingEmptyRange(reqs: seq<Request>, lo: nat)
    ensures Pending(reqs, lo, lo) == 0
  {
    if reqs != [] {
      PendingEmptyRange(reqs[..|reqs| - 1], lo);
    }
  }

  /** The counter of a context that is being read is the number of its pending
      requests. */
  lemma CounterReads(s: State, c: nat)
    requires CounterInv(s, c) && c < |s.ctxs| && s.pc.Draining?
    requires |s.inflight| < UINT32
    ensures s.ctxs[c].ongoing == Pending(s.inflight, c, c + 1)
  {
    PendingSplit(s.inflight, c, c, c + 1);
  }

  lemma ScanRead(s: State)
    requires s.pc.Draining? && ScanInv(s) && s.pc.i < |s.ctxs| && CounterInv(s, s.pc.i)
    requires |s.inflight| <= s.hist.peak < UINT32
    ensures var acc := (s.pc.acc + s.ctxs[s.pc.i].ongoing) % UINT32;
            && acc + Pending(s.inflight, s.pc.i + 1, |s.ctxs|) <= s.hist.peak
            && (acc == 0 ==> Pending(s.inflight, 0, s.pc.i + 1) == 0)
  {
    var i := s.pc.i;
    CounterReads(s, i);
    PendingSplit(s.inflight, i, i + 1, |s.ctxs|);
    PendingSplit(s.inflight, 0, i, i + 1);
  }

  lemma DrainScanRead(cfg: Config, s: State)
    requires DrainInv(cfg, s) && s.pc.Draining? && s.pc.i < |s.ctxs|
    requires CounterInv(s, s.pc.i)
    ensures DrainInv(cfg, Move(cfg, s))
  {
    if s.hist.peak < UINT32 {
      ScanRead(s);
    }
  }

  lemma DrainScanEnd(cfg: Config, s: State)
    requires DrainInv(cfg, s) && s.pc.Draining? && s.pc.i >= |s.ctxs|
    ensures DrainInv(cfg, Move(cfg, s))
  {
    PendingSplit(s.inflight, 0, 0, |s.ctxs|);
    PendingEmptyRange(s.inflight, 0);
  }

  lemma DrainMove(cfg: Config, s: State)
    requires DrainInv(cfg, s) && ControlInv(cfg, s) && Quiet(s.pc) && !s.pc.Draining?
    ensures DrainInv(cfg, Move(cfg, s))
  {
    PendingSplit(s.inflight, 0, 0, |s.ctxs|);
    PendingEmptyRange(s.inflight, 0);
  }

  lemma DrainCreate(cfg: Config, s: State)
    requires DrainInv(cfg, s) && ControlInv(cfg, s) && s.pc.CreateCtx?
    ensures DrainInv(cfg, CreateStep(cfg, s))
  {
    var n := Needed(cfg, s);
    if |s.ctxs| < n {
      PendingSplit(s.inflight, 0, |s.ctxs|, n);
      PendingNone(s.inflight, |s.ctxs|, n);
    }
  }

  lemma DrainDispatch(cfg: Config, s: State, c: nat, now: int, sequenceEnd: bool, after: After)
    requires DrainInv(cfg, s) && c < |s.ctxs|
    ensures DrainInv(cfg, Dispatch(cfg, s, c, now, sequenceEnd, after))
  {
  }

  lemma DrainReady(cfg: Config, s: State, now: int, sequenceEnd: bool)
    requires DrainInv(cfg, s) && s.pc.Ready?
    ensures DrainInv(cfg, ReadyStep(cfg, s, now, sequenceEnd))
  {
    if s.pc.ctx < |s.ctxs| {
      DrainDispatch(cfg, s, s.pc.ctx, now, sequenceEnd, ToSendLoop);
    }
  }

  lemma DrainClose(cfg: Config, s: State, i: nat, exiting: bool, now: int, sequenceEnd: bool)
    requires DrainInv(cfg, s) && i < |s.ctxs|
    ensures DrainInv(cfg, CloseSequence(cfg, s, i, exiting, now, sequenceEnd))
  {
    DrainDispatch(cfg, s.(hist := s.hist.(extra := s.hist.extra + multiset{i})), i, now, sequenceEnd,
                  ToCompleting(i + 1, exiting));
  }

  /** A step that changes neither requests nor contexts, and enters no program
      point that needs a wait except at the start of a scan. */
  lemma DrainFrame(cfg: Config, s: State, t: State)
    requires DrainInv(cfg, s)
    requires |t.ctxs| == |s.ctxs| && t.inflight == s.inflight && t.hist.peak == s.hist.peak
    requires t.pc.Draining? ==> t.pc.i == 0 && t.pc.acc == 0
    requires AfterWait(cfg, t) ==> AfterWait(cfg, s)
    ensures DrainInv(cfg, t)
  {
    PendingSplit(s.inflight, 0, 0, |s.ctxs|);
    PendingEmptyRange(s.inflight, 0);
  }

  lemma DrainCompleting(cfg: Config, s: State, now: int, remaining: bool, sequenceEnd: bool)
    requires DrainInv(cfg, s) && s.pc.Completing?
    ensures DrainInv(cfg, CompletingStep(cfg, s, now, remaining, sequenceEnd))
  {
    if cfg.sequence && s.pc.i < |s.ctxs| && remaining {
      DrainClose(cfg, s, s.pc.i, s.pc.exiting, now, sequenceEnd);
    } else {
      DrainFrame(cfg, s, CompletingStep(cfg, s, now, remaining, sequenceEnd));
    }
  }

  lemma DrainResetting(cfg: Config, s: State)
    requires DrainInv(cfg, s) && s.pc.Resetting?
    ensures DrainInv(cfg, ResettingStep(cfg, s))
  {
    DrainFrame(cfg, s, ResettingStep(cfg, s));
  }

  lemma DrainGet(cfg: Config, s: State)
    requires DrainInv(cfg, s) && s.pc.GetId?
    ensures DrainInv(cfg, GetStep(s))
  {
    DrainFrame(cfg, s, GetStep(s));
  }

  lemma DrainHolding(cfg: Config, s: State)
    requires DrainInv(cfg, s) && s.pc.Holding?
    ensures DrainInv(cfg, HoldingStep(s))
  {
    DrainFrame(cfg, s, HoldingStep(s));
  }

  lemma DrainCalled(cfg: Config, s: State)
    requires DrainInv(cfg, s) && s.pc.Called?
    ensures DrainInv(cfg, CalledStep(s))
  {
    CalledFrame(s);
    DrainFrame(cfg, s, CalledStep(s));
  }

  lemma DrainWorker(cfg: Config, s: State, now: int, remaining: bool, sequenceEnd: bool)
    requires DrainInv(cfg, s) && ControlInv(cfg, s) && WorkerEnabled(s)
    requires s.pc.Draining? ==> CounterInv(s, s.pc.i)
    ensures DrainInv(cfg, WorkerStep(cfg, s, now, remaining, sequenceEnd))
  {
    if s.pc.Draining? && s.pc.i < |s.ctxs| {
      DrainScanRead(cfg, s);
    } else if s.pc.Draining? {
      DrainScanEnd(cfg, s);
    } else if Quiet(s.pc) {
      DrainMove(cfg, s);
    } else if s.pc.CreateCtx? {
      DrainCreate(cfg, s);
    } else if s.pc.Ready? {
      DrainReady(cfg, s, now, sequenceEnd);
    } else if s.pc.Completing? {
      DrainCompleting(cfg, s, now, remaining, sequenceEnd);
    } else if s.pc.Resetting? {
      DrainResetting(cfg, s);
    } else if s.pc.Called? {
      DrainCalled(cfg, s);
    } else if s.pc.GetId? {
      DrainGet(cfg, s);
    } else {
      DrainHolding(cfg, s);
    }
  }

  /** Callbacks only ever lower what is pending. */
  lemma DrainLowered(cfg: Config, s: State, t: State)
    requires DrainInv(cfg, s)
    requires t.pc == s.pc && |t.ctxs| == |s.ctxs| && t.concurrency == s.concurrency && t.hist == s.hist
    requires |t.inflight| <= |s.inflight|
    requires forall lo, hi :: Pending(t.inflight, lo, hi) <= Pending(s.inflight, lo, hi)
    ensures DrainInv(cfg, t)
  {
  }

  lemma DrainCallback(cfg: Config, s: State, l: Label)
    requires DrainInv(cfg, s) && Enabled(cfg, s, l)
    requires l.Response? || l.Decrement? || l.Restore?
    ensures DrainInv(cfg, Next(cfg, s, l))
  {
    var t := Next(cfg, s, l);
    if l.Response? {
      RespondFrame(cfg, s, l.i, l.now, l.isNull, l.isFinal);
    }
    forall lo: nat, hi: nat
      ensures Pending(t.inflight, lo, hi) <= Pending(s.inflight, lo, hi)
    {
      if l.Restore? {
        PendingRemove(s.inflight, l.i, lo, hi);
      } else {
        PendingUpdate(s.inflight, l.i, t.inflight[l.i], lo, hi);
      }
    }
    DrainLowered(cfg, s, t);
  }

  lemma DrainLevel(cfg: Config, s: State, concurrency: nat, quota: nat)
    requires DrainInv(cfg, s) && ControlInv(cfg, s) && LevelMayChange(cfg, s)
    ensures DrainInv(cfg, Next(cfg, s, SetLevel(concurrency, quota)))
  {
    PendingEmptyRange(s.inflight, 0);
  }

  lemma DrainMain(cfg: Config, s: State, l: Label)
    requires DrainInv(cfg, s) && Enabled(cfg, s, l)
    requires !l.Worker? && !l.Response? && !l.Decrement? && !l.Restore? && !l.SetLevel?
    ensures DrainInv(cfg, Next(cfg, s, l))
  {
    var t := Next(cfg, s, l);
    assert t.pc == s.pc && t.concurrency == s.concurrency && t.ctxs == s.ctxs && t.inflight == s.inflight;
  }

  lemma DrainNext(cfg: Config, s: State, l: Label)
    requires DrainInv(cfg, s) && ControlInv(cfg, s) && Enabled(cfg, s, l)
    requires s.pc.Draining? ==> CounterInv(s, s.pc.i)
    ensures DrainInv(cfg, Next(cfg, s, l))
  {
    if l.Worker? {
      DrainWorker(cfg, s, l.now, l.remaining, l.sequenceEnd);
    } else if l.Response? || l.Decrement? || l.Restore? {
      DrainCallback(cfg, s, l);
    } else if l.SetLevel? {
      DrainLevel(cfg, s, l.concurrency, l.quota);
    } else {
      DrainMain(cfg, s, l);
    }
  }

  lemma {:induction false} DrainRun(cfg: Config, execute: bool, ls: seq<Label>)
    requires Run(cfg, execute, ls).Some?
    ensures DrainInv(cfg, Run(cfg, execute, ls).value)
  {
    if ls != [] {
      var s := Run(cfg, execute, ls[..|ls| - 1]).value;
      DrainRun(cfg, execute, ls[..|ls| - 1]);
      ControlRun(cfg, execute, ls[..|ls| - 1]);
      if s.pc.Draining? {
        CounterRun(cfg, execute, ls[..|ls| - 1], s.pc.i);
      }
      DrainNext(cfg, s, ls[|ls| - 1]);
    }
  }

  lemma DrainedCounter(cfg: Config, s: State, c: nat)
    requires Drained(s) && CounterInv(s, c) && ControlInv(cfg, s) && AfterWait(cfg, s) && c < |s.ctxs|
    ensures s.ctxs[c].decs == s.ctxs[c].incs == s.ctxs[c].nextId && s.ctxs[c].ongoing == 0
  {
    PendingSplit(s.inflight, 0, c, c + 1);
    PendingSplit(s.inflight, 0, c + 1, |s.ctxs|);
  }

  /** When WaitForOngoingRequests has returned, every request ever sent by this
      worker has had its final callback decrement: whatever is still in flight
      only has its context id left to hand back, and every counter is 0. */
  lemma WaitReturnsDrained(cfg: Config, execute: bool, ls: seq<Label>, s: State)
    requires Run(cfg, execute, ls) == Some(s)
    requires AfterWait(cfg, s) && s.hist.peak < UINT32
    ensures forall i :: 0 <= i < |s.inflight| ==> s.inflight[i].phase == Decremented
    ensures forall c :: 0 <= c < |s.ctxs| ==>
              s.ctxs[c].decs == s.ctxs[c].incs == s.ctxs[c].nextId && s.ctxs[c].ongoing == 0
  {
    DrainRun(cfg, execute, ls);
    ControlRun(cfg, execute, ls);
    PendingZero(s.inflight, |s.ctxs|);
    forall c | 0 <= c < |s.ctxs|
      ensures s.ctxs[c].decs == s.ctxs[c].incs == s.ctxs[c].nextId && s.ctxs[c].ongoing == 0
    {
      CounterRun(cfg, execute, ls, c);
      DrainedCounter(cfg, s, c);
    }
  }
}
