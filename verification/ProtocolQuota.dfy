/** The request budget of a worker of an ordinary model that is configured once
    and whose sent count is not collected meanwhile, as in a warmup: it never
    sends more than its quota, and when it ends by itself it has sent exactly
    its quota. */
module ProtocolQuota {
  import opened Basics
  import opened WorkerProtocol
  import opened ProtocolControl
  import opened ProtocolDrain

  predicate OnExitPath(pc: Pc) {
    match pc
    case Completing(_, exiting) => exiting
    case ExitTimer => true
    case Draining(_, _, exiting) => exiting
    case Done(drained) => drained
    case Calling(_, after) => after.ToCompleting?
    case Called(_, after) => after.ToCompleting?
    case _ => false
  }

  predicate NotStarted(pc: Pc) {
    pc.ExecOff? || pc.NoConc? || pc.NoConcWait? || (pc.Done? && !pc.drained)
  }

  /** Configured at most once, and never collected. */
  predicate ConfiguredOnce(s: State) {
    s.hist.levels <= 1 && s.hist.collects == 0
  }

  predicate QuotaInv(cfg: Config, s: State) {
    !cfg.sequence && ConfiguredOnce(s) ==>
      && s.numSent == s.hist.sent
      && (s.hist.levels == 0 ==> s.concurrency == s.quota == s.numSent == 0 && NotStarted(s.pc))
      && (s.quota != 0 ==> s.numSent <= s.quota)
      && (s.quota != 0 && s.pc.Ready? ==> s.numSent < s.quota)
      && (s.pc.Done? && !s.pc.drained ==> s.earlyExit)
      && (OnExitPath(s.pc) && !s.earlyExit ==> s.quota != 0 && s.numSent == s.quota)
  }

  lemma QuotaMove(cfg: Config, s: State)
    requires QuotaInv(cfg, s) && ControlInv(cfg, s) && Quiet(s.pc) && WorkerEnabled(s)
    ensures QuotaInv(cfg, Move(cfg, s))
  {
  }

  lemma QuotaReady(cfg: Config, s: State, now: int, sequenceEnd: bool)
    requires QuotaInv(cfg, s) && ControlInv(cfg, s) && s.pc.Ready?
    ensures QuotaInv(cfg, ReadyStep(cfg, s, now, sequenceEnd))
  {
  }

  lemma QuotaCompleting(cfg: Config, s: State, now: int, remaining: bool, sequenceEnd: bool)
    requires QuotaInv(cfg, s) && ControlInv(cfg, s) && s.pc.Completing?
    ensures QuotaInv(cfg, CompletingStep(cfg, s, now, remaining, sequenceEnd))
  {
  }

  lemma QuotaOther(cfg: Config, s: State)
    requires QuotaInv(cfg, s) && ControlInv(cfg, s)
    ensures s.pc.Resetting? ==> QuotaInv(cfg, ResettingStep(cfg, s))
    ensures s.pc.CreateCtx? ==> QuotaInv(cfg, CreateStep(cfg, s))
    ensures s.pc.GetId? ==> QuotaInv(cfg, GetStep(s))
  {
  }

  lemma QuotaTaken(cfg: Config, s: State)
    requires QuotaInv(cfg, s) && ControlInv(cfg, s)
    ensures s.pc.Holding? ==> QuotaInv(cfg, HoldingStep(s))
    ensures s.pc.Called? ==> QuotaInv(cfg, CalledStep(s))
  {
  }

  lemma QuotaWorker(cfg: Config, s: State, now: int, remaining: bool, sequenceEnd: bool)
    requires QuotaInv(cfg, s) && ControlInv(cfg, s) && WorkerEnabled(s)
    ensures QuotaInv(cfg, WorkerStep(cfg, s, now, remaining, sequenceEnd))
  {
    if Quiet(s.pc) {
      QuotaMove(cfg, s);
    } else if s.pc.Ready? {
      QuotaReady(cfg, s, now, sequenceEnd);
    } else if s.pc.Completing? {
      QuotaCompleting(cfg, s, now, remaining, sequenceEnd);
    } else if s.pc.Holding? || s.pc.Called? {
      QuotaTaken(cfg, s);
    } else {
      QuotaOther(cfg, s);
    }
  }

  lemma QuotaOutside(cfg: Config, s: State, l: Label)
    requires QuotaInv(cfg, s) && Enabled(cfg, s, l) && !l.Worker?
    ensures QuotaInv(cfg, Next(cfg, s, l))
  {
    if l.Response? {
      RespondFrame(cfg, s, l.i, l.now, l.isNull, l.isFinal);
    }
  }

  lemma {:induction false} QuotaRun(cfg: Config, execute: bool, ls: seq<Label>)
    requires Run(cfg, execute, ls).Some?
    ensures QuotaInv(cfg, Run(cfg, execute, ls).value)
  {
    if ls != [] {
      var s, l := Run(cfg, execute, ls[..|ls| - 1]).value, ls[|ls| - 1];
      QuotaRun(cfg, execute, ls[..|ls| - 1]);
      ControlRun(cfg, execute, ls[..|ls| - 1]);
      if l.Worker? {
        QuotaWorker(cfg, s, l.now, l.remaining, l.sequenceEnd);
      } else {
        QuotaOutside(cfg, s, l);
      }
    }
  }

  /** A worker configured once with a positive quota never sends more, and when
      its thread has ended without an exit signal it has sent exactly the quota
      and every one of these requests has been answered. */
  lemma QuotaExact(cfg: Config, execute: bool, ls: seq<Label>, s: State)
    requires Run(cfg, execute, ls) == Some(s) && !cfg.sequence && ConfiguredOnce(s)
    ensures s.quota != 0 ==> s.hist.sent <= s.quota
    ensures s.pc.Done? && !s.earlyExit ==> s.quota != 0 && s.hist.sent == s.quota
    ensures s.pc.Done? && !s.earlyExit && s.hist.peak < UINT32 ==>
              forall i :: 0 <= i < |s.inflight| ==> s.inflight[i].phase == Decremented
  {
    QuotaRun(cfg, execute, ls);
    if s.pc.Done? && !s.earlyExit && s.hist.peak < UINT32 {
      WaitReturnsDrained(cfg, execute, ls, s);
    }
  }
}
