/** When a waiting worker can be woken. On an ordinary model a worker sleeps only
    at full load. */
module ProtocolProgress {
  import opened Basics
  import opened WorkerProtocol
  import opened ProtocolControl
  import opened ProtocolBounds
  import opened ProtocolTightness

  // ------------------------------------------------- waking up

  predicate Asleep(s: State) {
    s.pc.Waiting? && !s.notified && s.inflight == []
  }

  lemma AsleepNext(cfg: Config, s: State, l: Label)
    requires Asleep(s) && Enabled(cfg, s, l)
    ensures Asleep(Next(cfg, s, l))
  {
  }

  /** Without a notification and without requests in flight nothing wakes it. */
  lemma {:induction false} AsleepForGood(cfg: Config, s: State, ls: seq<Label>)
    requires Asleep(s) && Exec(cfg, s, ls).Some?
    ensures Asleep(Exec(cfg, s, ls).value)
  {
    if ls != [] {
      AsleepForGood(cfg, s, ls[..|ls| - 1]);
      AsleepNext(cfg, Exec(cfg, s, ls[..|ls| - 1]).value, ls[|ls| - 1]);
    }
  }

  /** The next step of the callback of request i. */
  function CallbackStep(i: nat, phase: Phase): Label {
    match phase
    case Accepted => Response(i, 0, false, true)
    case Recorded => Decrement(i)
    case Decremented => Restore(i)
  }

  function Phases(phase: Phase): nat {
    match phase case Accepted => 2 case Recorded => 1 case Decremented => 0
  }

  lemma CallbackAdvances(cfg: Config, s: State, i: nat)
    requires i < |s.inflight| && s.inflight[i].ctx < |s.ctxs|
    ensures Enabled(cfg, s, CallbackStep(i, s.inflight[i].phase))
    ensures var t := Next(cfg, s, CallbackStep(i, s.inflight[i].phase));
            && t.pc == s.pc && t.timerActive == s.timerActive
            && if s.inflight[i].phase == Decremented then t.notified
               else && i < |t.inflight| && t.inflight[i].ctx == s.inflight[i].ctx < |t.ctxs|
                    && Phases(t.inflight[i].phase) < Phases(s.inflight[i].phase)
  {
    if s.inflight[i].phase == Accepted {
      RespondFrame(cfg, s, i, 0, false, true);
    }
  }

  lemma CallbackFinishes(cfg: Config, s: State, i: nat) returns (ls: seq<Label>, t: State)
    requires i < |s.inflight| && s.inflight[i].ctx < |s.ctxs|
    ensures Exec(cfg, s, ls) == Some(t) && t.pc == s.pc && t.notified && t.timerActive == s.timerActive
    decreases Phases(s.inflight[i].phase)
  {
    var l := CallbackStep(i, s.inflight[i].phase);
    CallbackAdvances(cfg, s, i);
    var m := Next(cfg, s, l);
    if s.inflight[i].phase == Decremented {
      ls, t := [l], m;
      ExecOne(cfg, s, l);
    } else {
      var rest;
      rest, t := CallbackFinishes(cfg, m, i);
      ls := [l] + rest;
      ExecFront(cfg, s, l, rest);
    }
  }

  /** A waiting worker has a continuation that wakes it if and only if it has
      been notified or has a request in flight. */
  lemma CanWakeIff(cfg: Config, s: State)
    requires s.pc.Waiting? && ControlInv(cfg, s)
    ensures (exists ls, t :: Exec(cfg, s, ls) == Some(t) && !t.pc.Waiting?)
            <==> s.notified || s.inflight != []
  {
    if s.notified {
      ExecOne(cfg, s, STEP);
      assert Exec(cfg, s, [STEP]) == Some(Next(cfg, s, STEP)) && !Next(cfg, s, STEP).pc.Waiting?;
    } else if s.inflight != [] {
      var ls, m := CallbackFinishes(cfg, s, 0);
      ExecOne(cfg, m, STEP);
      ExecConcat(cfg, s, ls, m, [STEP]);
      assert Exec(cfg, s, ls + [STEP]) == Some(Next(cfg, m, STEP)) && !Next(cfg, m, STEP).pc.Waiting?;
    } else if exists ls, t :: Exec(cfg, s, ls) == Some(t) && !t.pc.Waiting? {
      var ls, t :| Exec(cfg, s, ls) == Some(t) && !t.pc.Waiting?;
      AsleepForGood(cfg, s, ls);
    }
  }

  // ------------------------------------------------- ordinary models

  /** Steps of a measurement without request budget and without exit signal. */
  predicate Unlimited(l: Label) {
    !l.SignalExit? && (l.SetLevel? ==> l.quota == 0)
  }

  predicate LeftTheLoop(pc: Pc) {
    pc == ExitCheck(1) || pc.WaitStart? || pc.Waiting?
  }

  predicate SleepInv(s: State) {
    && s.quota == 0 && !s.earlyExit && s.hist.dropped == multiset{}
    && (LeftTheLoop(s.pc) && !s.notified ==> s.free == [])
  }

  lemma SleepMove(cfg: Config, s: State)
    requires SleepInv(s) && ControlInv(cfg, s) && !cfg.sequence && Quiet(s.pc) && WorkerEnabled(s)
    ensures SleepInv(Move(cfg, s))
  {
  }

  lemma SleepOther(cfg: Config, s: State, now: int, sequenceEnd: bool)
    requires SleepInv(s) && ControlInv(cfg, s) && !cfg.sequence
    ensures s.pc.Resetting? ==> SleepInv(ResettingStep(cfg, s))
    ensures s.pc.CreateCtx? ==> SleepInv(CreateStep(cfg, s))
    ensures s.pc.GetId? ==> SleepInv(GetStep(s))
    ensures s.pc.Holding? ==> SleepInv(HoldingStep(s))
  {
  }

  lemma SleepSend(cfg: Config, s: State, now: int, remaining: bool, sequenceEnd: bool)
    requires SleepInv(s) && ControlInv(cfg, s) && !cfg.sequence
    ensures s.pc.Completing? ==> SleepInv(CompletingStep(cfg, s, now, remaining, sequenceEnd))
    ensures s.pc.Ready? ==> SleepInv(ReadyStep(cfg, s, now, sequenceEnd))
    ensures s.pc.Called? ==> SleepInv(CalledStep(s))
  {
  }

  lemma SleepWorker(cfg: Config, s: State, now: int, remaining: bool, sequenceEnd: bool)
    requires SleepInv(s) && ControlInv(cfg, s) && !cfg.sequence && WorkerEnabled(s)
    ensures SleepInv(WorkerStep(cfg, s, now, remaining, sequenceEnd))
  {
    if Quiet(s.pc) {
      SleepMove(cfg, s);
    } else if s.pc.Completing? || s.pc.Ready? || s.pc.Called? {
      SleepSend(cfg, s, now, remaining, sequenceEnd);
    } else {
      SleepOther(cfg, s, now, sequenceEnd);
    }
  }

  lemma SleepOutside(cfg: Config, s: State, l: Label)
    requires SleepInv(s) && Enabled(cfg, s, l) && !l.Worker? && Unlimited(l)
    ensures SleepInv(Next(cfg, s, l))
  {
    if l.Response? {
      RespondFrame(cfg, s, l.i, l.now, l.isNull, l.isFinal);
    }
  }

  lemma {:induction false} SleepRun(cfg: Config, execute: bool, ls: seq<Label>)
    requires !cfg.sequence && Run(cfg, execute, ls).Some?
    requires forall i :: 0 <= i < |ls| ==> Unlimited(ls[i])
    ensures SleepInv(Run(cfg, execute, ls).value)
  {
    if ls != [] {
      var s, l := Run(cfg, execute, ls[..|ls| - 1]).value, ls[|ls| - 1];
      SleepRun(cfg, execute, ls[..|ls| - 1]);
      ControlRun(cfg, execute, ls[..|ls| - 1]);
      if l.Worker? {
        SleepWorker(cfg, s, l.now, l.remaining, l.sequenceEnd);
      } else {
        SleepOutside(cfg, s, l);
      }
    }
  }

  /** On an ordinary model without request budget, a worker that sleeps without a
      pending wake-up has every id of its Reset in flight: no wake-up is lost. */
  lemma SleepsOnlyAtFullLoad(cfg: Config, execute: bool, ls: seq<Label>, s: State)
    requires !cfg.sequence && Run(cfg, execute, ls) == Some(s)
    requires forall i :: 0 <= i < |ls| ==> Unlimited(ls[i])
    requires s.pc.Waiting? && !s.notified
    ensures |s.inflight| == s.hist.resetCount
  {
    SleepRun(cfg, execute, ls);
    ModeRun(cfg, execute, ls);
    OutstandingBound(cfg, execute, ls, s);
  }
}
