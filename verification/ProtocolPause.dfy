/** Whether a resumed worker of a sequence model will answer the next pause. The
    manager changes a level only after every worker has reported its pause, so a
    worker that never does stops the manager for good. */
module ProtocolPause {
  import opened Basics
  import opened WorkerProtocol
  import opened ProtocolControl
  import opened ProtocolTightness
  import opened ProtocolWitnesses

  // ------------------------------------------------- what every run keeps

  predicate BetweenLevels(pc: Pc) {
    pc.Paused? || pc.NoConc? || pc.NoConcWait?
  }

  /** Until an exit signal, a worker that has contexts works at a positive level,
      except between a pause and its next level; and a paused one has ids. */
  predicate LevelInv(cfg: Config, s: State) {
    cfg.sequence && !s.earlyExit && s.ctxs != [] ==>
      && (s.concurrency > 0 || BetweenLevels(s.pc))
      && (s.pc.Paused? ==> s.free != [])
  }

  lemma LevelMove(cfg: Config, s: State)
    requires LevelInv(cfg, s) && ControlInv(cfg, s) && Quiet(s.pc) && WorkerEnabled(s)
    ensures LevelInv(cfg, Move(cfg, s))
  {
  }

  lemma LevelSend(cfg: Config, s: State, now: int, remaining: bool, sequenceEnd: bool)
    requires LevelInv(cfg, s) && ControlInv(cfg, s)
    ensures s.pc.Completing? ==> LevelInv(cfg, CompletingStep(cfg, s, now, remaining, sequenceEnd))
    ensures s.pc.Ready? ==> LevelInv(cfg, ReadyStep(cfg, s, now, sequenceEnd))
  {
  }

  lemma LevelOther(cfg: Config, s: State)
    requires LevelInv(cfg, s) && ControlInv(cfg, s)
    ensures s.pc.Resetting? ==> LevelInv(cfg, ResettingStep(cfg, s))
    ensures s.pc.CreateCtx? ==> LevelInv(cfg, CreateStep(cfg, s))
    ensures s.pc.GetId? ==> LevelInv(cfg, GetStep(s))
    ensures s.pc.Holding? ==> LevelInv(cfg, HoldingStep(s))
  {
  }

  lemma LevelCalled(cfg: Config, s: State)
    requires LevelInv(cfg, s) && s.pc.Called?
    ensures LevelInv(cfg, CalledStep(s))
  {
  }

  lemma LevelWorker(cfg: Config, s: State, now: int, remaining: bool, sequenceEnd: bool)
    requires LevelInv(cfg, s) && ControlInv(cfg, s) && WorkerEnabled(s)
    ensures LevelInv(cfg, WorkerStep(cfg, s, now, remaining, sequenceEnd))
  {
    if Quiet(s.pc) {
      LevelMove(cfg, s);
    } else if s.pc.Completing? || s.pc.Ready? {
      LevelSend(cfg, s, now, remaining, sequenceEnd);
    } else if s.pc.Called? {
      LevelCalled(cfg, s);
    } else {
      LevelOther(cfg, s);
    }
  }

  lemma LevelOutside(cfg: Config, s: State, l: Label)
    requires LevelInv(cfg, s) && Enabled(cfg, s, l) && !l.Worker?
    ensures LevelInv(cfg, Next(cfg, s, l))
  {
    if l.Response? {
      RespondFrame(cfg, s, l.i, l.now, l.isNull, l.isFinal);
    }
  }

  lemma {:induction false} LevelRun(cfg: Config, execute: bool, ls: seq<Label>)
    requires Run(cfg, execute, ls).Some?
    ensures LevelInv(cfg, Run(cfg, execute, ls).value)
  {
    if ls != [] {
      var s, l := Run(cfg, execute, ls[..|ls| - 1]).value, ls[|ls| - 1];
      LevelRun(cfg, execute, ls[..|ls| - 1]);
      ControlRun(cfg, execute, ls[..|ls| - 1]);
      if l.Worker? {
        LevelWorker(cfg, s, l.now, l.remaining, l.sequenceEnd);
      } else {
        LevelOutside(cfg, s, l);
      }
    }
  }

  // ------------------------------------------------- exit signals

  lemma ExitFlagWorker(cfg: Config, s: State, now: int, remaining: bool, sequenceEnd: bool)
    requires WorkerEnabled(s)
    ensures WorkerStep(cfg, s, now, remaining, sequenceEnd).earlyExit == s.earlyExit
  {
    if Quiet(s.pc) {
      ExitFlagMove(cfg, s);
    } else if s.pc.Completing? || s.pc.Ready? {
      ExitFlagSend(cfg, s, now, remaining, sequenceEnd);
    }
  }

  lemma ExitFlagMove(cfg: Config, s: State)
    ensures Move(cfg, s).earlyExit == s.earlyExit
  {
  }

  lemma ExitFlagSend(cfg: Config, s: State, now: int, remaining: bool, sequenceEnd: bool)
    ensures s.pc.Completing? ==> CompletingStep(cfg, s, now, remaining, sequenceEnd).earlyExit == s.earlyExit
    ensures s.pc.Ready? ==> ReadyStep(cfg, s, now, sequenceEnd).earlyExit == s.earlyExit
  {
  }

  lemma ExitFlagNext(cfg: Config, s: State, l: Label)
    requires Enabled(cfg, s, l)
    ensures Next(cfg, s, l).earlyExit == (s.earlyExit || l.SignalExit?)
  {
    if l.Worker? {
      ExitFlagWorker(cfg, s, l.now, l.remaining, l.sequenceEnd);
    } else if l.Response? {
      RespondFrame(cfg, s, l.i, l.now, l.isNull, l.isFinal);
    }
  }

  /** A run that ends without the exit flag has no exit signal in it. */
  lemma {:induction false} NoSignal(cfg: Config, s: State, ls: seq<Label>, t: State)
    requires Exec(cfg, s, ls) == Some(t)
    ensures t.earlyExit <==> s.earlyExit || SignalExit in ls
  {
    if ls != [] {
      var k := |ls| - 1;
      NoSignal(cfg, s, ls[..k], Exec(cfg, s, ls[..k]).value);
      ExitFlagNext(cfg, Exec(cfg, s, ls[..k]).value, ls[k]);
      assert ls == ls[..k] + [ls[k]];
    }
  }

  // ------------------------------------------------- level 0

  /** Between a pause and a level of 0 the worker parks. */
  predicate Parked(s: State) {
    (s.pc.NoConc? || s.pc.NoConcWait?) && s.concurrency == 0 && !s.earlyExit && !s.paused
  }

  lemma ParkedNext(cfg: Config, s: State, l: Label)
    requires cfg.sequence && Parked(s) && Enabled(cfg, s, l) && !l.SignalExit?
    ensures Parked(Next(cfg, s, l))
  {
    if l.Response? {
      RespondFrame(cfg, s, l.i, l.now, l.isNull, l.isFinal);
    }
  }

  /** A parked worker of a sequence model stays parked and unpaused until an exit
      signal: its level cannot be raised, because the manager first waits for
      it to pause. */
  lemma {:induction false} ParkedNeverPauses(cfg: Config, s: State, ls: seq<Label>, t: State)
    requires cfg.sequence && Parked(s) && Exec(cfg, s, ls) == Some(t) && SignalExit !in ls
    ensures Parked(t)
  {
    if ls != [] {
      var k := |ls| - 1;
      var m := Exec(cfg, s, ls[..k]).value;
      ParkedNeverPauses(cfg, s, ls[..k], m);
      ParkedNext(cfg, m, ls[k]);
    }
  }

  // ------------------------------------------------- positive levels

  /** The callback of one request comes as far as the decrement. */
  lemma CountOne(cfg: Config, s: State, i: nat) returns (t: State)
    requires i < |s.inflight| && s.inflight[i].ctx < |s.ctxs|
    ensures Leads(cfg, s, t)
    ensures t == s.(inflight := t.inflight, ctxs := t.ctxs, records := t.records) && |t.ctxs| == |s.ctxs|
    ensures |t.inflight| == |s.inflight| && t.inflight == s.inflight[i := t.inflight[i]]
    ensures t.inflight[i].phase == Decremented && t.inflight[i].ctx == s.inflight[i].ctx
  {
    LeadsStart(cfg, s);
    if s.inflight[i].phase == Accepted {
      t := CountDown(cfg, s, i);
    } else if s.inflight[i].phase == Recorded {
      t := DecrementOngoing(s, i);
      LeadsStep(cfg, s, s, Decrement(i));
    } else {
      t := s;
    }
  }

  /** The callbacks of all requests from number i on come as far as the decrement. */
  lemma {:induction false} CountAll(cfg: Config, s: State, i: nat) returns (t: State)
    requires i <= |s.inflight| && RequestsBelow(s.inflight, |s.ctxs|)
    requires forall j :: 0 <= j < i ==> s.inflight[j].phase == Decremented
    ensures Leads(cfg, s, t) && AllCounted(t)
    ensures t == s.(inflight := t.inflight, ctxs := t.ctxs, records := t.records) && |t.ctxs| == |s.ctxs|
    decreases |s.inflight| - i
  {
    if i == |s.inflight| {
      LeadsStart(cfg, s);
      t := s;
    } else {
      var m := CountOne(cfg, s, i);
      t := CountAll(cfg, m, i + 1);
      LeadsTrans(cfg, s, m, t);
    }
  }

  /** From the next level to the send loop. */
  lemma LevelToSend(cfg: Config, s: State) returns (t: State)
    requires cfg.sequence && s.pc.NoConc? && s.concurrency > 0 && s.execute && !ShouldExit(s)
    requires !s.paused && !s.timerActive && (s.concurrency <= |s.ctxs| ==> s.free != [])
    ensures Leads(cfg, s, t) && t.pc.SendLoop? && t.free != [] && t.ctxs != [] && t.inflight == s.inflight
    ensures t.execute && !ShouldExit(t) && !t.timerActive && t.concurrency == s.concurrency
  {
    LeadsStart(cfg, s);
    var a := s.(pc := CreateCtx);
    LeadsMove(cfg, s, s, a);
    LeadsStep(cfg, s, a, STEP);
    var b := CreateStep(cfg, a);
    if s.concurrency > |s.ctxs| {
      var c := ResettingStep(cfg, b);
      LeadsStep(cfg, s, b, STEP);
      t := c.(pc := SendLoop);
      LeadsMove(cfg, s, c, t);
    } else {
      t := b.(pc := SendLoop);
      LeadsMove(cfg, s, b, t);
    }
  }

  /** One request is sent, answered and its id handed back, and the number of sent
      requests is collected. */
  lemma OneRoundTrip(cfg: Config, s: State) returns (t: State)
    requires CanSend(s) && !ShouldExit(s) && s.free != [] && AllCounted(s)
    ensures Leads(cfg, s, t) && CanSend(t) && !ShouldExit(t) && t.free != [] && t.notified && AllCounted(t)
    ensures t.concurrency == s.concurrency && |t.ctxs| == |s.ctxs|
  {
    var n := |s.inflight|;
    var a := Sent(cfg, s);
    var b := CountDown(cfg, a, n);
    LeadsTrans(cfg, s, a, b);
    LeadsStep(cfg, s, b, Restore(n));
    var c := RestoreId(b, n);
    assert c.inflight == s.inflight;
    LeadsStep(cfg, s, c, CollectSent);
    t := Next(cfg, c, CollectSent);
  }

  /** From the send loop with everything counted down to a pause. */
  lemma SendToPause(cfg: Config, execute: bool, s: State) returns (t: State)
    requires cfg.sequence && Leads(cfg, Init(cfg, execute), s)
    requires CanSend(s) && !ShouldExit(s) && s.free != [] && AllCounted(s)
    ensures Leads(cfg, s, t) && t.pc.Paused? && t.paused && !t.execute && !t.earlyExit
    ensures !t.timerActive && |t.ctxs| == |s.ctxs|
  {
    var a := OneRoundTrip(cfg, s);
    LeadsTrans(cfg, Init(cfg, execute), s, a);
    AllAtRest(cfg, execute, a);
    var b := PauseToReset(cfg, a);
    LeadsTrans(cfg, s, a, b);
    LeadsStep(cfg, s, b, STEP);
    t := ResettingStep(cfg, b);
  }

  /** A worker resumed at a positive level can answer the next pause. */
  lemma AnswersPause(cfg: Config, execute: bool, ls: seq<Label>, p: State) returns (t: State)
    requires cfg.sequence && Run(cfg, execute, ls) == Some(p)
    requires p.pc.Paused? && p.execute && !p.earlyExit && p.concurrency > 0
    ensures Leads(cfg, Move(cfg, p), t) && t.paused && !t.earlyExit
  {
    var s0 := Init(cfg, execute);
    ControlRun(cfg, execute, ls);
    LevelRun(cfg, execute, ls);
    assert Leads(cfg, s0, p);
    var a := Move(cfg, p);
    LeadsMove(cfg, s0, p, a);
    var b := CountAll(cfg, a, 0);
    LeadsTrans(cfg, s0, a, b);
    LeadsStep(cfg, a, b, CollectSent);
    var b' := Next(cfg, b, CollectSent);
    var c := LevelToSend(cfg, b');
    LeadsTrans(cfg, a, b', c);
    LeadsTrans(cfg, s0, a, c);
    ReachedInvariants(cfg, execute, c, 0);
    t := SendToPause(cfg, execute, c);
    LeadsTrans(cfg, a, c, t);
  }

  /** For every reachable moment at which a worker of a sequence model, with or
      without a request budget, leaves a pause: it can answer another pause
      without an exit signal if and only if its level is positive. */
  lemma PauseAnsweredIff(cfg: Config, execute: bool, ls: seq<Label>, p: State)
    requires cfg.sequence && Run(cfg, execute, ls) == Some(p)
    requires p.pc.Paused? && p.execute && !p.earlyExit
    ensures (exists more, t :: SignalExit !in more && Exec(cfg, Move(cfg, p), more) == Some(t) && t.paused)
            <==> p.concurrency > 0
  {
    if p.concurrency > 0 {
      var t := AnswersPause(cfg, execute, ls, p);
      var more :| Exec(cfg, Move(cfg, p), more) == Some(t);
      NoSignal(cfg, Move(cfg, p), more, t);
    } else if exists more, t :: SignalExit !in more && Exec(cfg, Move(cfg, p), more) == Some(t) && t.paused {
      var more, t :| SignalExit !in more && Exec(cfg, Move(cfg, p), more) == Some(t) && t.paused;
      ParkedNeverPauses(cfg, Move(cfg, p), more, t);
    }
  }

  /** A run that parks a worker: it has sent a request, pauses, is given level 0
      because the total level has dropped below the number of threads, and is
      resumed. No continuation without an exit signal pauses it again. */
  lemma ParkedForGood(cfg: Config) returns (t: State)
    requires cfg.sequence
    ensures Leads(cfg, Init(cfg, false), t) && t.pc.NoConcWait? && t.ctxs != [] && t.concurrency == 0
    ensures forall ls, u :: SignalExit !in ls && Exec(cfg, t, ls) == Some(u) ==> !u.paused
  {
    var s0 := Init(cfg, false);
    var a := FirstSend(cfg, 1);
    var b := SendToPause(cfg, false, a);
    LeadsTrans(cfg, s0, a, b);
    LeadsStep(cfg, s0, b, SetLevel(0, 0));
    var c := Next(cfg, b, SetLevel(0, 0));
    LeadsStep(cfg, s0, c, ResumeWorkers);
    var d := c.(execute := true);
    LeadsMove(cfg, s0, d, d.(pc := NoConc, paused := false));
    t := d.(pc := NoConcWait, paused := false);
    LeadsMove(cfg, s0, d.(pc := NoConc, paused := false), t);
    forall ls, u | SignalExit !in ls && Exec(cfg, t, ls) == Some(u)
      ensures !u.paused
    {
      ParkedNeverPauses(cfg, t, ls, u);
    }
  }
}
