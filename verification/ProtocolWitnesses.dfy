/** Runs that show the hypotheses of the protocol results are met, and that the
    stronger claims one might expect fail. */
module ProtocolWitnesses {
  import opened Basics
  import opened WorkerProtocol
  import opened ProtocolControl
  import opened ProtocolCounters
  import opened ProtocolBounds
  import opened ProtocolTightness
  import opened ProtocolProgress
  import opened CtxIdTracker

  ghost predicate Leads(cfg: Config, s: State, t: State) {
    exists ls :: Exec(cfg, s, ls) == Some(t)
  }

  lemma LeadsStep(cfg: Config, s: State, t: State, l: Label)
    requires Leads(cfg, s, t) && Enabled(cfg, t, l)
    ensures Leads(cfg, s, Next(cfg, t, l))
  {
    var ls :| Exec(cfg, s, ls) == Some(t);
    ExecOne(cfg, t, l);
    ExecConcat(cfg, s, ls, t, [l]);
    assert Exec(cfg, s, ls + [l]) == Some(Next(cfg, t, l));
  }

  lemma LeadsStart(cfg: Config, s: State)
    ensures Leads(cfg, s, s)
  {
    assert Exec(cfg, s, []) == Some(s);
  }

  lemma LeadsTrans(cfg: Config, s: State, t: State, u: State)
    requires Leads(cfg, s, t) && Leads(cfg, t, u)
    ensures Leads(cfg, s, u)
  {
    var a :| Exec(cfg, s, a) == Some(t);
    var b :| Exec(cfg, t, b) == Some(u);
    ExecConcat(cfg, s, a, t, b);
    assert Exec(cfg, s, a + b) == Some(u);
  }

  /** A worker whose step only moves it to another program point. */
  lemma LeadsMove(cfg: Config, s: State, t: State, u: State)
    requires Leads(cfg, s, t) && WorkerEnabled(t) && Quiet(t.pc) && Move(cfg, t) == u
    ensures Leads(cfg, s, u)
  {
    LeadsStep(cfg, s, t, STEP);
  }

  /** A new worker that is given a positive level starts to send with one id per
      unit of concurrency. */
  lemma FirstSend(cfg: Config, level: nat) returns (t: State)
    requires level > 0
    ensures Leads(cfg, Init(cfg, false), t)
    ensures CanSend(t) && t.free == ResetIds(cfg.sequence, level) && t.inflight == [] && !t.notified && !t.paused
    ensures t.quota == 0 && t.concurrency == t.hist.resetCount == level && t.hist.late == t.hist.dropped == multiset{}
    ensures |t.ctxs| == if cfg.sequence then level else 1
  {
    var s0 := Init(cfg, false);
    LeadsStart(cfg, s0);
    var s1 := Next(cfg, s0, SetLevel(level, 0));
    LeadsStep(cfg, s0, s0, SetLevel(level, 0));
    var s2 := s1.(execute := true);
    LeadsStep(cfg, s0, s1, ResumeWorkers);
    LeadsMove(cfg, s0, s2, s2.(pc := NoConc));
    LeadsMove(cfg, s0, s2.(pc := NoConc), s2.(pc := CreateCtx));
    var s3 := CreateStep(cfg, s2.(pc := CreateCtx));
    LeadsStep(cfg, s0, s2.(pc := CreateCtx), STEP);
    var s4 := ResettingStep(cfg, s3);
    LeadsStep(cfg, s0, s3, STEP);
    t := s4.(pc := SendLoop);
    LeadsMove(cfg, s0, s4, t);
  }

  /** From the send loop, a pause with nothing in flight puts the worker to
      sleep. */
  lemma PauseToSleep(cfg: Config, a: State) returns (t: State)
    requires cfg.sequence && CanSend(a) && !ShouldExit(a) && a.free != []
    ensures Leads(cfg, a, t)
    ensures t == a.(pc := Waiting, execute := false, timerActive := true)
  {
    var b := a.(pc := SendGate, execute := false);
    LeadsStart(cfg, a);
    LeadsMove(cfg, a, a, a.(pc := SendGate));
    LeadsStep(cfg, a, a.(pc := SendGate), PauseWorkers);
    LeadsMove(cfg, a, b, b.(pc := ExitCheck(1)));
    LeadsMove(cfg, a, b.(pc := ExitCheck(1)), b.(pc := WaitStart));
    t := b.(pc := Waiting, timerActive := true);
    LeadsMove(cfg, a, b.(pc := WaitStart), t);
  }

  /** A pause that arrives before the worker of a sequence model has sent its
      first request leaves it asleep for good, so that neither a pause nor an
      exit completes. */
  lemma EarlyPauseHangs(cfg: Config, level: nat) returns (t: State)
    requires cfg.sequence && level > 0
    ensures Leads(cfg, Init(cfg, false), t) && t.pc.Waiting? && !t.paused
    ensures forall ls, u :: Exec(cfg, t, ls) == Some(u) ==> u.pc.Waiting?
  {
    var a := FirstSend(cfg, level);
    t := PauseToSleep(cfg, a);
    LeadsTrans(cfg, Init(cfg, false), a, t);
    forall ls, u | Exec(cfg, t, ls) == Some(u)
      ensures u.pc.Waiting?
    {
      AsleepForGood(cfg, t, ls);
    }
  }

  // ------------------------------------------------- a late callback

  /** The final response of request i comes in and is counted down; its context
      id is still owed. */
  lemma CountDown(cfg: Config, s: State, i: nat) returns (t: State)
    requires HasPhase(s, i, Accepted)
    ensures Leads(cfg, s, t)
    ensures t == s.(inflight := t.inflight, ctxs := t.ctxs, records := t.records) && |t.ctxs| == |s.ctxs|
    ensures |t.inflight| == |s.inflight| && t.inflight == s.inflight[i := t.inflight[i]]
    ensures t.inflight[i].phase == Decremented && t.inflight[i].ctx == s.inflight[i].ctx
  {
    LeadsStart(cfg, s);
    LeadsStep(cfg, s, s, Response(i, 0, false, true));
    RespondFrame(cfg, s, i, 0, false, true);
    var m := Respond(cfg, s, i, 0, false, true);
    LeadsStep(cfg, s, m, Decrement(i));
    t := DecrementOngoing(m, i);
  }

  lemma LeadsClose(cfg: Config, s: State, u: State)
    requires s.pc.Completing? && CompletingStep(cfg, s, 0, false, false) == u
    ensures Leads(cfg, s, u)
  {
    LeadsStart(cfg, s);
    LeadsStep(cfg, s, s, STEP);
  }

  /** With no sequence left to close the worker walks on to the wait. */
  lemma {:induction false} CloseNothing(cfg: Config, s: State, i: nat)
    requires cfg.sequence && s.pc == Completing(i, false) && i <= |s.ctxs|
    ensures Leads(cfg, s, s.(pc := Draining(0, 0, false)))
    decreases |s.ctxs| - i
  {
    if i < |s.ctxs| {
      var m := s.(pc := Completing(i + 1, false));
      LeadsClose(cfg, s, m);
      CloseNothing(cfg, m, i + 1);
      LeadsTrans(cfg, s, m, m.(pc := Draining(0, 0, false)));
    } else {
      LeadsClose(cfg, s, s.(pc := Draining(0, 0, false)));
    }
  }

  /** With every counter at 0 the wait returns at once. */
  lemma {:induction false} DrainNothing(cfg: Config, s: State, i: nat)
    requires s.pc == Draining(i, 0, false) && i <= |s.ctxs|
    requires forall c :: 0 <= c < |s.ctxs| ==> s.ctxs[c].ongoing == 0
    ensures Leads(cfg, s, s.(pc := Resetting(true)))
    decreases |s.ctxs| - i
  {
    LeadsStart(cfg, s);
    if i < |s.ctxs| {
      var m := s.(pc := Draining(i + 1, 0, false));
      LeadsMove(cfg, s, s, m);
      DrainNothing(cfg, m, i + 1);
      LeadsTrans(cfg, s, m, s.(pc := Resetting(true)));
    } else {
      LeadsMove(cfg, s, s, s.(pc := Resetting(true)));
    }
  }

  /** A woken worker that finds execute_ off walks to the Reset. */
  lemma WakeToReset(cfg: Config, s: State)
    requires cfg.sequence && s.pc.Waiting? && s.notified && s.timerActive && !s.execute && !ShouldExit(s)
    requires forall c :: 0 <= c < |s.ctxs| ==> s.ctxs[c].ongoing == 0
    ensures Leads(cfg, s, s.(pc := Resetting(true), notified := false, timerActive := false))
  {
    var b := s.(notified := false, timerActive := false);
    LeadsStart(cfg, s);
    LeadsMove(cfg, s, s, b.(pc := ExitCheck(2)));
    LeadsMove(cfg, s, b.(pc := ExitCheck(2)), b.(pc := ExecOff));
    LeadsMove(cfg, s, b.(pc := ExecOff), b.(pc := Completing(0, false)));
    CloseNothing(cfg, b.(pc := Completing(0, false)), 0);
    LeadsTrans(cfg, s, b.(pc := Completing(0, false)), b.(pc := Draining(0, 0, false)));
    DrainNothing(cfg, b.(pc := Draining(0, 0, false)), 0);
    LeadsTrans(cfg, s, b.(pc := Draining(0, 0, false)), b.(pc := Resetting(true)));
  }

  /** After the Reset the worker pauses, is resumed at the same level and starts
      to send again. */
  lemma ResetToSend(cfg: Config, s: State) returns (t: State)
    requires cfg.sequence && s.pc == Resetting(true) && 0 < s.concurrency <= |s.ctxs| && !s.earlyExit && s.quota == 0
    requires !s.timerActive
    ensures Leads(cfg, s, t) && CanSend(t) && t.inflight == s.inflight && t.concurrency == |t.free| == s.concurrency
    ensures t.hist.resetCount == s.concurrency && t.hist.late == CtxIds(s.inflight) && t.hist.dropped == multiset{}
  {
    var a := ResettingStep(cfg, s);
    LeadsStart(cfg, s);
    LeadsStep(cfg, s, s, STEP);
    LeadsStep(cfg, s, a, ResumeWorkers);
    var b := a.(execute := true, paused := false);
    LeadsMove(cfg, s, a.(execute := true), b.(pc := NoConc));
    LeadsMove(cfg, s, b.(pc := NoConc), b.(pc := CreateCtx));
    LeadsStep(cfg, s, b.(pc := CreateCtx), STEP);
    t := b.(pc := SendLoop);
    LeadsMove(cfg, s, b.(pc := ExitCheck(0)), t);
  }

  ghost predicate AllCounted(s: State) {
    forall i :: 0 <= i < |s.inflight| ==> s.inflight[i].phase == Decremented
  }

  /** Two requests are out; one has been answered completely, the other has been
      counted down but still owes its id. */
  lemma OneLate(cfg: Config) returns (t: State)
    requires cfg.sequence
    ensures Leads(cfg, Init(cfg, false), t) && CanSend(t) && t.quota == 0 && t.free != [] && t.notified && !t.paused
    ensures |t.inflight| == 1 && AllCounted(t) && t.concurrency == 2 && |t.ctxs| == 2
  {
    var s0 := Init(cfg, false);
    var a := FirstSend(cfg, 2);
    var b := Sent(cfg, a);
    var c := Sent(cfg, b);
    LeadsTrans(cfg, s0, a, b);
    LeadsTrans(cfg, s0, b, c);
    var d := CountDown(cfg, c, 0);
    LeadsTrans(cfg, s0, c, d);
    LeadsStep(cfg, s0, d, Restore(0));
    var e := RestoreId(d, 0);
    t := CountDown(cfg, e, 0);
    LeadsTrans(cfg, s0, e, t);
  }

  lemma Sent(cfg: Config, s: State) returns (t: State)
    requires CanSend(s) && !ShouldExit(s) && s.free != []
    ensures Leads(cfg, s, t) && CanSend(t) && SameSetting(s, t) && t.free == s.free[1..]
    ensures t.inflight == s.inflight + [NewRequest(s.free[0], s.ctxs[s.free[0]].nextId, 0, false)]
    ensures t.concurrency == s.concurrency && t.paused == s.paused
  {
    var c := s.free[0];
    var m := s.(pc := Ready(c), free := s.free[1..]);
    TakeOne(cfg, s);
    assert Leads(cfg, s, m);
    t := FireOne(cfg, m);
    assert Leads(cfg, m, t);
    LeadsTrans(cfg, s, m, t);
  }

  lemma ReachedInvariants(cfg: Config, execute: bool, s: State, c: nat)
    requires Leads(cfg, Init(cfg, execute), s)
    ensures ControlInv(cfg, s) && CounterInv(s, c)
  {
    var ls :| Exec(cfg, Init(cfg, execute), ls) == Some(s);
    ControlRun(cfg, execute, ls);
    CounterRun(cfg, execute, ls, c);
  }

  /** When everything in flight has been counted down, the counters are 0. */
  lemma CounterAtRest(cfg: Config, s: State, c: nat)
    requires ControlInv(cfg, s) && CounterInv(s, c) && c < |s.ctxs| && !s.pc.Calling? && !s.pc.Called?
    requires AllCounted(s)
    ensures s.ctxs[c].ongoing == 0
  {
    PendingZero(s.inflight, |s.ctxs|);
    PendingSplit(s.inflight, 0, c, c + 1);
    PendingSplit(s.inflight, 0, c + 1, |s.ctxs|);
  }

  lemma AtRest(cfg: Config, execute: bool, s: State, c: nat)
    requires Leads(cfg, Init(cfg, execute), s) && s.pc.SendLoop? && c < |s.ctxs|
    requires AllCounted(s)
    ensures s.ctxs[c].ongoing == 0
  {
    ReachedInvariants(cfg, execute, s, c);
    CounterAtRest(cfg, s, c);
  }

  lemma AllAtRest(cfg: Config, execute: bool, s: State)
    requires Leads(cfg, Init(cfg, execute), s) && s.pc.SendLoop?
    requires AllCounted(s)
    ensures forall c :: 0 <= c < |s.ctxs| ==> s.ctxs[c].ongoing == 0
  {
    forall c | 0 <= c < |s.ctxs|
      ensures s.ctxs[c].ongoing == 0
    {
      AtRest(cfg, execute, s, c);
    }
  }

  /** From the send loop through a pause to the Reset. */
  lemma PauseToReset(cfg: Config, a: State) returns (t: State)
    requires cfg.sequence && CanSend(a) && !ShouldExit(a) && a.free != [] && a.notified
    requires forall c :: 0 <= c < |a.ctxs| ==> a.ctxs[c].ongoing == 0
    ensures Leads(cfg, a, t)
    ensures t == a.(pc := Resetting(true), execute := false, notified := false, timerActive := false)
  {
    var b := PauseToSleep(cfg, a);
    WakeToReset(cfg, b);
    t := b.(pc := Resetting(true), notified := false, timerActive := false);
    LeadsTrans(cfg, a, b, t);
  }

  /** The late callback survives the pause. */
  lemma LateReset(cfg: Config) returns (t: State)
    requires cfg.sequence
    ensures Leads(cfg, Init(cfg, false), t) && CanSend(t)
    ensures |t.inflight| == 1 && t.concurrency == |t.free| == 2
  {
    var s0 := Init(cfg, false);
    var a := OneLate(cfg);
    AllAtRest(cfg, false, a);
    var b := PauseToReset(cfg, a);
    LeadsTrans(cfg, s0, a, b);
    t := ResetToSend(cfg, b);
    LeadsTrans(cfg, s0, b, t);
  }

  /** A callback that counts a request down before the wait returns and hands its
      id back after the Reset gives the worker an id too many: a sequence model
      at level 2 can have 3 requests outstanding in its normal send loop. */
  lemma LateCallbackOverload(cfg: Config) returns (t: State)
    requires cfg.sequence
    ensures Leads(cfg, Init(cfg, false), t) && t.pc.SendLoop?
    ensures t.concurrency == 2 && Outstanding(t) == 3
  {
    var d := LateReset(cfg);
    ReachedInvariants(cfg, false, d, 0);
    var ls;
    ls, t := FullLoad(cfg, d);
    assert Leads(cfg, d, t);
    LeadsTrans(cfg, Init(cfg, false), d, t);
  }
}
