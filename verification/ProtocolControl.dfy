/** What holds of the worker's control state in every interleaving: it never
    takes an id from an empty tracker, never indexes a missing context, never
    starts an active idle timer and never stops an inactive one. */
module ProtocolControl {
  import opened WorkerProtocol

  /** The idle timer runs exactly while the worker is inside a backend call,
      waiting for responses, or waiting to exit; it is left running at the end. */
  predicate TimerOn(pc: Pc) {
    pc.Calling? || pc.Waiting? || (pc.Draining? && pc.exiting) || (pc.Done? && pc.drained)
  }

  predicate BeforeCreate(pc: Pc) {
    pc.Paused? || pc.NoConc? || pc.NoConcWait? || pc.CreateCtx? || pc.Done?
  }

  predicate UsesCtx(pc: Pc) {
    pc.Holding? || pc.Ready? || pc.Calling? || pc.Called?
  }

  predicate OnPausePath(pc: Pc) {
    (InExecOff(pc) && !pc.ExecOff?) ||
    ((pc.Calling? || pc.Called?) && pc.after.ToCompleting? && !pc.after.exiting)
  }

  predicate CreateResetting(pc: Pc) {
    pc.Resetting? && !pc.pausing
  }

  ghost predicate IdsBelow(ids: seq<nat>, n: nat) {
    forall i :: 0 <= i < |ids| ==> ids[i] < n
  }

  ghost predicate RequestsBelow(reqs: seq<Request>, n: nat) {
    forall i :: 0 <= i < |reqs| ==> reqs[i].ctx < n
  }

  ghost predicate ControlInv(cfg: Config, s: State) {
    && !s.pc.Crashed?
    && (s.timerActive <==> TimerOn(s.pc))
    && (s.pc.SendGate? || s.pc.GetId? ==> s.free != [])
    && RequestsBelow(s.inflight, |s.ctxs|)
    && (UsesCtx(s.pc) ==> s.pc.ctx < |s.ctxs|)
    && (s.ctxs == [] ==> InExecOff(s.pc) || BeforeCreate(s.pc))
    && (s.ctxs != [] && !CreateResetting(s.pc) ==> IdsBelow(s.free, |s.ctxs|))
    && (cfg.sequence && s.pc.CreateCtx? ==> s.concurrency > 0)
    && (cfg.sequence && s.ctxs != [] && !BeforeCreate(s.pc) ==> s.concurrency <= |s.ctxs|)
    && (!cfg.sequence ==> |s.ctxs| <= 1 && s.execute && !OnPausePath(s.pc))
  }

  lemma ControlDispatch(cfg: Config, s: State, c: nat, now: int, sequenceEnd: bool, after: After)
    requires ControlInv(cfg, s) && c < |s.ctxs| && !s.timerActive
    requires !BeforeCreate(s.pc) && !CreateResetting(s.pc)
    requires !cfg.sequence ==> !after.ToCompleting?
    ensures ControlInv(cfg, Dispatch(cfg, s, c, now, sequenceEnd, after))
  {
  }

  lemma ControlClose(cfg: Config, s: State, i: nat, exiting: bool, now: int, sequenceEnd: bool)
    requires ControlInv(cfg, s) && s.pc.Completing? && cfg.sequence && i < |s.ctxs|
    ensures ControlInv(cfg, CloseSequence(cfg, s, i, exiting, now, sequenceEnd))
  {
    ControlDispatch(cfg, s.(hist := s.hist.(extra := s.hist.extra + multiset{i})), i, now, sequenceEnd,
                    ToCompleting(i + 1, exiting));
  }

  lemma ControlCompleting(cfg: Config, s: State, now: int, remaining: bool, sequenceEnd: bool)
    requires ControlInv(cfg, s) && s.pc.Completing?
    ensures ControlInv(cfg, CompletingStep(cfg, s, now, remaining, sequenceEnd))
  {
    if cfg.sequence && s.pc.i < |s.ctxs| && remaining {
      ControlClose(cfg, s, s.pc.i, s.pc.exiting, now, sequenceEnd);
    }
  }

  lemma ControlResetting(cfg: Config, s: State)
    requires ControlInv(cfg, s) && s.pc.Resetting?
    ensures ControlInv(cfg, ResettingStep(cfg, s))
  {
  }

  lemma ControlCreate(cfg: Config, s: State)
    requires ControlInv(cfg, s) && s.pc.CreateCtx?
    ensures ControlInv(cfg, CreateStep(cfg, s))
  {
  }

  lemma ControlTake(cfg: Config, s: State)
    requires ControlInv(cfg, s)
    ensures s.pc.GetId? ==> ControlInv(cfg, GetStep(s))
    ensures s.pc.Holding? ==> ControlInv(cfg, HoldingStep(s))
  {
  }

  lemma ControlReady(cfg: Config, s: State, now: int, sequenceEnd: bool)
    requires ControlInv(cfg, s) && s.pc.Ready?
    ensures ControlInv(cfg, ReadyStep(cfg, s, now, sequenceEnd))
  {
    if !(cfg.sequence && (s.earlyExit || !s.execute)) {
      ControlDispatch(cfg, s, s.pc.ctx, now, sequenceEnd, ToSendLoop);
    }
  }

  lemma ControlCalled(cfg: Config, s: State)
    requires ControlInv(cfg, s) && s.pc.Called?
    ensures ControlInv(cfg, CalledStep(s))
  {
  }

  /** What counting a request up leaves alone. */
  lemma CalledFrame(s: State)
    requires s.pc.Called?
    ensures var t := CalledStep(s);
            && t == s.(ctxs := t.ctxs, pc := t.pc) && |t.ctxs| == |s.ctxs|
            && (t.pc.SendLoop? || t.pc.Completing? || t.pc.Crashed?)
  {
  }

  lemma ControlMove(cfg: Config, s: State)
    requires ControlInv(cfg, s) && WorkerEnabled(s) && Quiet(s.pc)
    ensures ControlInv(cfg, Move(cfg, s))
  {
  }

  lemma ControlWorker(cfg: Config, s: State, now: int, remaining: bool, sequenceEnd: bool)
    requires ControlInv(cfg, s) && WorkerEnabled(s)
    ensures ControlInv(cfg, WorkerStep(cfg, s, now, remaining, sequenceEnd))
  {
    match s.pc
    case Completing(_, _) => ControlCompleting(cfg, s, now, remaining, sequenceEnd);
    case Resetting(_) => ControlResetting(cfg, s);
    case CreateCtx => ControlCreate(cfg, s);
    case GetId => ControlTake(cfg, s);
    case Holding(_) => ControlTake(cfg, s);
    case Ready(_) => ControlReady(cfg, s, now, sequenceEnd);
    case Called(_, _) => ControlCalled(cfg, s);
    case _ => ControlMove(cfg, s);
  }

  /** The steps of the worker that neither send a request, nor count one, nor
      create a context. */
  predicate Passive(pc: Pc) {
    !pc.Ready? && !pc.Completing? && !pc.CreateCtx? && !pc.Called?
  }

  /** What a passive step leaves alone. */
  ghost predicate PassiveFrame(s: State, t: State) {
    && t.ctxs == s.ctxs && t.inflight == s.inflight && t.records == s.records && t.numSent == s.numSent
    && t.hist.sent == s.hist.sent && t.hist.peak == s.hist.peak && t.hist.taken == s.hist.taken
    && t.hist.levels == s.hist.levels && t.hist.collects == s.hist.collects
    && !t.pc.Calling?
    && (t.pc.Called? <==> s.pc.Calling?)
    && (t.pc.Called? ==> t.pc.ctx == s.pc.ctx)
  }

  lemma PassiveMove(cfg: Config, s: State)
    requires ControlInv(cfg, s) && Quiet(s.pc)
    ensures PassiveFrame(s, Move(cfg, s))
  {
  }

  lemma PassiveStep(cfg: Config, s: State, now: int, remaining: bool, sequenceEnd: bool)
    requires ControlInv(cfg, s) && WorkerEnabled(s) && Passive(s.pc)
    ensures PassiveFrame(s, WorkerStep(cfg, s, now, remaining, sequenceEnd))
  {
    if Quiet(s.pc) {
      PassiveMove(cfg, s);
    }
  }

  /** What a response leaves alone. */
  lemma RespondFrame(cfg: Config, s: State, i: nat, now: int, isNull: bool, isFinal: bool)
    requires i < |s.inflight| && s.inflight[i].ctx < |s.ctxs|
    ensures var t := Respond(cfg, s, i, now, isNull, isFinal);
            && t == s.(inflight := t.inflight, ctxs := t.ctxs, records := t.records)
            && |t.ctxs| == |s.ctxs| && |t.inflight| == |s.inflight|
            && (forall c :: 0 <= c < |s.ctxs| ==> t.ctxs[c] == s.ctxs[c].(reqMap := t.ctxs[c].reqMap))
            && t.inflight == s.inflight[i := t.inflight[i]]
            && t.inflight[i].ctx == s.inflight[i].ctx && t.inflight[i].rid == s.inflight[i].rid
            && t.inflight[i].sentAt == s.inflight[i].sentAt && t.inflight[i].ends == s.inflight[i].ends
            && (t.inflight[i].phase == s.inflight[i].phase || t.inflight[i].phase == Recorded)
  {
  }

  lemma ControlResponse(cfg: Config, s: State, i: nat, now: int, isNull: bool, isFinal: bool)
    requires ControlInv(cfg, s) && HasPhase(s, i, Accepted)
    ensures ControlInv(cfg, Respond(cfg, s, i, now, isNull, isFinal))
  {
    RespondFrame(cfg, s, i, now, isNull, isFinal);
  }

  lemma ControlDecrement(cfg: Config, s: State, i: nat)
    requires ControlInv(cfg, s) && HasPhase(s, i, Recorded)
    ensures ControlInv(cfg, DecrementOngoing(s, i))
  {
  }

  lemma ControlRestore(cfg: Config, s: State, i: nat)
    requires ControlInv(cfg, s) && Enabled(cfg, s, Restore(i))
    ensures ControlInv(cfg, Next(cfg, s, Restore(i)))
  {
  }

  lemma ControlMain(cfg: Config, s: State, l: Label)
    requires ControlInv(cfg, s) && Enabled(cfg, s, l)
    requires !l.Worker? && !l.Response? && !l.Decrement? && !l.Restore?
    ensures ControlInv(cfg, Next(cfg, s, l))
  {
  }

  lemma ControlNext(cfg: Config, s: State, l: Label)
    requires ControlInv(cfg, s) && Enabled(cfg, s, l)
    ensures ControlInv(cfg, Next(cfg, s, l))
  {
    match l
    case Worker(now, remaining, sequenceEnd) => ControlWorker(cfg, s, now, remaining, sequenceEnd);
    case Response(i, now, isNull, isFinal) => ControlResponse(cfg, s, i, now, isNull, isFinal);
    case Decrement(i) => ControlDecrement(cfg, s, i);
    case Restore(i) => ControlRestore(cfg, s, i);
    case _ => ControlMain(cfg, s, l);
  }

  lemma {:induction false} ControlRun(cfg: Config, execute: bool, ls: seq<Label>)
    requires Run(cfg, execute, ls).Some?
    ensures ControlInv(cfg, Run(cfg, execute, ls).value)
  {
    if ls != [] {
      ControlRun(cfg, execute, ls[..|ls| - 1]);
      ControlNext(cfg, Run(cfg, execute, ls[..|ls| - 1]).value, ls[|ls| - 1]);
    }
  }
}
