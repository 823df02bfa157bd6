/** Context ids are conserved. In every interleaving, the ids in the tracker, in
    flight, in the worker's hand and dropped since the last Reset are together
    what that Reset put in, plus the ids still owed by callbacks that were late
    at that Reset, plus one per request sent outside the tracker to close a
    sequence. */
module ProtocolConservation {
  import opened Basics
  import opened WorkerProtocol
  import opened ProtocolControl
  import opened CtxIdTracker

  // ------------------------------------------------- ids of request lists

  lemma CtxIdsAppend(reqs: seq<Request>, r: Request)
    ensures CtxIds(reqs + [r]) == CtxIds(reqs) + multiset{r.ctx}
  {
    assert (reqs + [r])[..|reqs|] == reqs;
  }

  lemma {:induction false} CtxIdsUpdate(reqs: seq<Request>, i: nat, r: Request)
    requires i < |reqs| && r.ctx == reqs[i].ctx
    ensures CtxIds(reqs[i := r]) == CtxIds(reqs)
  {
    var n := |reqs| - 1;
    if i < n {
      CtxIdsUpdate(reqs[..n], i, r);
      assert reqs[i := r][..n] == reqs[..n][i := r];
    } else {
      assert reqs[i := r][..n] == reqs[..n];
    }
  }

  lemma {:induction false} CtxIdsRemove(reqs: seq<Request>, i: nat)
    requires i < |reqs|
    ensures CtxIds(RemoveAt(reqs, i)) + multiset{reqs[i].ctx} == CtxIds(reqs)
  {
    var n := |reqs| - 1;
    if i < n {
      var rest, gone, last := RemoveAt(reqs[..n], i), multiset{reqs[i].ctx}, multiset{reqs[n].ctx};
      calc {
        CtxIds(RemoveAt(reqs, i)) + gone;
        { assert RemoveAt(reqs, i) == rest + [reqs[n]]; CtxIdsAppend(rest, reqs[n]); }
        CtxIds(rest) + last + gone;
        CtxIds(rest) + gone + last;
        { CtxIdsRemove(reqs[..n], i); }
        CtxIds(reqs[..n]) + last;
      }
    } else {
      assert RemoveAt(reqs, i) == reqs[..n];
    }
  }

  lemma {:induction false} CtxIdsSize(reqs: seq<Request>)
    ensures |CtxIds(reqs)| == |reqs|
  {
    if reqs != [] {
      CtxIdsSize(reqs[..|reqs| - 1]);
    }
  }

  // ------------------------------------------------- the conserved quantity

  /** Whether the worker has taken `id` and not yet used it. */
  predicate Holds(pc: Pc, id: nat) {
    (pc.Holding? || pc.Ready?) && pc.ctx == id
  }

  /** How many copies of `id` are in the tracker, in flight, in the worker's hand
      or dropped. */
  function Tokens(s: State, id: nat): nat {
    multiset(s.free)[id] + CtxIds(s.inflight)[id] + One(Holds(s.pc, id)) + s.hist.dropped[id]
  }

  /** How many copies there have to be. */
  function Issued(cfg: Config, h: History, id: nat): nat {
    multiset(ResetIds(cfg.sequence, h.resetCount))[id] + h.late[id] + h.extra[id]
  }

  predicate Conserved(cfg: Config, s: State, id: nat) {
    Tokens(s, id) == Issued(cfg, s.hist, id)
  }

  // ------------------------------------------------- each step conserves

  lemma ConservedDispatch(cfg: Config, s: State, id: nat, c: nat, now: int, sequenceEnd: bool, after: After)
    requires c < |s.ctxs| && !s.timerActive
    requires Tokens(s, id) - One(Holds(s.pc, id)) + One(c == id) == Issued(cfg, s.hist, id)
    ensures Conserved(cfg, Dispatch(cfg, s, c, now, sequenceEnd, after), id)
  {
    CtxIdsAppend(s.inflight, NewRequest(c, s.ctxs[c].nextId, now, sequenceEnd));
  }

  lemma ConservedClose(cfg: Config, s: State, id: nat, i: nat, exiting: bool, now: int, sequenceEnd: bool)
    requires Conserved(cfg, s, id) && !Holds(s.pc, id) && i < |s.ctxs| && !s.timerActive
    ensures Conserved(cfg, CloseSequence(cfg, s, i, exiting, now, sequenceEnd), id)
  {
    var s' := s.(hist := s.hist.(extra := s.hist.extra + multiset{i}));
    assert Tokens(s', id) == Tokens(s, id);
    ConservedDispatch(cfg, s', id, i, now, sequenceEnd, ToCompleting(i + 1, exiting));
  }

  lemma ConservedCompleting(cfg: Config, s: State, id: nat, now: int, remaining: bool, sequenceEnd: bool)
    requires Conserved(cfg, s, id) && ControlInv(cfg, s) && s.pc.Completing?
    ensures Conserved(cfg, CompletingStep(cfg, s, now, remaining, sequenceEnd), id)
  {
    if cfg.sequence && s.pc.i < |s.ctxs| && remaining {
      ConservedClose(cfg, s, id, s.pc.i, s.pc.exiting, now, sequenceEnd);
    } else {
      SameTokens(cfg, s, CompletingStep(cfg, s, now, remaining, sequenceEnd), id);
    }
  }

  lemma ConservedResetting(cfg: Config, s: State, id: nat)
    requires s.pc.Resetting?
    ensures Conserved(cfg, ResettingStep(cfg, s), id)
  {
  }

  lemma ConservedTake(cfg: Config, s: State, id: nat)
    requires Conserved(cfg, s, id) && s.pc.GetId?
    ensures Conserved(cfg, GetStep(s), id)
  {
    if s.free != [] {
      assert s.free == [s.free[0]] + s.free[1..];
    }
  }

  lemma ConservedHolding(cfg: Config, s: State, id: nat)
    requires Conserved(cfg, s, id) && s.pc.Holding?
    ensures Conserved(cfg, HoldingStep(s), id)
  {
  }

  lemma ConservedReady(cfg: Config, s: State, id: nat, now: int, sequenceEnd: bool)
    requires Conserved(cfg, s, id) && ControlInv(cfg, s) && s.pc.Ready?
    ensures Conserved(cfg, ReadyStep(cfg, s, now, sequenceEnd), id)
  {
    if !(cfg.sequence && (s.earlyExit || !s.execute)) {
      ConservedDispatch(cfg, s, id, s.pc.ctx, now, sequenceEnd, ToSendLoop);
    }
  }

  lemma SameTokens(cfg: Config, s: State, t: State, id: nat)
    requires Conserved(cfg, s, id)
    requires t.free == s.free && t.inflight == s.inflight && t.hist == s.hist && Holds(t.pc, id) == Holds(s.pc, id)
    ensures Conserved(cfg, t, id)
  {
  }

  lemma ConservedCreate(cfg: Config, s: State, id: nat)
    requires Conserved(cfg, s, id) && s.pc.CreateCtx?
    ensures Conserved(cfg, CreateStep(cfg, s), id)
  {
    SameTokens(cfg, s, CreateStep(cfg, s), id);
  }

  lemma ConservedCalled(cfg: Config, s: State, id: nat)
    requires Conserved(cfg, s, id) && s.pc.Called?
    ensures Conserved(cfg, CalledStep(s), id)
  {
    SameTokens(cfg, s, CalledStep(s), id);
  }

  lemma ConservedMove(cfg: Config, s: State, id: nat)
    requires Conserved(cfg, s, id) && WorkerEnabled(s) && Quiet(s.pc)
    ensures Conserved(cfg, Move(cfg, s), id)
  {
  }

  lemma ConservedWorker(cfg: Config, s: State, id: nat, now: int, remaining: bool, sequenceEnd: bool)
    requires Conserved(cfg, s, id) && ControlInv(cfg, s) && WorkerEnabled(s)
    ensures Conserved(cfg, WorkerStep(cfg, s, now, remaining, sequenceEnd), id)
  {
    match s.pc
    case Completing(_, _) => ConservedCompleting(cfg, s, id, now, remaining, sequenceEnd);
    case Resetting(_) => ConservedResetting(cfg, s, id);
    case CreateCtx => ConservedCreate(cfg, s, id);
    case GetId => ConservedTake(cfg, s, id);
    case Holding(_) => ConservedHolding(cfg, s, id);
    case Ready(_) => ConservedReady(cfg, s, id, now, sequenceEnd);
    case Called(_, _) => ConservedCalled(cfg, s, id);
    case _ => ConservedMove(cfg, s, id);
  }

  lemma ConservedCallback(cfg: Config, s: State, id: nat, l: Label)
    requires Conserved(cfg, s, id) && Enabled(cfg, s, l)
    requires l.Response? || l.Decrement? || l.Restore?
    ensures Conserved(cfg, Next(cfg, s, l), id)
  {
    match l
    case Response(i, now, isNull, isFinal) =>
      RespondFrame(cfg, s, i, now, isNull, isFinal);
      CtxIdsUpdate(s.inflight, i, Respond(cfg, s, i, now, isNull, isFinal).inflight[i]);
    case Decrement(i) => CtxIdsUpdate(s.inflight, i, s.inflight[i].(phase := Decremented));
    case Restore(i) => CtxIdsRemove(s.inflight, i);
  }

  lemma ConservedNext(cfg: Config, s: State, id: nat, l: Label)
    requires Conserved(cfg, s, id) && ControlInv(cfg, s) && Enabled(cfg, s, l)
    ensures Conserved(cfg, Next(cfg, s, l), id)
  {
    match l
    case Worker(now, remaining, sequenceEnd) => ConservedWorker(cfg, s, id, now, remaining, sequenceEnd);
    case Response(_, _, _, _) => ConservedCallback(cfg, s, id, l);
    case Decrement(_) => ConservedCallback(cfg, s, id, l);
    case Restore(_) => ConservedCallback(cfg, s, id, l);
    case _ =>
  }

  /** Conservation of context ids over every run. */
  lemma {:induction false} ConservedRun(cfg: Config, execute: bool, ls: seq<Label>, id: nat)
    requires Run(cfg, execute, ls).Some?
    ensures Conserved(cfg, Run(cfg, execute, ls).value, id)
  {
    if ls != [] {
      ConservedRun(cfg, execute, ls[..|ls| - 1], id);
      ControlRun(cfg, execute, ls[..|ls| - 1]);
      ConservedNext(cfg, Run(cfg, execute, ls[..|ls| - 1]).value, id, ls[|ls| - 1]);
    }
  }
}
