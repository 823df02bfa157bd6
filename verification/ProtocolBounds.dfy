/** How many requests a worker keeps outstanding. The limit is what the last
    Reset put in the tracker plus the callbacks that were late at that Reset,
    not the current concurrency level, and the limit is reached. */
module ProtocolBounds {
  import opened Basics
  import opened WorkerProtocol
  import opened ProtocolControl
  import opened ProtocolConservation
  import opened ProtocolCounters
  import opened ProtocolDrain
  import opened CtxIdTracker

  // ------------------------------------------------- closing sequences

  /** The worker has begun to close its sequences, for a pause or an exit. */
  predicate Closing(pc: Pc) {
    match pc
    case Completing(_, _) => true
    case Draining(_, _, _) => true
    case Resetting(pausing) => pausing
    case ExitTimer => true
    case Done(_) => true
    case Calling(_, after) => after.ToCompleting?
    case Called(_, after) => after.ToCompleting?
    case _ => false
  }

  /** Requests outside the tracker are sent only then. On an ordinary model none
      are, and the tracker is reset exactly once, when nothing is in flight. */
  predicate ModeInv(cfg: Config, s: State) {
    && (s.hist.extra == multiset{} || Closing(s.pc))
    && (!cfg.sequence ==>
          && s.hist.extra == s.hist.late == multiset{}
          && (if s.ctxs == [] || s.pc.Resetting? then s.hist.resets == 0 && s.inflight == [] else s.hist.resets == 1))
  }

  lemma ModeMove(cfg: Config, s: State)
    requires ModeInv(cfg, s) && ControlInv(cfg, s) && Quiet(s.pc) && WorkerEnabled(s)
    ensures ModeInv(cfg, Move(cfg, s))
  {
  }

  lemma ModeReady(cfg: Config, s: State, now: int, sequenceEnd: bool)
    requires ModeInv(cfg, s) && ControlInv(cfg, s) && s.pc.Ready?
    ensures ModeInv(cfg, ReadyStep(cfg, s, now, sequenceEnd))
  {
  }

  lemma ModeCompleting(cfg: Config, s: State, now: int, remaining: bool, sequenceEnd: bool)
    requires ModeInv(cfg, s) && ControlInv(cfg, s) && s.pc.Completing?
    ensures ModeInv(cfg, CompletingStep(cfg, s, now, remaining, sequenceEnd))
  {
    if cfg.sequence && s.pc.i < |s.ctxs| && remaining {
      ModeClose(cfg, s, s.pc.i, s.pc.exiting, now, sequenceEnd);
    }
  }

  lemma ModeClose(cfg: Config, s: State, i: nat, exiting: bool, now: int, sequenceEnd: bool)
    requires cfg.sequence && i < |s.ctxs| && !s.timerActive
    ensures ModeInv(cfg, CloseSequence(cfg, s, i, exiting, now, sequenceEnd))
  {
    var t := CloseSequence(cfg, s, i, exiting, now, sequenceEnd);
    assert t.pc == Calling(i, ToCompleting(i + 1, exiting));
  }

  lemma ModeLevel(cfg: Config, s: State)
    requires ModeInv(cfg, s) && ControlInv(cfg, s)
    ensures s.pc.CreateCtx? ==> ModeInv(cfg, CreateStep(cfg, s))
    ensures s.pc.Resetting? ==> ModeInv(cfg, ResettingStep(cfg, s))
  {
  }

  lemma ModeOther(cfg: Config, s: State)
    requires ModeInv(cfg, s) && ControlInv(cfg, s)
    ensures s.pc.GetId? ==> ModeInv(cfg, GetStep(s))
    ensures s.pc.Holding? ==> ModeInv(cfg, HoldingStep(s))
    ensures s.pc.Called? ==> ModeInv(cfg, CalledStep(s))
  {
  }

  lemma ModeWorker(cfg: Config, s: State, now: int, remaining: bool, sequenceEnd: bool)
    requires ModeInv(cfg, s) && ControlInv(cfg, s) && WorkerEnabled(s)
    ensures ModeInv(cfg, WorkerStep(cfg, s, now, remaining, sequenceEnd))
  {
    if Quiet(s.pc) {
      ModeMove(cfg, s);
    } else if s.pc.Completing? {
      ModeCompleting(cfg, s, now, remaining, sequenceEnd);
    } else if s.pc.Ready? {
      ModeReady(cfg, s, now, sequenceEnd);
    } else if s.pc.CreateCtx? || s.pc.Resetting? {
      ModeLevel(cfg, s);
    } else {
      ModeOther(cfg, s);
    }
  }

  lemma ModeCallback(cfg: Config, s: State, l: Label)
    requires ModeInv(cfg, s) && Enabled(cfg, s, l) && !l.Worker?
    ensures ModeInv(cfg, Next(cfg, s, l))
  {
    if l.Response? {
      RespondFrame(cfg, s, l.i, l.now, l.isNull, l.isFinal);
    }
  }

  lemma {:induction false} ModeRun(cfg: Config, execute: bool, ls: seq<Label>)
    requires Run(cfg, execute, ls).Some?
    ensures ModeInv(cfg, Run(cfg, execute, ls).value)
  {
    if ls != [] {
      var s, l := Run(cfg, execute, ls[..|ls| - 1]).value, ls[|ls| - 1];
      ModeRun(cfg, execute, ls[..|ls| - 1]);
      ControlRun(cfg, execute, ls[..|ls| - 1]);
      if l.Worker? {
        ModeWorker(cfg, s, l.now, l.remaining, l.sequenceEnd);
      } else {
        ModeCallback(cfg, s, l);
      }
    }
  }

  // ------------------------------------------------- upper bounds

  function HeldCount(pc: Pc): nat {
    if pc.Holding? || pc.Ready? then 1 else 0
  }

  lemma SameSize(a: multiset<nat>, b: multiset<nat>)
    requires forall id: nat :: a[id] == b[id]
    ensures |a| == |b|
  {
    assert a == b;
  }

  function Held(pc: Pc): (held: multiset<nat>)
    ensures |held| == HeldCount(pc)
    ensures forall id: nat :: held[id] == One(Holds(pc, id))
  {
    if pc.Holding? || pc.Ready? then multiset{pc.ctx} else multiset{}
  }

  /** Conservation of ids, added up over all ids. */
  lemma TokensAddUp(cfg: Config, s: State)
    requires forall id: nat :: Conserved(cfg, s, id)
    ensures |s.free| + |s.inflight| + HeldCount(s.pc) + |s.hist.dropped|
            == s.hist.resetCount + |s.hist.late| + |s.hist.extra|
  {
    var issued := multiset(ResetIds(cfg.sequence, s.hist.resetCount));
    var have := multiset(s.free) + CtxIds(s.inflight) + Held(s.pc) + s.hist.dropped;
    var owed := issued + s.hist.late + s.hist.extra;
    forall id: nat
      ensures have[id] == owed[id]
    {
      assert Conserved(cfg, s, id);
    }
    SameSize(have, owed);
    CtxIdsSize(s.inflight);
  }

  /** Requests whose final callback has not yet counted them down. */
  function Outstanding(s: State): nat {
    Pending(s.inflight, 0, |s.ctxs|)
  }

  /** In every run: the ids add up; while the worker is not closing its sequences
      it has no more requests outstanding than the last Reset allowed plus the
      callbacks late at that Reset; and if none was late, no two requests of a
      sequence model share a context. */
  lemma OutstandingBound(cfg: Config, execute: bool, ls: seq<Label>, s: State)
    requires Run(cfg, execute, ls) == Some(s)
    ensures |s.free| + |s.inflight| + HeldCount(s.pc) + |s.hist.dropped|
            == s.hist.resetCount + |s.hist.late| + |s.hist.extra|
    ensures !Closing(s.pc) ==> Outstanding(s) <= |s.inflight| <= s.hist.resetCount + |s.hist.late|
    ensures !Closing(s.pc) && cfg.sequence && s.hist.late == multiset{} ==>
              forall c: nat :: CtxIds(s.inflight)[c] + multiset(s.free)[c] <= if c < s.hist.resetCount then 1 else 0
  {
    forall id: nat
      ensures Conserved(cfg, s, id)
    {
      ConservedRun(cfg, execute, ls, id);
    }
    TokensAddUp(cfg, s);
    ModeRun(cfg, execute, ls);
    PendingSplit(s.inflight, 0, 0, |s.ctxs|);
    if !Closing(s.pc) && cfg.sequence && s.hist.late == multiset{} {
      forall c: nat
        ensures CtxIds(s.inflight)[c] + multiset(s.free)[c] <= if c < s.hist.resetCount then 1 else 0
      {
        assert Conserved(cfg, s, c);
        DistinctIdsOnce(s.hist.resetCount, c);
      }
    }
  }

  /** The ids recorded as late at a Reset belong to callbacks that have counted
      their request down and have only the id left to hand back. */
  lemma LateAtReset(cfg: Config, execute: bool, ls: seq<Label>, s: State)
    requires Run(cfg, execute, ls) == Some(s) && s.pc.Resetting? && s.hist.peak < UINT32
    ensures ResettingStep(cfg, s).hist.late == CtxIds(s.inflight)
    ensures forall i :: 0 <= i < |s.inflight| ==> s.inflight[i].phase == Decremented
  {
    WaitReturnsDrained(cfg, execute, ls, s);
  }

  /** On an ordinary model the tracker is reset once and no callback is ever
      late, so the first level given to the worker limits it for good. */
  lemma OrdinaryBound(cfg: Config, execute: bool, ls: seq<Label>, s: State)
    requires Run(cfg, execute, ls) == Some(s) && !cfg.sequence
    ensures s.hist.resets <= 1
    ensures Outstanding(s) <= |s.inflight| <= s.hist.resetCount
  {
    forall id: nat
      ensures Conserved(cfg, s, id)
    {
      ConservedRun(cfg, execute, ls, id);
    }
    TokensAddUp(cfg, s);
    ModeRun(cfg, execute, ls);
    PendingSplit(s.inflight, 0, 0, |s.ctxs|);
  }
}
