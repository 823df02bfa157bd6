/** The 32-bit counters of ongoing requests. A callback may decrement a counter
    before the sender increments it, so a counter can wrap for a moment; it
    still equals increments minus decrements modulo 2^32, and once
    WaitForOngoingRequests has returned no final callback is missing, although
    the counters are read one at a time. */
module ProtocolCounters {
  import opened Basics
  import opened WorkerProtocol
  import opened ProtocolControl

  // ------------------------------------------------- counting requests

  /** Requests of the contexts lo..hi-1 whose final callback has not yet
      decremented the counter. */
  function Pending(reqs: seq<Request>, lo: nat, hi: nat): nat {
    if reqs == [] then 0
    else Pending(reqs[..|reqs| - 1], lo, hi) + Weight(reqs[|reqs| - 1], lo, hi)
  }

  function Weight(r: Request, lo: nat, hi: nat): nat {
    One(lo <= r.ctx < hi && r.phase != Decremented)
  }

  lemma PendingAppend(reqs: seq<Request>, r: Request, lo: nat, hi: nat)
    ensures Pending(reqs + [r], lo, hi) == Pending(reqs, lo, hi) + Weight(r, lo, hi)
  {
    assert (reqs + [r])[..|reqs|] == reqs;
  }

  lemma {:induction false} PendingUpdate(reqs: seq<Request>, i: nat, r: Request, lo: nat, hi: nat)
    requires i < |reqs|
    ensures Pending(reqs[i := r], lo, hi) == Pending(reqs, lo, hi) - Weight(reqs[i], lo, hi) + Weight(r, lo, hi)
  {
    var n := |reqs| - 1;
    if i < n {
      PendingUpdate(reqs[..n], i, r, lo, hi);
      assert reqs[i := r][..n] == reqs[..n][i := r];
    } else {
      assert reqs[i := r][..n] == reqs[..n];
    }
  }

  lemma {:induction false} PendingRemove(reqs: seq<Request>, i: nat, lo: nat, hi: nat)
    requires i < |reqs|
    ensures Pending(RemoveAt(reqs, i), lo, hi) == Pending(reqs, lo, hi) - Weight(reqs[i], lo, hi)
  {
    var n := |reqs| - 1;
    if i < n {
      PendingRemove(reqs[..n], i, lo, hi);
      assert RemoveAt(reqs, i) == RemoveAt(reqs[..n], i) + [reqs[n]];
      PendingAppend(RemoveAt(reqs[..n], i), reqs[n], lo, hi);
    } else {
      assert RemoveAt(reqs, i) == reqs[..n];
    }
  }

  lemma {:induction false} PendingSplit(reqs: seq<Request>, lo: nat, mid: nat, hi: nat)
    requires lo <= mid <= hi
    ensures Pending(reqs, lo, mid) + Pending(reqs, mid, hi) == Pending(reqs, lo, hi)
    ensures Pending(reqs, lo, hi) <= |reqs|
  {
    if reqs != [] {
      PendingSplit(reqs[..|reqs| - 1], lo, mid, hi);
    }
  }

  lemma {:induction false} PendingNone(reqs: seq<Request>, lo: nat, hi: nat)
    requires RequestsBelow(reqs, lo)
    ensures Pending(reqs, lo, hi) == 0
  {
    if reqs != [] {
      PendingNone(reqs[..|reqs| - 1], lo, hi);
    }
  }

  lemma {:induction false} PendingZero(reqs: seq<Request>, n: nat)
    requires RequestsBelow(reqs, n)
    ensures Pending(reqs, 0, n) == 0 <==> forall i :: 0 <= i < |reqs| ==> reqs[i].phase == Decremented
  {
    if reqs != [] {
      var m := |reqs| - 1;
      PendingZero(reqs[..m], n);
      assert forall i :: 0 <= i < m ==> reqs[..m][i] == reqs[i];
    }
  }

  // ------------------------------------------------- the counter of a context

  /** The worker has handed a request of context c to the backend and has not
      incremented the counter yet. */
  predicate NotYetCounted(pc: Pc, c: nat) {
    (pc.Calling? || pc.Called?) && pc.ctx == c
  }

  predicate CounterInv(s: State, c: nat) {
    c < |s.ctxs| ==>
      var x := s.ctxs[c];
      && x.ongoing == (x.incs - x.decs) % UINT32
      && x.incs + (if NotYetCounted(s.pc, c) then 1 else 0) == x.nextId
      && x.decs + Pending(s.inflight, c, c + 1) == x.nextId
  }

  /** Steps that leave the contexts, the requests and the call in progress. */
  lemma SameCounter(s: State, t: State, c: nat)
    requires CounterInv(s, c)
    requires t.ctxs == s.ctxs && t.inflight == s.inflight && NotYetCounted(t.pc, c) == NotYetCounted(s.pc, c)
    ensures CounterInv(t, c)
  {
  }

  lemma CounterDispatch(cfg: Config, s: State, c: nat, i: nat, now: int, sequenceEnd: bool, after: After)
    requires CounterInv(s, c) && i < |s.ctxs| && !s.timerActive && !NotYetCounted(s.pc, c)
    ensures CounterInv(Dispatch(cfg, s, i, now, sequenceEnd, after), c)
  {
    PendingAppend(s.inflight, NewRequest(i, s.ctxs[i].nextId, now, sequenceEnd), c, c + 1);
  }

  lemma CounterCreate(cfg: Config, s: State, c: nat)
    requires CounterInv(s, c) && ControlInv(cfg, s) && s.pc.CreateCtx?
    ensures CounterInv(CreateStep(cfg, s), c)
  {
    if |s.ctxs| <= c {
      assert RequestsBelow(s.inflight, c);
      PendingNone(s.inflight, c, c + 1);
    }
  }

  lemma CounterIncrement(cfg: Config, s: State, c: nat)
    requires CounterInv(s, c) && ControlInv(cfg, s) && s.pc.Called?
    ensures CounterInv(CalledStep(s), c)
  {
  }

  lemma CounterReady(cfg: Config, s: State, c: nat, now: int, sequenceEnd: bool)
    requires CounterInv(s, c) && ControlInv(cfg, s) && s.pc.Ready?
    ensures CounterInv(ReadyStep(cfg, s, now, sequenceEnd), c)
  {
    if cfg.sequence && (s.earlyExit || !s.execute) {
      SameCounter(s, ReadyStep(cfg, s, now, sequenceEnd), c);
    } else {
      CounterDispatch(cfg, s, c, s.pc.ctx, now, sequenceEnd, ToSendLoop);
    }
  }

  lemma CounterClose(cfg: Config, s: State, c: nat, i: nat, exiting: bool, now: int, sequenceEnd: bool)
    requires CounterInv(s, c) && i < |s.ctxs| && !s.timerActive && s.pc.Completing?
    ensures CounterInv(CloseSequence(cfg, s, i, exiting, now, sequenceEnd), c)
  {
    CounterDispatch(cfg, s.(hist := s.hist.(extra := s.hist.extra + multiset{i})), c, i, now, sequenceEnd,
                    ToCompleting(i + 1, exiting));
  }

  lemma CounterCompleting(cfg: Config, s: State, c: nat, now: int, remaining: bool, sequenceEnd: bool)
    requires CounterInv(s, c) && ControlInv(cfg, s) && s.pc.Completing?
    ensures CounterInv(CompletingStep(cfg, s, now, remaining, sequenceEnd), c)
  {
    if cfg.sequence && s.pc.i < |s.ctxs| && remaining {
      CounterClose(cfg, s, c, s.pc.i, s.pc.exiting, now, sequenceEnd);
    } else {
      SameCounter(s, CompletingStep(cfg, s, now, remaining, sequenceEnd), c);
    }
  }

  lemma CounterPassive(s: State, t: State, c: nat)
    requires CounterInv(s, c) && PassiveFrame(s, t) && Passive(s.pc)
    ensures CounterInv(t, c)
  {
  }

  lemma CounterWorker(cfg: Config, s: State, c: nat, now: int, remaining: bool, sequenceEnd: bool)
    requires CounterInv(s, c) && ControlInv(cfg, s) && WorkerEnabled(s)
    ensures CounterInv(WorkerStep(cfg, s, now, remaining, sequenceEnd), c)
  {
    if s.pc.Ready? {
      CounterReady(cfg, s, c, now, sequenceEnd);
    } else if s.pc.Completing? {
      CounterCompleting(cfg, s, c, now, remaining, sequenceEnd);
    } else if s.pc.CreateCtx? {
      CounterCreate(cfg, s, c);
    } else if s.pc.Called? {
      CounterIncrement(cfg, s, c);
    } else {
      PassiveStep(cfg, s, now, remaining, sequenceEnd);
      CounterPassive(s, WorkerStep(cfg, s, now, remaining, sequenceEnd), c);
    }
  }

  lemma CounterRephased(s: State, t: State, c: nat, i: nat)
    requires CounterInv(s, c) && i < |s.inflight| == |t.inflight|
    requires t.inflight == s.inflight[i := t.inflight[i]] && t.inflight[i].ctx == s.inflight[i].ctx
    requires s.inflight[i].phase != Decremented && t.inflight[i].phase != Decremented
    requires |t.ctxs| == |s.ctxs| && t.pc == s.pc
    requires c < |s.ctxs| ==> t.ctxs[c] == s.ctxs[c].(reqMap := t.ctxs[c].reqMap)
    ensures CounterInv(t, c)
  {
    PendingUpdate(s.inflight, i, t.inflight[i], c, c + 1);
  }

  lemma CounterResponse(cfg: Config, s: State, c: nat, i: nat, now: int, isNull: bool, isFinal: bool)
    requires CounterInv(s, c) && HasPhase(s, i, Accepted)
    ensures CounterInv(Respond(cfg, s, i, now, isNull, isFinal), c)
  {
    RespondFrame(cfg, s, i, now, isNull, isFinal);
    CounterRephased(s, Respond(cfg, s, i, now, isNull, isFinal), c, i);
  }

  lemma CounterDecrement(s: State, c: nat, i: nat)
    requires CounterInv(s, c) && HasPhase(s, i, Recorded)
    ensures CounterInv(DecrementOngoing(s, i), c)
  {
    var r := s.inflight[i].(phase := Decremented);
    PendingUpdate(s.inflight, i, r, c, c + 1);
    if c < |s.ctxs| && r.ctx == c {
      OneLess(s.ctxs[c].ongoing, s.ctxs[c].incs - s.ctxs[c].decs);
    }
  }

  lemma OneLess(ongoing: nat, difference: int)
    requires ongoing == difference % UINT32
    ensures (ongoing + UINT32 - 1) % UINT32 == (difference - 1) % UINT32
  {
  }

  lemma CounterRestore(s: State, c: nat, i: nat)
    requires CounterInv(s, c) && HasPhase(s, i, Decremented)
    ensures CounterInv(RestoreId(s, i), c)
  {
    PendingRemove(s.inflight, i, c, c + 1);
  }

  lemma CounterMain(cfg: Config, s: State, c: nat, l: Label)
    requires CounterInv(s, c) && Enabled(cfg, s, l)
    requires !l.Worker? && !l.Response? && !l.Decrement? && !l.Restore?
    ensures CounterInv(Next(cfg, s, l), c)
  {
    SameCounter(s, Next(cfg, s, l), c);
  }

  lemma CounterNext(cfg: Config, s: State, c: nat, l: Label)
    requires CounterInv(s, c) && ControlInv(cfg, s) && Enabled(cfg, s, l)
    ensures CounterInv(Next(cfg, s, l), c)
  {
    match l
    case Worker(now, remaining, sequenceEnd) => CounterWorker(cfg, s, c, now, remaining, sequenceEnd);
    case Response(i, now, isNull, isFinal) => CounterResponse(cfg, s, c, i, now, isNull, isFinal);
    case Decrement(i) => CounterDecrement(s, c, i);
    case Restore(i) => CounterRestore(s, c, i);
    case _ => CounterMain(cfg, s, c, l);
  }

  /** In every run, every counter is increments minus decrements modulo 2^32; all
      sends but the one in progress have been counted up, and all finished
      requests have been counted down. */
  lemma {:induction false} CounterRun(cfg: Config, execute: bool, ls: seq<Label>, c: nat)
    requires Run(cfg, execute, ls).Some?
    ensures CounterInv(Run(cfg, execute, ls).value, c)
  {
    if ls != [] {
      CounterRun(cfg, execute, ls[..|ls| - 1], c);
      ControlRun(cfg, execute, ls[..|ls| - 1]);
      CounterNext(cfg, Run(cfg, execute, ls[..|ls| - 1]).value, c, ls[|ls| - 1]);
    }
  }
}
