/** The number of requests sent, against the request ids the contexts have handed
    out: both count the same. */
module ProtocolSent {
  import opened Basics
  import opened WorkerProtocol
  import opened ProtocolControl
  import opened ProtocolQuota

  function TotalIds(ctxs: seq<Ctx>): nat {
    if ctxs == [] then 0 else TotalIds(ctxs[..|ctxs| - 1]) + ctxs[|ctxs| - 1].nextId
  }

  lemma {:induction false} TotalUpdate(ctxs: seq<Ctx>, c: nat, x: Ctx)
    requires c < |ctxs|
    ensures TotalIds(ctxs[c := x]) == TotalIds(ctxs) - ctxs[c].nextId + x.nextId
  {
    var n := |ctxs| - 1;
    if c < n {
      TotalUpdate(ctxs[..n], c, x);
      assert ctxs[c := x][..n] == ctxs[..n][c := x];
    } else {
      assert ctxs[c := x][..n] == ctxs[..n];
    }
  }

  lemma {:induction false} TotalGrow(ctxs: seq<Ctx>, more: seq<Ctx>)
    requires ctxs <= more && forall i :: |ctxs| <= i < |more| ==> more[i] == NewCtx()
    ensures TotalIds(more) == TotalIds(ctxs)
    decreases |more|
  {
    if |ctxs| < |more| {
      TotalGrow(ctxs, more[..|more| - 1]);
    } else {
      assert more == ctxs;
    }
  }

  predicate SentInv(s: State) {
    s.hist.sent == TotalIds(s.ctxs)
  }

  lemma SentDispatch(cfg: Config, s: State, c: nat, now: int, sequenceEnd: bool, after: After)
    requires SentInv(s) && c < |s.ctxs|
    ensures SentInv(Dispatch(cfg, s, c, now, sequenceEnd, after))
  {
    TotalUpdate(s.ctxs, c, Emplace(cfg, s.ctxs[c], now, sequenceEnd));
  }

  lemma SentReady(cfg: Config, s: State, now: int, sequenceEnd: bool)
    requires SentInv(s) && s.pc.Ready?
    ensures SentInv(ReadyStep(cfg, s, now, sequenceEnd))
  {
    if s.pc.ctx < |s.ctxs| {
      SentDispatch(cfg, s, s.pc.ctx, now, sequenceEnd, ToSendLoop);
    }
  }

  lemma SentClose(cfg: Config, s: State, i: nat, exiting: bool, now: int, sequenceEnd: bool)
    requires SentInv(s) && i < |s.ctxs|
    ensures SentInv(CloseSequence(cfg, s, i, exiting, now, sequenceEnd))
  {
    SentDispatch(cfg, s.(hist := s.hist.(extra := s.hist.extra + multiset{i})), i, now, sequenceEnd,
                 ToCompleting(i + 1, exiting));
  }

  lemma SentCompleting(cfg: Config, s: State, now: int, remaining: bool, sequenceEnd: bool)
    requires SentInv(s) && s.pc.Completing?
    ensures SentInv(CompletingStep(cfg, s, now, remaining, sequenceEnd))
  {
    if s.pc.i < |s.ctxs| {
      SentClose(cfg, s, s.pc.i, s.pc.exiting, now, sequenceEnd);
    }
  }

  lemma SentCreate(cfg: Config, s: State)
    requires SentInv(s) && s.pc.CreateCtx?
    ensures SentInv(CreateStep(cfg, s))
  {
    TotalGrow(s.ctxs, CreateStep(cfg, s).ctxs);
  }

  lemma SentCalled(s: State)
    requires SentInv(s) && s.pc.Called?
    ensures SentInv(CalledStep(s))
  {
    if s.pc.ctx < |s.ctxs| {
      TotalUpdate(s.ctxs, s.pc.ctx, CalledStep(s).ctxs[s.pc.ctx]);
    }
  }

  lemma SentWorker(cfg: Config, s: State, now: int, remaining: bool, sequenceEnd: bool)
    requires SentInv(s) && ControlInv(cfg, s) && WorkerEnabled(s)
    ensures SentInv(WorkerStep(cfg, s, now, remaining, sequenceEnd))
  {
    if s.pc.Ready? {
      SentReady(cfg, s, now, sequenceEnd);
    } else if s.pc.Completing? {
      SentCompleting(cfg, s, now, remaining, sequenceEnd);
    } else if s.pc.CreateCtx? {
      SentCreate(cfg, s);
    } else if s.pc.Called? {
      SentCalled(s);
    } else {
      PassiveStep(cfg, s, now, remaining, sequenceEnd);
    }
  }

  lemma {:induction false} SameTotal(a: seq<Ctx>, b: seq<Ctx>)
    requires |a| == |b| && forall c :: 0 <= c < |a| ==> a[c].nextId == b[c].nextId
    ensures TotalIds(a) == TotalIds(b)
  {
    if a != [] {
      SameTotal(a[..|a| - 1], b[..|b| - 1]);
    }
  }

  lemma SentOutside(cfg: Config, s: State, l: Label)
    requires SentInv(s) && Enabled(cfg, s, l) && !l.Worker?
    ensures SentInv(Next(cfg, s, l))
  {
    if l.Response? {
      RespondFrame(cfg, s, l.i, l.now, l.isNull, l.isFinal);
      SameTotal(s.ctxs, Next(cfg, s, l).ctxs);
    } else if l.Decrement? {
      SameTotal(s.ctxs, Next(cfg, s, l).ctxs);
    }
  }

  /** In every run, the number of requests sent is the number of request ids that
      the contexts have handed out. */
  lemma {:induction false} SentRun(cfg: Config, execute: bool, ls: seq<Label>)
    requires Run(cfg, execute, ls).Some?
    ensures SentInv(Run(cfg, execute, ls).value)
  {
    if ls != [] {
      var s, l := Run(cfg, execute, ls[..|ls| - 1]).value, ls[|ls| - 1];
      SentRun(cfg, execute, ls[..|ls| - 1]);
      ControlRun(cfg, execute, ls[..|ls| - 1]);
      if l.Worker? {
        SentWorker(cfg, s, l.now, l.remaining, l.sequenceEnd);
      } else {
        SentOutside(cfg, s, l);
      }
    }
  }

  /** A worker of an ordinary model configured once never hands out more request
      ids than its budget, and exactly as many by the time it has ended without
      an exit signal. */
  lemma IdsWithinBudget(cfg: Config, execute: bool, ls: seq<Label>, s: State)
    requires Run(cfg, execute, ls) == Some(s) && !cfg.sequence && ConfiguredOnce(s)
    ensures s.quota != 0 ==> TotalIds(s.ctxs) <= s.quota
    ensures s.pc.Done? && !s.earlyExit ==> TotalIds(s.ctxs) == s.quota
  {
    SentRun(cfg, execute, ls);
    QuotaExact(cfg, execute, ls, s);
  }
}
