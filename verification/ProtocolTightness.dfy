/** The bound on outstanding requests is reached: from any moment at which the
    worker is about to send and no call is pending, there is a continuation in
    which every id it owns, late ones included, carries a request. */
module ProtocolTightness {
  import opened Basics
  import opened WorkerProtocol
  import opened ProtocolControl
  import opened ProtocolCounters
  import opened ProtocolBounds

  lemma ExecLast(cfg: Config, s: State, ls: seq<Label>, l: Label)
    ensures Exec(cfg, s, ls + [l]) ==
            var m := Exec(cfg, s, ls);
            if m.Some? && Enabled(cfg, m.value, l) then Some(Next(cfg, m.value, l)) else None
  {
    assert (ls + [l])[..|ls|] == ls;
  }

  lemma {:induction false} ExecConcat(cfg: Config, s: State, a: seq<Label>, t: State, b: seq<Label>)
    requires Exec(cfg, s, a) == Some(t)
    ensures Exec(cfg, s, a + b) == Exec(cfg, t, b)
  {
    if b == [] {
      assert a + b == a;
    } else {
      var front, l := b[..|b| - 1], b[|b| - 1];
      assert a + b == (a + front) + [l] && b == front + [l];
      ExecConcat(cfg, s, a, t, front);
      ExecLast(cfg, s, a + front, l);
      ExecLast(cfg, t, front, l);
    }
  }

  lemma ExecOne(cfg: Config, s: State, l: Label)
    requires Enabled(cfg, s, l)
    ensures Exec(cfg, s, [l]) == Some(Next(cfg, s, l))
  {
    ExecLast(cfg, s, [], l);
    assert [] + [l] == [l];
  }

  lemma ExecFront(cfg: Config, s: State, l: Label, ls: seq<Label>)
    requires Enabled(cfg, s, l)
    ensures Exec(cfg, s, [l] + ls) == Exec(cfg, Next(cfg, s, l), ls)
  {
    ExecOne(cfg, s, l);
    ExecConcat(cfg, s, [l], Next(cfg, s, l), ls);
  }

  /** The worker may go on sending: it is at the head of the send loop and has
      been told neither to pause nor to exit. */
  ghost predicate CanSend(s: State) {
    s.pc.SendLoop? && s.execute && !s.earlyExit && !s.timerActive && IdsBelow(s.free, |s.ctxs|)
  }

  const STEP: Label := Worker(0, false, false)

  lemma TakeOne(cfg: Config, s: State)
    requires CanSend(s) && s.free != [] && !ShouldExit(s)
    ensures Exec(cfg, s, [STEP, STEP, STEP, STEP]) == Some(s.(pc := Ready(s.free[0]), free := s.free[1..]))
  {
    var s1 := s.(pc := SendGate);
    var s2 := s.(pc := GetId);
    var s3 := s.(pc := Holding(s.free[0]), free := s.free[1..]);
    var s4 := s.(pc := Ready(s.free[0]), free := s.free[1..]);
    assert Next(cfg, s, STEP) == s1;
    assert Next(cfg, s1, STEP) == s2;
    assert Next(cfg, s2, STEP) == s3;
    assert Next(cfg, s3, STEP) == s4;
    ExecFront(cfg, s, STEP, [STEP, STEP, STEP]);
    ExecFront(cfg, s1, STEP, [STEP, STEP]);
    ExecFront(cfg, s2, STEP, [STEP]);
    ExecFront(cfg, s3, STEP, []);
    assert [STEP] + [STEP, STEP, STEP] == [STEP, STEP, STEP, STEP];
    assert [STEP] + [STEP, STEP] == [STEP, STEP, STEP];
    assert [STEP] + [STEP] == [STEP, STEP];
    assert [STEP] + [] == [STEP];
  }

  /** What sending leaves alone. */
  ghost predicate SameSetting(s: State, t: State) {
    && t.execute == s.execute && t.earlyExit == s.earlyExit && t.quota == s.quota
    && t.concurrency == s.concurrency && t.paused == s.paused && |t.ctxs| == |s.ctxs|
    && t.hist.resets == s.hist.resets
  }

  lemma FireOne(cfg: Config, s: State) returns (t: State)
    requires s.pc.Ready? && s.pc.ctx < |s.ctxs| && s.execute && !s.earlyExit && !s.timerActive
    ensures Exec(cfg, s, [STEP, STEP, STEP]) == Some(t)
    ensures t.pc.SendLoop? && !t.timerActive && SameSetting(s, t) && t.free == s.free
    ensures t.inflight == s.inflight + [NewRequest(s.pc.ctx, s.ctxs[s.pc.ctx].nextId, 0, false)]
  {
    var c := s.pc.ctx;
    var s1 := Dispatch(cfg, s, c, 0, false, ToSendLoop);
    var s2 := s1.(pc := Called(c, ToSendLoop), timerActive := false);
    t := Increment(s2, c, ToSendLoop);
    assert Next(cfg, s, STEP) == s1;
    assert Next(cfg, s1, STEP) == s2;
    assert Next(cfg, s2, STEP) == t;
    ExecFront(cfg, s, STEP, [STEP, STEP]);
    ExecFront(cfg, s1, STEP, [STEP]);
    ExecOne(cfg, s2, STEP);
    assert [STEP] + [STEP, STEP] == [STEP, STEP, STEP];
    assert [STEP] + [STEP] == [STEP, STEP];
  }

  /** One more request. A worker with a request budget can send it once the main
      thread has collected the number of sent requests. */
  lemma SendOne(cfg: Config, s: State) returns (ls: seq<Label>, t: State)
    requires CanSend(s) && s.free != []
    ensures Exec(cfg, s, ls) == Some(t)
    ensures CanSend(t) && SameSetting(s, t) && t.free == s.free[1..]
    ensures t.inflight == s.inflight + [NewRequest(s.free[0], s.ctxs[s.free[0]].nextId, 0, false)]
  {
    var c := Next(cfg, s, CollectSent);
    TakeOne(cfg, c);
    var m := c.(pc := Ready(s.free[0]), free := s.free[1..]);
    t := FireOne(cfg, m);
    var rest := [STEP, STEP, STEP, STEP] + [STEP, STEP, STEP];
    ExecConcat(cfg, c, [STEP, STEP, STEP, STEP], m, [STEP, STEP, STEP]);
    ls := [CollectSent] + rest;
    ExecFront(cfg, s, CollectSent, rest);
  }

  ghost predicate NoneDecremented(reqs: seq<Request>) {
    forall i :: 0 <= i < |reqs| ==> reqs[i].phase != Decremented
  }

  lemma {:induction false} SendAll(cfg: Config, s: State) returns (ls: seq<Label>, t: State)
    requires CanSend(s) && NoneDecremented(s.inflight) && RequestsBelow(s.inflight, |s.ctxs|)
    ensures Exec(cfg, s, ls) == Some(t)
    ensures CanSend(t) && SameSetting(s, t) && NoneDecremented(t.inflight) && RequestsBelow(t.inflight, |t.ctxs|)
    ensures |t.inflight| == |s.inflight| + |s.free|
    decreases |s.free|
  {
    if s.free == [] {
      ls, t := [], s;
    } else {
      var first, m := SendOne(cfg, s);
      var rest;
      rest, t := SendAll(cfg, m);
      ls := first + rest;
      ExecConcat(cfg, s, first, m, rest);
    }
  }

  /** Every callback that still owes an id hands it back. */
  lemma {:induction false} RestoreAll(cfg: Config, s: State) returns (ls: seq<Label>, t: State)
    requires CanSend(s) && RequestsBelow(s.inflight, |s.ctxs|)
    ensures Exec(cfg, s, ls) == Some(t)
    ensures CanSend(t) && SameSetting(s, t) && NoneDecremented(t.inflight) && RequestsBelow(t.inflight, |t.ctxs|)
    ensures |t.inflight| + |t.free| == |s.inflight| + |s.free|
    decreases |s.inflight|
  {
    if i: nat :| i < |s.inflight| && s.inflight[i].phase == Decremented {
      var m := RestoreId(s, i);
      assert Next(cfg, s, Restore(i)) == m;
      var rest;
      rest, t := RestoreAll(cfg, m);
      ls := [Restore(i)] + rest;
      ExecFront(cfg, s, Restore(i), rest);
    } else {
      ls, t := [], s;
    }
  }

  lemma {:induction false} PendingAll(reqs: seq<Request>, n: nat)
    requires NoneDecremented(reqs) && RequestsBelow(reqs, n)
    ensures Pending(reqs, 0, n) == |reqs|
  {
    if reqs != [] {
      PendingAll(reqs[..|reqs| - 1], n);
    }
  }

  /** Every id in the tracker or in flight can carry an outstanding request at
      the same time. */
  lemma FullLoad(cfg: Config, s: State) returns (ls: seq<Label>, t: State)
    requires CanSend(s) && RequestsBelow(s.inflight, |s.ctxs|)
    ensures Exec(cfg, s, ls) == Some(t)
    ensures t.pc.SendLoop? && SameSetting(s, t)
    ensures Outstanding(t) == |s.free| + |s.inflight|
  {
    var a, m := RestoreAll(cfg, s);
    var b;
    b, t := SendAll(cfg, m);
    ls := a + b;
    ExecConcat(cfg, s, a, m, b);
    PendingAll(t.inflight, |t.ctxs|);
  }

  // ------------------------------------------------- the exact bound

  /** Until the next Reset, what the last one put in does not change. */
  predicate SameIssue(s: State, t: State) {
    && s.hist.resets <= t.hist.resets
    && (s.hist.resets == t.hist.resets ==>
          && t.hist.resetCount == s.hist.resetCount && t.hist.late == s.hist.late
          && s.hist.dropped <= t.hist.dropped)
  }

  lemma SameIssueMove(cfg: Config, s: State)
    ensures SameIssue(s, Move(cfg, s))
  {
  }

  lemma SameIssueSend(cfg: Config, s: State, now: int, remaining: bool, sequenceEnd: bool)
    ensures s.pc.Completing? ==> SameIssue(s, CompletingStep(cfg, s, now, remaining, sequenceEnd))
    ensures s.pc.Ready? ==> SameIssue(s, ReadyStep(cfg, s, now, sequenceEnd))
  {
  }

  lemma SameIssueWorker(cfg: Config, s: State, now: int, remaining: bool, sequenceEnd: bool)
    requires WorkerEnabled(s)
    ensures SameIssue(s, WorkerStep(cfg, s, now, remaining, sequenceEnd))
  {
    if Quiet(s.pc) {
      SameIssueMove(cfg, s);
    } else if s.pc.Completing? || s.pc.Ready? {
      SameIssueSend(cfg, s, now, remaining, sequenceEnd);
    }
  }

  lemma SameIssueNext(cfg: Config, s: State, l: Label)
    requires Enabled(cfg, s, l)
    ensures SameIssue(s, Next(cfg, s, l))
  {
    if l.Worker? {
      SameIssueWorker(cfg, s, l.now, l.remaining, l.sequenceEnd);
    } else if l.Response? {
      RespondFrame(cfg, s, l.i, l.now, l.isNull, l.isFinal);
    }
  }

  lemma {:induction false} SameIssueExec(cfg: Config, s: State, ls: seq<Label>)
    requires Exec(cfg, s, ls).Some?
    ensures SameIssue(s, Exec(cfg, s, ls).value)
  {
    if ls != [] {
      SameIssueExec(cfg, s, ls[..|ls| - 1]);
      SameIssueNext(cfg, Exec(cfg, s, ls[..|ls| - 1]).value, ls[|ls| - 1]);
    }
  }

  /** Everything the worker owns at s and has not dropped. */
  function Capacity(s: State): int {
    s.hist.resetCount + |s.hist.late| - |s.hist.dropped|
  }

  lemma CapacityBound(cfg: Config, execute: bool, ls: seq<Label>, s: State, more: seq<Label>, t: State)
    requires Run(cfg, execute, ls) == Some(s) && Exec(cfg, s, more) == Some(t)
    requires t.hist.resets == s.hist.resets && !Closing(t.pc)
    ensures Outstanding(t) <= Capacity(s)
  {
    ExecConcat(cfg, Init(cfg, execute), ls, s, more);
    OutstandingBound(cfg, execute, ls + more, t);
    ModeRun(cfg, execute, ls + more);
    SameIssueExec(cfg, s, more);
    assert t.hist.dropped == s.hist.dropped + (t.hist.dropped - s.hist.dropped);
  }

  /** The exact limit. Take any reachable moment at which the worker is in its
      send loop and told neither to pause nor to exit, and any number `bound`. Until
      the next Reset the worker keeps at most `bound` requests outstanding in
      every continuation if and only if the ids of the last Reset, plus the ids
      late at that Reset, minus the ids dropped since, number at most `bound`.
      So the current concurrency level bounds the load exactly when it is at
      least that, and the reset count bounds it exactly when no callback was
      late (or as many ids were dropped). */
  lemma TightBound(cfg: Config, execute: bool, ls: seq<Label>, s: State, bound: nat)
    requires Run(cfg, execute, ls) == Some(s) && CanSend(s)
    ensures (forall more, t :: Exec(cfg, s, more) == Some(t) && t.hist.resets == s.hist.resets && !Closing(t.pc)
               ==> Outstanding(t) <= bound)
            <==> Capacity(s) <= bound
  {
    ControlRun(cfg, execute, ls);
    var more, t := FullLoad(cfg, s);
    ModeRun(cfg, execute, ls);
    OutstandingBound(cfg, execute, ls, s);
    assert Outstanding(t) == Capacity(s);
    forall more', t' | Exec(cfg, s, more') == Some(t') && t'.hist.resets == s.hist.resets && !Closing(t'.pc)
      ensures Outstanding(t') <= Capacity(s)
    {
      CapacityBound(cfg, execute, ls, s, more', t');
    }
  }
}
