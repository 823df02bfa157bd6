/** The histories of requests and records against the run itself: what a record
    says can be traced back to the steps of its run, the one that sent the request
    and the ones that brought its responses. */
module ProtocolHistory {
  import opened Basics
  import opened WorkerProtocol
  import opened ProtocolControl
  import opened ProtocolRequestMap

  // ------------------------------------------------- sending

  /** Which request, and when and with which sequence flag it was handed over. */
  datatype Sending = Sending(ctx: nat, rid: nat, at: int, ends: bool)

  function SendingOf(r: Request): Sending {
    Sending(r.ctx, r.rid, r.sentAt, r.ends)
  }

  ghost predicate InFlight(s: State, q: Sending) {
    exists i :: 0 <= i < |s.inflight| && SendingOf(s.inflight[i]) == q
  }

  ghost predicate InRecords(done: seq<Completed>, q: Sending) {
    exists i :: 0 <= i < |done| && SendingOf(done[i].request) == q
  }

  function Done(s: State): seq<Completed> {
    s.hist.taken + s.records
  }

  ghost predicate Known(s: State, q: Sending) {
    InFlight(s, q) || InRecords(Done(s), q)
  }

  /** The step takes request id q.rid of context q.ctx, at the time and with the
      flag that q tells. */
  predicate Sends(cfg: Config, s: State, l: Label, q: Sending) {
    && l.Worker? && Enabled(cfg, s, l) && l.now == q.at && l.sequenceEnd == q.ends
    && q.ctx < |s.ctxs| && s.ctxs[q.ctx].nextId == q.rid
    && q.ctx < |Next(cfg, s, l).ctxs| && Next(cfg, s, l).ctxs[q.ctx].nextId == q.rid + 1
  }

  /** From s to t, context c sends its next request. */
  ghost predicate OneSent(s: State, t: State, c: nat, now: int, sequenceEnd: bool) {
    && c < |s.ctxs| == |t.ctxs| && t.ctxs[c].nextId == s.ctxs[c].nextId + 1
    && t.inflight == s.inflight + [NewRequest(c, s.ctxs[c].nextId, now, sequenceEnd)]
    && t.records == s.records && t.hist.taken == s.hist.taken
  }

  lemma OneSentKnown(s: State, t: State, c: nat, now: int, sequenceEnd: bool, q: Sending)
    requires OneSent(s, t, c, now, sequenceEnd) && Known(t, q)
    ensures Known(s, q) || q == Sending(c, s.ctxs[c].nextId, now, sequenceEnd)
  {
    if InFlight(t, q) {
      var i :| 0 <= i < |t.inflight| && SendingOf(t.inflight[i]) == q;
      assert i < |s.inflight| ==> s.inflight[i] == t.inflight[i];
    }
  }

  lemma DispatchSends(cfg: Config, s: State, c: nat, now: int, sequenceEnd: bool, after: After)
    requires c < |s.ctxs|
    ensures OneSent(s, Dispatch(cfg, s, c, now, sequenceEnd, after), c, now, sequenceEnd)
  {
  }

  lemma CloseSends(cfg: Config, s: State, i: nat, exiting: bool, now: int, sequenceEnd: bool)
    requires i < |s.ctxs|
    ensures OneSent(s, CloseSequence(cfg, s, i, exiting, now, sequenceEnd), i, now, sequenceEnd)
  {
    DispatchSends(cfg, s.(hist := s.hist.(extra := s.hist.extra + multiset{i})), i, now, sequenceEnd,
                  ToCompleting(i + 1, exiting));
  }

  lemma SendsNext(cfg: Config, s: State, l: Label, c: nat)
    requires l.Worker? && Enabled(cfg, s, l) && OneSent(s, Next(cfg, s, l), c, l.now, l.sequenceEnd)
    ensures Sends(cfg, s, l, Sending(c, s.ctxs[c].nextId, l.now, l.sequenceEnd))
  {
  }

  ghost predicate NoneSent(s: State, t: State) {
    t.inflight == s.inflight && t.records == s.records && t.hist.taken == s.hist.taken
  }

  /** A step of the worker sends one request, with its own time and flag, or none. */
  lemma WorkerSends(cfg: Config, s: State, l: Label) returns (c: nat)
    requires l.Worker? && ControlInv(cfg, s) && WorkerEnabled(s)
    ensures OneSent(s, Next(cfg, s, l), c, l.now, l.sequenceEnd) || NoneSent(s, Next(cfg, s, l))
  {
    c := 0;
    if s.pc.Ready? {
      c := s.pc.ctx;
      ReadySends(cfg, s, l.now, l.sequenceEnd);
    } else if s.pc.Completing? {
      c := s.pc.i;
      CompletingSends(cfg, s, l.now, l.remaining, l.sequenceEnd);
    } else {
      NothingSent(cfg, s, l.now, l.remaining, l.sequenceEnd);
    }
  }

  lemma ReadySends(cfg: Config, s: State, now: int, sequenceEnd: bool)
    requires s.pc.Ready?
    ensures var t := ReadyStep(cfg, s, now, sequenceEnd); OneSent(s, t, s.pc.ctx, now, sequenceEnd) || NoneSent(s, t)
  {
    if s.pc.ctx < |s.ctxs| {
      DispatchSends(cfg, s, s.pc.ctx, now, sequenceEnd, ToSendLoop);
    }
  }

  lemma CompletingSends(cfg: Config, s: State, now: int, remaining: bool, sequenceEnd: bool)
    requires s.pc.Completing?
    ensures var t := CompletingStep(cfg, s, now, remaining, sequenceEnd);
            OneSent(s, t, s.pc.i, now, sequenceEnd) || NoneSent(s, t)
  {
    if s.pc.i < |s.ctxs| {
      CloseSends(cfg, s, s.pc.i, s.pc.exiting, now, sequenceEnd);
    }
  }

  lemma WorkerKnown(cfg: Config, s: State, l: Label, q: Sending, t: State)
    requires l.Worker? && ControlInv(cfg, s) && WorkerEnabled(s) && Next(cfg, s, l) == t && Known(t, q)
    ensures Known(s, q) || Sends(cfg, s, l, q)
  {
    var c := WorkerSends(cfg, s, l);
    if OneSent(s, t, c, l.now, l.sequenceEnd) {
      OneSentKnown(s, t, c, l.now, l.sequenceEnd, q);
      SendsNext(cfg, s, l, c);
    } else {
      NoneSentKnown(s, t, q);
    }
  }

  lemma NoneSentKnown(s: State, t: State, q: Sending)
    requires NoneSent(s, t) && Known(t, q)
    ensures Known(s, q)
  {
  }

  lemma NothingSent(cfg: Config, s: State, now: int, remaining: bool, sequenceEnd: bool)
    requires ControlInv(cfg, s) && WorkerEnabled(s) && !s.pc.Ready? && !s.pc.Completing?
    ensures var t := WorkerStep(cfg, s, now, remaining, sequenceEnd);
            NoneSent(s, t)
  {
    if Passive(s.pc) {
      PassiveStep(cfg, s, now, remaining, sequenceEnd);
    }
  }

  /** A response adds at most one record, for the request it answers. */
  lemma RespondDone(cfg: Config, s: State, i: nat, now: int, isNull: bool, isFinal: bool)
    requires i < |s.inflight| && s.inflight[i].ctx < |s.ctxs|
    ensures var t := Respond(cfg, s, i, now, isNull, isFinal);
            && t.inflight[i].delivered == s.inflight[i].delivered + [now]
            && t.inflight[i].empty == s.inflight[i].empty + [isNull]
            && t.hist == s.hist
            && (t.records == s.records || (|t.records| == |s.records| + 1 && t.records[..|s.records|] == s.records
                                           && t.records[|s.records|].request.(phase := t.inflight[i].phase) == t.inflight[i]))
  {
  }

  lemma ResponseKnown(cfg: Config, s: State, i: nat, now: int, isNull: bool, isFinal: bool, q: Sending)
    requires HasPhase(s, i, Accepted) && Known(Respond(cfg, s, i, now, isNull, isFinal), q)
    ensures Known(s, q)
  {
    var t := Respond(cfg, s, i, now, isNull, isFinal);
    RespondFrame(cfg, s, i, now, isNull, isFinal);
    RespondDone(cfg, s, i, now, isNull, isFinal);
    if InFlight(t, q) {
      var j :| 0 <= j < |t.inflight| && SendingOf(t.inflight[j]) == q;
      assert SendingOf(s.inflight[j]) == q;
    } else {
      var j :| 0 <= j < |Done(t)| && SendingOf(Done(t)[j].request) == q;
      assert j < |Done(s)| ==> Done(t)[j] == Done(s)[j];
    }
  }

  lemma OutsideKnown(cfg: Config, s: State, l: Label, q: Sending)
    requires Enabled(cfg, s, l) && !l.Worker? && !l.Response? && Known(Next(cfg, s, l), q)
    ensures Known(s, q)
  {
    var t := Next(cfg, s, l);
    if l.TakeRecords? {
      assert Done(t) == Done(s);
    } else if InFlight(t, q) {
      var j :| 0 <= j < |t.inflight| && SendingOf(t.inflight[j]) == q;
      assert SendingOf(s.inflight[if l.Restore? && j >= l.i then j + 1 else j]) == q;
    }
  }

  /** Step number j of the run sends q. */
  ghost predicate SentBy(cfg: Config, execute: bool, ls: seq<Label>, j: nat, q: Sending)
    requires j < |ls|
  {
    Run(cfg, execute, ls[..j]).Some? && Sends(cfg, Run(cfg, execute, ls[..j]).value, ls[j], q)
  }

  lemma SentByPrefix(cfg: Config, execute: bool, ls: seq<Label>, k: nat, j: nat, q: Sending)
    requires j < k <= |ls| && SentBy(cfg, execute, ls[..k], j, q)
    ensures SentBy(cfg, execute, ls, j, q)
  {
    assert ls[..k][..j] == ls[..j];
  }

  lemma LastStep(cfg: Config, execute: bool, ls: seq<Label>, s: State, q: Sending)
    requires ls != [] && Run(cfg, execute, ls) == Some(s) && Known(s, q)
    ensures var k := |ls| - 1;
            Run(cfg, execute, ls[..k]).Some? && (Known(Run(cfg, execute, ls[..k]).value, q) || SentBy(cfg, execute, ls, k, q))
  {
    ControlRun(cfg, execute, ls[..|ls| - 1]);
    BeforeStep(cfg, Run(cfg, execute, ls[..|ls| - 1]).value, ls[|ls| - 1], q);
  }

  /** Every request that is in flight, and every record, tells the time and the
      sequence flag of the step of the run that sent it. */
  lemma {:induction false} SentByItsStep(cfg: Config, execute: bool, ls: seq<Label>, s: State, q: Sending) returns (j: nat)
    requires Run(cfg, execute, ls) == Some(s) && Known(s, q)
    ensures j < |ls| && SentBy(cfg, execute, ls, j, q)
  {
    if ls == [] {
      NothingKnown(cfg, execute, q);
      assert false;
    } else {
      var k := |ls| - 1;
      LastStep(cfg, execute, ls, s, q);
      var m := Run(cfg, execute, ls[..k]).value;
      if Known(m, q) {
        j := SentByItsStep(cfg, execute, ls[..k], m, q);
        SentByPrefix(cfg, execute, ls, k, j, q);
      } else {
        j := k;
      }
    }
  }

  lemma NothingKnown(cfg: Config, execute: bool, q: Sending)
    ensures !Known(Init(cfg, execute), q)
  {
  }

  lemma BeforeStep(cfg: Config, s: State, l: Label, q: Sending)
    requires ControlInv(cfg, s) && Enabled(cfg, s, l) && Known(Next(cfg, s, l), q)
    ensures Known(s, q) || Sends(cfg, s, l, q)
  {
    if l.Worker? {
      WorkerKnown(cfg, s, l, q, Next(cfg, s, l));
    } else if l.Response? {
      ResponseKnown(cfg, s, l.i, l.now, l.isNull, l.isFinal, q);
    } else {
      OutsideKnown(cfg, s, l, q);
    }
  }

  // ------------------------------------------------- records

  /** What a record says, traced back to the run: it starts at the time, and has
      the sequence flag, of the step that sent its request. */
  lemma RecordsTellTheRun(sequence: bool, thread: nat, execute: bool, ls: seq<Label>, s: State, i: nat) returns (j: nat)
    requires Run(WorkerConfig(sequence, thread), execute, ls) == Some(s) && Small(s) && i < |Done(s)|
    ensures var d := Done(s)[i];
            && j < |ls|
            && SentBy(WorkerConfig(sequence, thread), execute, ls, j,
                      Sending(d.request.ctx, d.request.rid, d.record.start, d.record.sequenceEnd))
            && d.record.responses == d.request.delivered != []
            && (d.record.nullLast <==> true in d.request.empty)
  {
    var cfg := WorkerConfig(sequence, thread);
    WorkerKeysDistinct(sequence, thread);
    FaithfulRun(cfg, execute, ls);
    var d := Done(s)[i];
    assert Matches(d.record, d.request);
    assert SendingOf(d.request) == Sending(d.request.ctx, d.request.rid, d.record.start, d.record.sequenceEnd);
    j := SentByItsStep(cfg, execute, ls, s, SendingOf(d.request));
  }
}
