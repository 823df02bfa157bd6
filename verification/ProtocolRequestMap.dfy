/** The map of requests in flight. Over every run in which a context sends at
    most 2^48 requests, the keys of its map are exactly the requests without a
    final response, every request sent is either still in the map or recorded
    once, and a record carries one timestamp per response. */
module ProtocolRequestMap {
  import opened Basics
  import opened WorkerProtocol
  import opened ProtocolControl
  import opened RequestKeys
  import opened RequestRecords

  /** The keys of the requests of context c that have had no final response. */
  ghost function OpenKeys(key: nat -> string, reqs: seq<Request>, c: nat): set<string> {
    set i | 0 <= i < |reqs| && reqs[i].ctx == c && reqs[i].phase == Accepted :: key(reqs[i].rid)
  }

  /** Requests of context c recorded so far. */
  function RecordedCount(done: seq<Completed>, c: nat): nat {
    if done == [] then 0
    else RecordedCount(done[..|done| - 1], c) + (if done[|done| - 1].request.ctx == c then 1 else 0)
  }

  /** The record says of the request when it was handed over, with which sequence
      flag, when its responses came in, and whether one of them was empty. */
  predicate Matches(e: RequestRecord, r: Request) {
    && e.start == r.sentAt && e.sequenceEnd == r.ends && !e.delayed
    && e.responses == r.delivered && |r.empty| == |r.delivered|
    && (e.nullLast <==> true in r.empty)
  }

  /** The requests of context c have distinct ids below nextId, and each open one
      has an entry that says of it what has happened so far. */
  ghost predicate RequestsFit(key: nat -> string, x: Ctx, reqs: seq<Request>, c: nat) {
    && (forall i :: 0 <= i < |reqs| && reqs[i].ctx == c ==> reqs[i].rid < x.nextId)
    && (forall i :: 0 <= i < |reqs| && reqs[i].ctx == c && reqs[i].phase == Accepted ==>
          key(reqs[i].rid) in x.reqMap && Matches(x.reqMap[key(reqs[i].rid)], reqs[i]))
    && (forall i, j :: 0 <= i < j < |reqs| && reqs[i].ctx == c && reqs[j].ctx == c ==> reqs[i].rid != reqs[j].rid)
  }

  ghost predicate MapInv(cfg: Config, s: State, c: nat) {
    if c >= |s.ctxs| then RecordedCount(s.hist.taken + s.records, c) == 0
    else s.ctxs[c].nextId <= THREAD_SHIFT ==>
      && s.ctxs[c].reqMap.Keys == OpenKeys(cfg.key, s.inflight, c)
      && RequestsFit(cfg.key, s.ctxs[c], s.inflight, c)
      && s.ctxs[c].nextId == |s.ctxs[c].reqMap| + RecordedCount(s.hist.taken + s.records, c)
  }

  /** Each record matches its request, and has at least one response. */
  ghost predicate RecordsFaithful(done: seq<Completed>) {
    forall i :: 0 <= i < |done| ==> Matches(done[i].record, done[i].request) && done[i].record.responses != []
  }

  // ------------------------------------------------- keys

  /** Ids that fit 48 bits have different keys. */
  ghost predicate DistinctKeys(cfg: Config) {
    forall a: nat, b: nat :: a < THREAD_SHIFT && b < THREAD_SHIFT && cfg.key(a) == cfg.key(b) ==> a == b
  }

  lemma WorkerKeysDistinct(sequence: bool, thread: nat)
    ensures DistinctKeys(WorkerConfig(sequence, thread))
  {
    var cfg := WorkerConfig(sequence, thread);
    forall a: nat, b: nat | a < THREAD_SHIFT && b < THREAD_SHIFT && cfg.key(a) == cfg.key(b)
      ensures a == b
    {
      RequestKeyInjective(thread, a, thread, b);
    }
  }

  lemma KeyIsFresh(cfg: Config, s: State, c: nat)
    requires DistinctKeys(cfg)
    requires c < |s.ctxs| && MapInv(cfg, s, c) && s.ctxs[c].nextId < THREAD_SHIFT
    ensures cfg.key(s.ctxs[c].nextId) !in s.ctxs[c].reqMap
  {
  }

  lemma OpenKeysAppend(key: nat -> string, reqs: seq<Request>, r: Request, c: nat)
    ensures OpenKeys(key, reqs + [r], c) ==
            OpenKeys(key, reqs, c) + if r.ctx == c && r.phase == Accepted then {key(r.rid)} else {}
  {
    var all := reqs + [r];
    forall k | k in OpenKeys(key, reqs, c)
      ensures k in OpenKeys(key, all, c)
    {
      var i :| 0 <= i < |reqs| && reqs[i].ctx == c && reqs[i].phase == Accepted && key(reqs[i].rid) == k;
      assert all[i] == reqs[i];
    }
    if r.ctx == c && r.phase == Accepted {
      assert all[|reqs|] == r;
    }
  }

  /** An update that does not change which request it is and whether it is open. */
  lemma OpenKeysKeep(key: nat -> string, reqs: seq<Request>, i: nat, r: Request, c: nat)
    requires i < |reqs| && r.ctx == reqs[i].ctx && r.rid == reqs[i].rid
    requires r.ctx == c ==> (r.phase == Accepted <==> reqs[i].phase == Accepted)
    ensures OpenKeys(key, reqs[i := r], c) == OpenKeys(key, reqs, c)
  {
    forall k | k in OpenKeys(key, reqs, c)
      ensures k in OpenKeys(key, reqs[i := r], c)
    {
      var j :| 0 <= j < |reqs| && reqs[j].ctx == c && reqs[j].phase == Accepted && key(reqs[j].rid) == k;
      assert reqs[i := r][j].rid == reqs[j].rid;
    }
  }

  lemma OpenKeysRemove(key: nat -> string, reqs: seq<Request>, i: nat, c: nat)
    requires i < |reqs| && reqs[i].phase != Accepted
    ensures OpenKeys(key, RemoveAt(reqs, i), c) == OpenKeys(key, reqs, c)
  {
    var rest := RemoveAt(reqs, i);
    forall k | k in OpenKeys(key, reqs, c)
      ensures k in OpenKeys(key, rest, c)
    {
      var j :| 0 <= j < |reqs| && reqs[j].ctx == c && reqs[j].phase == Accepted && key(reqs[j].rid) == k;
      assert reqs[j] == rest[if j < i then j else j - 1];
    }
    forall k | k in OpenKeys(key, rest, c)
      ensures k in OpenKeys(key, reqs, c)
    {
      var j :| 0 <= j < |rest| && rest[j].ctx == c && rest[j].phase == Accepted && key(rest[j].rid) == k;
      assert rest[j] == reqs[if j < i then j else j + 1];
    }
  }

  /** A final response closes exactly one key. */
  lemma OpenKeysClose(key: nat -> string, reqs: seq<Request>, i: nat, r: Request, c: nat)
    requires i < |reqs| && reqs[i].ctx == c && reqs[i].phase == Accepted
    requires r.ctx == c && r.phase != Accepted
    requires forall j :: 0 <= j < |reqs| && j != i && reqs[j].ctx == c ==> key(reqs[j].rid) != key(reqs[i].rid)
    ensures OpenKeys(key, reqs[i := r], c) == OpenKeys(key, reqs, c) - {key(reqs[i].rid)}
  {
    var t := reqs[i := r];
    forall k | k in OpenKeys(key, reqs, c) - {key(reqs[i].rid)}
      ensures k in OpenKeys(key, t, c)
    {
      var j :| 0 <= j < |reqs| && reqs[j].ctx == c && reqs[j].phase == Accepted && key(reqs[j].rid) == k;
      assert t[j] == reqs[j];
    }
  }

  lemma RecordedCountAppend(done: seq<Completed>, d: Completed, c: nat)
    ensures RecordedCount(done + [d], c) == RecordedCount(done, c) + (if d.request.ctx == c then 1 else 0)
  {
    assert (done + [d])[..|done|] == done;
  }

  // ------------------------------------------------- each step keeps the map

  /** Steps that leave the map of c, the requests and the records alone. */
  lemma MapFrame(cfg: Config, s: State, t: State, c: nat)
    requires MapInv(cfg, s, c) && |t.ctxs| == |s.ctxs|
    requires c < |s.ctxs| ==> t.ctxs[c].reqMap == s.ctxs[c].reqMap && t.ctxs[c].nextId == s.ctxs[c].nextId
    requires t.inflight == s.inflight && t.records == s.records && t.hist.taken == s.hist.taken
    ensures MapInv(cfg, t, c)
  {
  }

  lemma FitAppend(key: nat -> string, x: Ctx, x': Ctx, reqs: seq<Request>, r: Request, c: nat)
    requires RequestsFit(key, x, reqs, c) && x.nextId <= x'.nextId
    requires r.ctx == c ==> x.nextId <= r.rid < x'.nextId
    requires r.ctx == c && r.phase == Accepted ==>
               key(r.rid) in x'.reqMap && Matches(x'.reqMap[key(r.rid)], r)
    requires forall k :: k in x.reqMap ==> k in x'.reqMap && x'.reqMap[k] == x.reqMap[k]
    ensures RequestsFit(key, x', reqs + [r], c)
  {
  }

  lemma MapAppendOther(cfg: Config, s: State, t: State, c: nat, r: Request)
    requires MapInv(cfg, s, c) && |t.ctxs| == |s.ctxs| && r.ctx != c
    requires c < |s.ctxs| ==> t.ctxs[c] == s.ctxs[c]
    requires t.inflight == s.inflight + [r] && t.records == s.records && t.hist.taken == s.hist.taken
    ensures MapInv(cfg, t, c)
  {
    OpenKeysAppend(cfg.key, s.inflight, r, c);
    if c < |s.ctxs| && s.ctxs[c].nextId <= THREAD_SHIFT {
      FitAppend(cfg.key, s.ctxs[c], t.ctxs[c], s.inflight, r, c);
    }
  }

  lemma MapAppendSame(cfg: Config, s: State, t: State, c: nat, r: Request, e: RequestRecord)
    requires MapInv(cfg, s, c) && c < |s.ctxs| == |t.ctxs|
    requires r.ctx == c && r.rid == s.ctxs[c].nextId && r.phase == Accepted && Matches(e, r)
    requires t.inflight == s.inflight + [r] && t.records == s.records && t.hist.taken == s.hist.taken
    requires t.ctxs[c].nextId == s.ctxs[c].nextId + 1 <= THREAD_SHIFT
    requires cfg.key(r.rid) !in s.ctxs[c].reqMap && t.ctxs[c].reqMap == s.ctxs[c].reqMap[cfg.key(r.rid) := e]
    ensures MapInv(cfg, t, c)
  {
    OpenKeysAppend(cfg.key, s.inflight, r, c);
    FitAppend(cfg.key, s.ctxs[c], t.ctxs[c], s.inflight, r, c);
    assert t.ctxs[c].reqMap.Keys == s.ctxs[c].reqMap.Keys + {cfg.key(r.rid)};
  }

  lemma MapDispatch(cfg: Config, s: State, c: nat, i: nat, now: int, sequenceEnd: bool, after: After)
    requires MapInv(cfg, s, c) && DistinctKeys(cfg) && i < |s.ctxs|
    ensures MapInv(cfg, Dispatch(cfg, s, i, now, sequenceEnd, after), c)
  {
    var t := Dispatch(cfg, s, i, now, sequenceEnd, after);
    var r := NewRequest(i, s.ctxs[i].nextId, now, sequenceEnd);
    if i != c {
      MapAppendOther(cfg, s, t, c, r);
    } else if s.ctxs[c].nextId < THREAD_SHIFT {
      KeyIsFresh(cfg, s, c);
      MapAppendSame(cfg, s, t, c, r, RequestRecord(now, [], sequenceEnd, false, false));
    }
  }

  lemma MapCreate(cfg: Config, s: State, c: nat)
    requires MapInv(cfg, s, c) && ControlInv(cfg, s) && s.pc.CreateCtx?
    ensures MapInv(cfg, CreateStep(cfg, s), c)
  {
    if c < |s.ctxs| {
      MapFrameGrow(cfg, s, CreateStep(cfg, s), c);
    }
  }

  lemma MapFrameGrow(cfg: Config, s: State, t: State, c: nat)
    requires MapInv(cfg, s, c) && c < |s.ctxs| <= |t.ctxs| && t.ctxs[c] == s.ctxs[c]
    requires t.inflight == s.inflight && t.records == s.records && t.hist.taken == s.hist.taken
    ensures MapInv(cfg, t, c)
  {
  }

  lemma MapDecrement(cfg: Config, s: State, c: nat, i: nat)
    requires MapInv(cfg, s, c) && HasPhase(s, i, Recorded)
    ensures MapInv(cfg, DecrementOngoing(s, i), c)
  {
    OpenKeysKeep(cfg.key, s.inflight, i, s.inflight[i].(phase := Decremented), c);
  }

  lemma FitRemove(key: nat -> string, x: Ctx, reqs: seq<Request>, i: nat, c: nat)
    requires RequestsFit(key, x, reqs, c) && i < |reqs|
    ensures RequestsFit(key, x, RemoveAt(reqs, i), c)
  {
    assert forall j :: 0 <= j < |reqs| - 1 ==> RemoveAt(reqs, i)[j] == reqs[if j < i then j else j + 1];
  }

  lemma MapRestore(cfg: Config, s: State, c: nat, i: nat)
    requires MapInv(cfg, s, c) && HasPhase(s, i, Decremented)
    ensures MapInv(cfg, RestoreId(s, i), c)
  {
    OpenKeysRemove(cfg.key, s.inflight, i, c);
    if c < |s.ctxs| && s.ctxs[c].nextId <= THREAD_SHIFT {
      FitRemove(cfg.key, s.ctxs[c], s.inflight, i, c);
    }
  }

  /** A response changes the entry of its own request only. */
  lemma FitUpdate(key: nat -> string, x: Ctx, x': Ctx, reqs: seq<Request>, i: nat, r: Request, c: nat)
    requires RequestsFit(key, x, reqs, c) && x'.nextId == x.nextId
    requires i < |reqs| && r.ctx == reqs[i].ctx && r.rid == reqs[i].rid
    requires r.ctx == c ==> forall j :: 0 <= j < |reqs| && j != i && reqs[j].ctx == c ==> key(reqs[j].rid) != key(r.rid)
    requires forall k :: k in x.reqMap && (r.ctx != c || k != key(r.rid)) ==> k in x'.reqMap && x'.reqMap[k] == x.reqMap[k]
    requires r.ctx == c && r.phase == Accepted ==>
               key(r.rid) in x'.reqMap && Matches(x'.reqMap[key(r.rid)], r)
    ensures RequestsFit(key, x', reqs[i := r], c)
  {
  }

  lemma KeysApart(cfg: Config, s: State, c: nat, i: nat)
    requires DistinctKeys(cfg) && c < |s.ctxs| && s.ctxs[c].nextId <= THREAD_SHIFT
    requires RequestsFit(cfg.key, s.ctxs[c], s.inflight, c) && i < |s.inflight| && s.inflight[i].ctx == c
    ensures forall j :: 0 <= j < |s.inflight| && j != i && s.inflight[j].ctx == c ==>
              cfg.key(s.inflight[j].rid) != cfg.key(s.inflight[i].rid)
  {
  }

  lemma MapRespondOther(cfg: Config, s: State, t: State, c: nat, i: nat)
    requires MapInv(cfg, s, c) && i < |s.inflight| == |t.inflight| && s.inflight[i].ctx != c
    requires |t.ctxs| == |s.ctxs| && (c < |s.ctxs| ==> t.ctxs[c] == s.ctxs[c])
    requires t.inflight == s.inflight[i := t.inflight[i]]
    requires t.inflight[i].ctx == s.inflight[i].ctx && t.inflight[i].rid == s.inflight[i].rid
    requires RecordedCount(t.hist.taken + t.records, c) == RecordedCount(s.hist.taken + s.records, c)
    ensures MapInv(cfg, t, c)
  {
    OpenKeysKeep(cfg.key, s.inflight, i, t.inflight[i], c);
    if c < |s.ctxs| && s.ctxs[c].nextId <= THREAD_SHIFT {
      FitUpdate(cfg.key, s.ctxs[c], t.ctxs[c], s.inflight, i, t.inflight[i], c);
    }
  }

  lemma MapRespondMore(cfg: Config, s: State, t: State, c: nat, i: nat, e: RequestRecord)
    requires MapInv(cfg, s, c) && DistinctKeys(cfg) && HasPhase(s, i, Accepted) && s.inflight[i].ctx == c
    requires s.ctxs[c].nextId <= THREAD_SHIFT && cfg.key(s.inflight[i].rid) in s.ctxs[c].reqMap
    requires |t.ctxs| == |s.ctxs| && t.records == s.records && t.hist.taken == s.hist.taken
    requires t.ctxs[c] == s.ctxs[c].(reqMap := s.ctxs[c].reqMap[cfg.key(s.inflight[i].rid) := e])
    requires |t.inflight| == |s.inflight| && t.inflight == s.inflight[i := t.inflight[i]]
    requires t.inflight[i].ctx == c && t.inflight[i].rid == s.inflight[i].rid && t.inflight[i].phase == Accepted
    requires Matches(e, t.inflight[i])
    ensures MapInv(cfg, t, c)
  {
    KeysApart(cfg, s, c, i);
    OpenKeysKeep(cfg.key, s.inflight, i, t.inflight[i], c);
    FitUpdate(cfg.key, s.ctxs[c], t.ctxs[c], s.inflight, i, t.inflight[i], c);
    assert t.ctxs[c].reqMap.Keys == s.ctxs[c].reqMap.Keys;
  }

  lemma MapRespondFinal(cfg: Config, s: State, t: State, c: nat, i: nat, d: Completed)
    requires MapInv(cfg, s, c) && DistinctKeys(cfg) && HasPhase(s, i, Accepted) && s.inflight[i].ctx == c
    requires s.ctxs[c].nextId <= THREAD_SHIFT && cfg.key(s.inflight[i].rid) in s.ctxs[c].reqMap
    requires |t.ctxs| == |s.ctxs| && t.records == s.records + [d] && d.request.ctx == c && t.hist.taken == s.hist.taken
    requires t.ctxs[c] == s.ctxs[c].(reqMap := s.ctxs[c].reqMap - {cfg.key(s.inflight[i].rid)})
    requires |t.inflight| == |s.inflight| && t.inflight == s.inflight[i := t.inflight[i]]
    requires t.inflight[i].ctx == c && t.inflight[i].rid == s.inflight[i].rid && t.inflight[i].phase == Recorded
    ensures MapInv(cfg, t, c)
  {
    KeysApart(cfg, s, c, i);
    OpenKeysClose(cfg.key, s.inflight, i, t.inflight[i], c);
    FitUpdate(cfg.key, s.ctxs[c], t.ctxs[c], s.inflight, i, t.inflight[i], c);
    RecordedCountAppend(s.hist.taken + s.records, d, c);
    assert t.hist.taken + t.records == (s.hist.taken + s.records) + [d];
    assert t.ctxs[c].reqMap.Keys == s.ctxs[c].reqMap.Keys - {cfg.key(s.inflight[i].rid)};
  }

  lemma RespondCount(cfg: Config, s: State, c: nat, i: nat, now: int, isNull: bool, isFinal: bool)
    requires HasPhase(s, i, Accepted) && s.inflight[i].ctx != c
    ensures var t := Respond(cfg, s, i, now, isNull, isFinal);
            RecordedCount(t.hist.taken + t.records, c) == RecordedCount(s.hist.taken + s.records, c)
  {
    var t := Respond(cfg, s, i, now, isNull, isFinal);
    if t.records != s.records {
      var d := t.records[|s.records|];
      RecordedCountAppend(s.hist.taken + s.records, d, c);
      assert t.hist.taken + t.records == (s.hist.taken + s.records) + [d];
    }
  }

  lemma MapRespondElsewhere(cfg: Config, s: State, c: nat, i: nat, now: int, isNull: bool, isFinal: bool)
    requires MapInv(cfg, s, c) && HasPhase(s, i, Accepted) && s.inflight[i].ctx != c
    ensures MapInv(cfg, Respond(cfg, s, i, now, isNull, isFinal), c)
  {
    RespondFrame(cfg, s, i, now, isNull, isFinal);
    RespondCount(cfg, s, c, i, now, isNull, isFinal);
    MapRespondOther(cfg, s, Respond(cfg, s, i, now, isNull, isFinal), c, i);
  }

  lemma MapRespondHere(cfg: Config, s: State, c: nat, i: nat, now: int, isNull: bool, isFinal: bool)
    requires MapInv(cfg, s, c) && DistinctKeys(cfg) && HasPhase(s, i, Accepted) && s.inflight[i].ctx == c
    requires s.ctxs[c].nextId <= THREAD_SHIFT
    ensures MapInv(cfg, Respond(cfg, s, i, now, isNull, isFinal), c)
  {
    var t := Respond(cfg, s, i, now, isNull, isFinal);
    var key := cfg.key(s.inflight[i].rid);
    assert key in s.ctxs[c].reqMap;
    var e := s.ctxs[c].reqMap[key];
    if isFinal {
      MapRespondFinal(cfg, s, t, c, i, t.records[|s.records|]);
    } else {
      MapRespondMore(cfg, s, t, c, i, e.(responses := e.responses + [now], nullLast := e.nullLast || isNull));
    }
  }

  lemma MapRespond(cfg: Config, s: State, c: nat, i: nat, now: int, isNull: bool, isFinal: bool)
    requires MapInv(cfg, s, c) && DistinctKeys(cfg) && HasPhase(s, i, Accepted)
    ensures MapInv(cfg, Respond(cfg, s, i, now, isNull, isFinal), c)
  {
    if s.inflight[i].ctx != c {
      MapRespondElsewhere(cfg, s, c, i, now, isNull, isFinal);
    } else if s.ctxs[c].nextId <= THREAD_SHIFT {
      MapRespondHere(cfg, s, c, i, now, isNull, isFinal);
    } else {
      RespondFrame(cfg, s, i, now, isNull, isFinal);
    }
  }

  lemma MapTake(cfg: Config, s: State, c: nat)
    requires MapInv(cfg, s, c)
    ensures MapInv(cfg, Next(cfg, s, TakeRecords), c)
  {
    assert (s.hist.taken + s.records) + [] == s.hist.taken + s.records;
  }

  lemma MapClose(cfg: Config, s: State, c: nat, i: nat, exiting: bool, now: int, sequenceEnd: bool)
    requires MapInv(cfg, s, c) && DistinctKeys(cfg) && i < |s.ctxs|
    ensures MapInv(cfg, CloseSequence(cfg, s, i, exiting, now, sequenceEnd), c)
  {
    var m := s.(hist := s.hist.(extra := s.hist.extra + multiset{i}));
    MapFrame(cfg, s, m, c);
    MapDispatch(cfg, m, c, i, now, sequenceEnd, ToCompleting(i + 1, exiting));
  }

  lemma MapCompleting(cfg: Config, s: State, c: nat, now: int, remaining: bool, sequenceEnd: bool)
    requires MapInv(cfg, s, c) && DistinctKeys(cfg) && s.pc.Completing?
    ensures MapInv(cfg, CompletingStep(cfg, s, now, remaining, sequenceEnd), c)
  {
    var i := s.pc.i;
    if cfg.sequence && i < |s.ctxs| && remaining {
      MapClose(cfg, s, c, i, s.pc.exiting, now, sequenceEnd);
    } else {
      MapFrame(cfg, s, CompletingStep(cfg, s, now, remaining, sequenceEnd), c);
    }
  }

  lemma MapReady(cfg: Config, s: State, c: nat, now: int, sequenceEnd: bool)
    requires MapInv(cfg, s, c) && DistinctKeys(cfg) && ControlInv(cfg, s) && s.pc.Ready?
    ensures MapInv(cfg, ReadyStep(cfg, s, now, sequenceEnd), c)
  {
    if cfg.sequence && (s.earlyExit || !s.execute) {
      MapFrame(cfg, s, ReadyStep(cfg, s, now, sequenceEnd), c);
    } else {
      MapDispatch(cfg, s, c, s.pc.ctx, now, sequenceEnd, ToSendLoop);
    }
  }

  lemma MapWorker(cfg: Config, s: State, c: nat, now: int, remaining: bool, sequenceEnd: bool)
    requires MapInv(cfg, s, c) && DistinctKeys(cfg) && ControlInv(cfg, s) && WorkerEnabled(s)
    ensures MapInv(cfg, WorkerStep(cfg, s, now, remaining, sequenceEnd), c)
  {
    if s.pc.Completing? {
      MapCompleting(cfg, s, c, now, remaining, sequenceEnd);
    } else if s.pc.Ready? {
      MapReady(cfg, s, c, now, sequenceEnd);
    } else if s.pc.CreateCtx? {
      MapCreate(cfg, s, c);
    } else if s.pc.Called? {
      MapFrame(cfg, s, CalledStep(s), c);
    } else {
      PassiveStep(cfg, s, now, remaining, sequenceEnd);
      MapFrame(cfg, s, WorkerStep(cfg, s, now, remaining, sequenceEnd), c);
    }
  }

  lemma MapMain(cfg: Config, s: State, c: nat, l: Label)
    requires MapInv(cfg, s, c) && Enabled(cfg, s, l)
    requires !l.Worker? && !l.Response? && !l.Decrement? && !l.Restore?
    ensures MapInv(cfg, Next(cfg, s, l), c)
  {
    if l.TakeRecords? {
      MapTake(cfg, s, c);
    } else {
      MapFrame(cfg, s, Next(cfg, s, l), c);
    }
  }

  lemma MapNext(cfg: Config, s: State, c: nat, l: Label)
    requires MapInv(cfg, s, c) && DistinctKeys(cfg) && ControlInv(cfg, s) && Enabled(cfg, s, l)
    ensures MapInv(cfg, Next(cfg, s, l), c)
  {
    match l
    case Worker(now, remaining, sequenceEnd) => MapWorker(cfg, s, c, now, remaining, sequenceEnd);
    case Response(i, now, isNull, isFinal) => MapRespond(cfg, s, c, i, now, isNull, isFinal);
    case Decrement(i) => MapDecrement(cfg, s, c, i);
    case Restore(i) => MapRestore(cfg, s, c, i);
    case _ => MapMain(cfg, s, c, l);
  }

  lemma {:induction false} MapRun(cfg: Config, execute: bool, ls: seq<Label>, c: nat)
    requires DistinctKeys(cfg) && Run(cfg, execute, ls).Some?
    ensures MapInv(cfg, Run(cfg, execute, ls).value, c)
  {
    if ls != [] {
      MapRun(cfg, execute, ls[..|ls| - 1], c);
      ControlRun(cfg, execute, ls[..|ls| - 1]);
      MapNext(cfg, Run(cfg, execute, ls[..|ls| - 1]).value, c, ls[|ls| - 1]);
    }
  }

  /** For every run and every context that has sent at most 2^48 requests: the
      keys of the map are those of the requests without a final response, and
      every request sent is either in the map or recorded. */
  lemma SentIsRecordedOrMapped(sequence: bool, thread: nat, execute: bool, ls: seq<Label>, s: State, c: nat)
    requires Run(WorkerConfig(sequence, thread), execute, ls) == Some(s)
    requires c < |s.ctxs| && s.ctxs[c].nextId <= THREAD_SHIFT
    ensures s.ctxs[c].reqMap.Keys == OpenKeys((rid: nat) => RequestKey(thread, rid), s.inflight, c)
    ensures s.ctxs[c].nextId == |s.ctxs[c].reqMap| + RecordedCount(s.hist.taken + s.records, c)
  {
    WorkerKeysDistinct(sequence, thread);
    MapRun(WorkerConfig(sequence, thread), execute, ls, c);
    assert OpenKeys((rid: nat) => RequestKey(thread, rid), s.inflight, c)
        == OpenKeys(WorkerConfig(sequence, thread).key, s.inflight, c);
  }

  // ------------------------------------------------- faithful records

  ghost predicate Small(s: State) {
    forall c :: 0 <= c < |s.ctxs| ==> s.ctxs[c].nextId <= THREAD_SHIFT
  }

  ghost predicate FaithfulInv(s: State) {
    Small(s) ==> RecordsFaithful(s.hist.taken + s.records)
  }

  /** Contexts only ever count up, and only responses produce records. */
  ghost predicate OnlyGrows(s: State, t: State) {
    && |s.ctxs| <= |t.ctxs|
    && (forall c :: 0 <= c < |s.ctxs| ==> s.ctxs[c].nextId <= t.ctxs[c].nextId)
    && t.hist.taken + t.records == s.hist.taken + s.records
  }

  lemma OnlyGrowsWorker(cfg: Config, s: State, now: int, remaining: bool, sequenceEnd: bool)
    requires ControlInv(cfg, s) && WorkerEnabled(s)
    ensures OnlyGrows(s, WorkerStep(cfg, s, now, remaining, sequenceEnd))
  {
    if Passive(s.pc) {
      PassiveStep(cfg, s, now, remaining, sequenceEnd);
    } else if s.pc.Completing? {
      OnlyGrowsCompleting(cfg, s, now, remaining, sequenceEnd);
    } else if s.pc.Ready? {
      OnlyGrowsReady(cfg, s, now, sequenceEnd);
    } else {
      OnlyGrowsActive(cfg, s);
    }
  }

  lemma OnlyGrowsCompleting(cfg: Config, s: State, now: int, remaining: bool, sequenceEnd: bool)
    requires s.pc.Completing?
    ensures OnlyGrows(s, CompletingStep(cfg, s, now, remaining, sequenceEnd))
  {
  }

  lemma OnlyGrowsReady(cfg: Config, s: State, now: int, sequenceEnd: bool)
    requires s.pc.Ready?
    ensures OnlyGrows(s, ReadyStep(cfg, s, now, sequenceEnd))
  {
  }

  lemma OnlyGrowsActive(cfg: Config, s: State)
    ensures s.pc.CreateCtx? ==> OnlyGrows(s, CreateStep(cfg, s))
    ensures s.pc.Called? ==> OnlyGrows(s, CalledStep(s))
  {
  }

  lemma OnlyGrowsOther(cfg: Config, s: State, l: Label)
    requires Enabled(cfg, s, l) && !l.Worker? && !l.Response?
    ensures OnlyGrows(s, Next(cfg, s, l))
  {
    if l.TakeRecords? {
      assert (s.hist.taken + s.records) + [] == s.hist.taken + s.records;
    }
  }

  lemma FaithfulResponse(cfg: Config, s: State, i: nat, now: int, isNull: bool, isFinal: bool)
    requires FaithfulInv(s) && HasPhase(s, i, Accepted) && MapInv(cfg, s, s.inflight[i].ctx)
    ensures FaithfulInv(Respond(cfg, s, i, now, isNull, isFinal))
  {
    var t := Respond(cfg, s, i, now, isNull, isFinal);
    RespondFrame(cfg, s, i, now, isNull, isFinal);
    if Small(t) {
      assert forall c :: 0 <= c < |s.ctxs| ==> s.ctxs[c].nextId == t.ctxs[c].nextId;
      assert Small(s);
      if isFinal {
        assert t.hist.taken + t.records == (s.hist.taken + s.records) + [t.records[|s.records|]];
      }
    }
  }

  lemma FaithfulNext(cfg: Config, s: State, l: Label)
    requires FaithfulInv(s) && ControlInv(cfg, s) && Enabled(cfg, s, l)
    requires l.Response? ==> MapInv(cfg, s, s.inflight[l.i].ctx)
    ensures FaithfulInv(Next(cfg, s, l))
  {
    if l.Worker? {
      OnlyGrowsWorker(cfg, s, l.now, l.remaining, l.sequenceEnd);
    } else if l.Response? {
      FaithfulResponse(cfg, s, l.i, l.now, l.isNull, l.isFinal);
    } else {
      OnlyGrowsOther(cfg, s, l);
    }
  }

  /** Every record ever produced carries one timestamp per response of its
      request, in order, and at least one. */
  lemma {:induction false} FaithfulRun(cfg: Config, execute: bool, ls: seq<Label>)
    requires DistinctKeys(cfg) && Run(cfg, execute, ls).Some?
    ensures FaithfulInv(Run(cfg, execute, ls).value)
  {
    if ls != [] {
      var s, l := Run(cfg, execute, ls[..|ls| - 1]).value, ls[|ls| - 1];
      FaithfulRun(cfg, execute, ls[..|ls| - 1]);
      ControlRun(cfg, execute, ls[..|ls| - 1]);
      if l.Response? {
        MapRun(cfg, execute, ls[..|ls| - 1], s.inflight[l.i].ctx);
      }
      FaithfulNext(cfg, s, l);
    }
  }
}
