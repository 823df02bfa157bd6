/** One asynchronous concurrency worker, the callbacks that answer its requests
    and the main thread that steers it, as a machine of interleaved steps. Every
    step is one critical section or one access to shared state, and any thread
    may take the next step. All request and callback statuses are OK. */
module WorkerProtocol {
  import opened Basics
  import opened RequestKeys
  import opened RequestRecords
  import CtxIdTracker

  /** `sequence` is on_sequence_model_; `key` names a request in async_req_map_. */
  datatype Config = Config(sequence: bool, key: nat -> string)

  /** The worker of one thread: its keys are the packed request ids. */
  function WorkerConfig(sequence: bool, thread: nat): Config {
    Config(sequence, (rid: nat) => RequestKey(thread, rid))
  }

  /** How far the final callback of a request has come. A request leaves the
      machine when its callback has handed the context id back. */
  datatype Phase = Accepted | Recorded | Decremented

  /** A request the backend has accepted. The other fields are histories: when
      and with which sequence flag it was handed over, when the backend called
      back, and which of these responses were empty. */
  datatype Request = Request(
    ctx: nat,
    rid: nat,
    phase: Phase,
    sentAt: int,
    ends: bool,
    delivered: seq<int>,
    empty: seq<bool>)

  function NewRequest(ctx: nat, rid: nat, now: int, sequenceEnd: bool): Request {
    Request(ctx, rid, Accepted, now, sequenceEnd, [], [])
  }

  /** One entry of a thread's request_records_, with the request it is for and
      the times at which the backend called back for it. */
  datatype Completed = Completed(request: Request, record: RequestRecord)

  /** An inference context. `ongoing` is the 32-bit counter
      total_ongoing_requests_; `incs` and `decs` are histories of its updates. */
  datatype Ctx = Ctx(nextId: nat, reqMap: map<string, RequestRecord>, ongoing: nat, incs: nat, decs: nat)

  /** Where the worker goes when SendRequest returns. */
  datatype After = ToSendLoop | ToCompleting(next: nat, exiting: bool)

  /** The worker's program counter, in the order of RunInference. Closing the
      open sequences, waiting for the ongoing requests and resetting the tracker
      each happen in two places; `exiting` and `pausing` tell which. `Done(false)`
      is the exit of a worker parked at concurrency 0, which waits for nothing. */
  datatype Pc =
    | ExecOff
    | Completing(i: nat, exiting: bool)
    | Draining(i: nat, acc: nat, exiting: bool)
    | Resetting(pausing: bool)
    | Paused
    | NoConc
    | NoConcWait
    | CreateCtx
    | ExitCheck(stage: nat)
    | SendLoop
    | SendGate
    | GetId
    | Holding(ctx: nat)
    | Ready(ctx: nat)
    | Calling(ctx: nat, after: After)
    | Called(ctx: nat, after: After)
    | WaitStart
    | Waiting
    | ExitTimer
    | Done(drained: bool)
    | Crashed

  /** History variables: what the last Reset put in, what was taken or added
      outside the tracker since then, and running totals. */
  datatype History = History(
    resets: nat,
    resetCount: nat,
    late: multiset<nat>,
    extra: multiset<nat>,
    dropped: multiset<nat>,
    peak: nat,
    levels: nat,
    collects: nat,
    sent: nat,
    taken: seq<Completed>)

  datatype State = State(
    pc: Pc,
    execute: bool,
    earlyExit: bool,
    concurrency: nat,
    quota: nat,
    paused: bool,
    free: seq<nat>,
    ctxs: seq<Ctx>,
    inflight: seq<Request>,
    records: seq<Completed>,
    numSent: nat,
    notified: bool,
    timerActive: bool,
    hist: History)

  datatype Label =
    | Worker(now: int, remaining: bool, sequenceEnd: bool)
    | Response(i: nat, now: int, isNull: bool, isFinal: bool)
    | Decrement(i: nat)
    | Restore(i: nat)
    | PauseWorkers
    | ResumeWorkers
    | SetLevel(concurrency: nat, quota: nat)
    | SignalExit
    | CollectSent
    | TakeRecords
    | TouchTimer

  /** A freshly started worker thread. For an ordinary model execute_ is always
      true; on a sequence model the manager may be pausing. */
  function Init(cfg: Config, execute: bool): State {
    State(ExecOff, !cfg.sequence || execute, false, 0, 0, false, [], [], [], [], 0, false, false,
          History(0, 0, multiset{}, multiset{}, multiset{}, 0, 0, 0, 0, []))
  }

  // ---------------------------------------------------------------- tools

  predicate ShouldExit(s: State) {
    s.earlyExit || (s.quota != 0 && s.numSent >= s.quota)
  }

  /** The context ids of a list of requests. */
  function CtxIds(reqs: seq<Request>): multiset<nat> {
    if reqs == [] then multiset{}
    else CtxIds(reqs[..|reqs| - 1]) + multiset{reqs[|reqs| - 1].ctx}
  }

  /** ResetFreeCtxIds. */
  function Reset(cfg: Config, s: State): State {
    s.(free := CtxIdTracker.ResetIds(cfg.sequence, s.concurrency),
       hist := s.hist.(resets := s.hist.resets + 1, resetCount := s.concurrency, late := CtxIds(s.inflight),
                       extra := multiset{}, dropped := multiset{}))
  }

  function NewCtx(): Ctx {
    Ctx(0, map[], 0, 0, 0)
  }

  function Grow(ctxs: seq<Ctx>, count: nat): (r: seq<Ctx>)
    ensures |r| == Max(|ctxs|, count)
    ensures ctxs <= r
    ensures forall i :: |ctxs| <= i < |r| ==> r[i] == NewCtx()
  {
    ctxs + seq(if count > |ctxs| then count - |ctxs| else 0, i => NewCtx())
  }

  /** async_req_map_.emplace followed by the assignments to the entry: an entry
      that is already there keeps its responses. */
  function Emplace(cfg: Config, c: Ctx, now: int, sequenceEnd: bool): Ctx {
    var key := cfg.key(c.nextId);
    var entry := if key in c.reqMap then c.reqMap[key] else RequestRecord(now, [], true, false, false);
    c.(nextId := c.nextId + 1,
       reqMap := c.reqMap[key := entry.(start := now, sequenceEnd := sequenceEnd, delayed := false)])
  }

  /** SendRequest up to the point where the backend has the request and the
      idle timer runs; starting an active timer throws. */
  function Dispatch(cfg: Config, s: State, c: nat, now: int, sequenceEnd: bool, after: After): State
    requires c < |s.ctxs|
  {
    var reqs := s.inflight + [NewRequest(c, s.ctxs[c].nextId, now, sequenceEnd)];
    s.(pc := if s.timerActive then Crashed else Calling(c, after),
       timerActive := true,
       numSent := s.numSent + 1,
       ctxs := s.ctxs[c := Emplace(cfg, s.ctxs[c], now, sequenceEnd)],
       inflight := reqs,
       hist := s.hist.(sent := s.hist.sent + 1, peak := Max(s.hist.peak, |reqs|)))
  }

  /** The sequence of context i is closed with a request that no id was taken
      for. */
  function CloseSequence(cfg: Config, s: State, i: nat, exiting: bool, now: int, sequenceEnd: bool): State
    requires i < |s.ctxs|
  {
    Dispatch(cfg, s.(hist := s.hist.(extra := s.hist.extra + multiset{i})), i, now, sequenceEnd,
             ToCompleting(i + 1, exiting))
  }

  /** An id that is neither used nor handed back. */
  function Drop(s: State, c: nat): State {
    s.(pc := SendLoop, hist := s.hist.(dropped := s.hist.dropped + multiset{c}))
  }

  function Increment(s: State, c: nat, after: After): State
    requires c < |s.ctxs|
  {
    var x := s.ctxs[c];
    s.(ctxs := s.ctxs[c := x.(ongoing := (x.ongoing + 1) % UINT32, incs := x.incs + 1)],
       pc := match after case ToSendLoop => SendLoop case ToCompleting(n, exiting) => Completing(n, exiting))
  }

  // ---------------------------------------------------------------- worker

  predicate WorkerEnabled(s: State) {
    match s.pc
    case Paused => s.earlyExit || s.execute
    case NoConcWait => s.earlyExit || s.concurrency > 0
    case Waiting => s.notified
    case Done(_) => false
    case Crashed => false
    case _ => true
  }

  /** Steps that only move the worker along and touch flags and the timer. */
  predicate Quiet(pc: Pc) {
    match pc
    case Completing(_, _) => false
    case Resetting(_) => false
    case CreateCtx => false
    case GetId => false
    case Holding(_) => false
    case Ready(_) => false
    case Called(_, _) => false
    case _ => true
  }

  function MovePc(cfg: Config, s: State): Pc {
    match s.pc
    case ExecOff => if cfg.sequence && !s.execute then Completing(0, false) else NoConc
    case Draining(i, acc, exiting) =>
      if i < |s.ctxs| then Draining(i + 1, (acc + s.ctxs[i].ongoing) % UINT32, exiting)
      else if acc != 0 then Draining(0, 0, exiting)
      else if exiting then Done(true)
      else Resetting(true)
    case Paused => NoConc
    case NoConc => if s.concurrency == 0 then NoConcWait else CreateCtx
    case NoConcWait => if s.earlyExit && s.concurrency == 0 then Done(false) else CreateCtx
    case ExitCheck(stage) =>
      if ShouldExit(s) then Completing(0, true)
      else if stage == 0 then SendLoop
      else if stage == 1 then WaitStart
      else ExecOff
    case SendLoop => if s.free != [] then SendGate else ExitCheck(1)
    case SendGate => if s.execute && !ShouldExit(s) then GetId else ExitCheck(1)
    case Calling(c, after) => if s.timerActive then Called(c, after) else Crashed
    case WaitStart => if s.timerActive then Crashed else Waiting
    case Waiting => if s.timerActive then ExitCheck(2) else Crashed
    case ExitTimer => if s.timerActive then Crashed else Draining(0, 0, true)
    case _ => s.pc
  }

  function Move(cfg: Config, s: State): State {
    var pc := MovePc(cfg, s);
    s.(pc := pc,
       paused := s.paused && !pc.NoConc?,
       notified := s.notified && !s.pc.Waiting?,
       timerActive := s.pc.WaitStart? || s.pc.ExitTimer? || (s.timerActive && !s.pc.Calling? && !s.pc.Waiting?))
  }

  function CompletingStep(cfg: Config, s: State, now: int, remaining: bool, sequenceEnd: bool): State
    requires s.pc.Completing?
  {
    var i := s.pc.i;
    if !cfg.sequence || i >= |s.ctxs| then s.(pc := if s.pc.exiting then ExitTimer else Draining(0, 0, false))
    else if remaining then CloseSequence(cfg, s, i, s.pc.exiting, now, sequenceEnd)
    else s.(pc := Completing(i + 1, s.pc.exiting))
  }

  function ResettingStep(cfg: Config, s: State): State
    requires s.pc.Resetting?
  {
    Reset(cfg, s).(pc := if s.pc.pausing then Paused else ExitCheck(0), paused := s.pc.pausing || s.paused)
  }

  function CreateStep(cfg: Config, s: State): State
    requires s.pc.CreateCtx?
  {
    var active := if cfg.sequence then s.concurrency else 1;
    if active > |s.ctxs| then s.(ctxs := Grow(s.ctxs, active), pc := Resetting(false))
    else s.(pc := ExitCheck(0))
  }

  function GetStep(s: State): State
    requires s.pc.GetId?
  {
    if s.free == [] then s.(pc := Crashed) else s.(pc := Holding(s.free[0]), free := s.free[1..])
  }

  function HoldingStep(s: State): State
    requires s.pc.Holding?
  {
    if ShouldExit(s) then Drop(s, s.pc.ctx) else s.(pc := Ready(s.pc.ctx))
  }

  function ReadyStep(cfg: Config, s: State, now: int, sequenceEnd: bool): State
    requires s.pc.Ready?
  {
    if s.pc.ctx >= |s.ctxs| then s.(pc := Crashed)
    else if cfg.sequence && (s.earlyExit || !s.execute) then Drop(s, s.pc.ctx)
    else Dispatch(cfg, s, s.pc.ctx, now, sequenceEnd, ToSendLoop)
  }

  function CalledStep(s: State): State
    requires s.pc.Called?
  {
    if s.pc.ctx >= |s.ctxs| then s.(pc := Crashed) else Increment(s, s.pc.ctx, s.pc.after)
  }

  function WorkerStep(cfg: Config, s: State, now: int, remaining: bool, sequenceEnd: bool): State
    requires WorkerEnabled(s)
  {
    match s.pc
    case Completing(_, _) => CompletingStep(cfg, s, now, remaining, sequenceEnd)
    case Resetting(_) => ResettingStep(cfg, s)
    case CreateCtx => CreateStep(cfg, s)
    case GetId => GetStep(s)
    case Holding(_) => HoldingStep(s)
    case Ready(_) => ReadyStep(cfg, s, now, sequenceEnd)
    case Called(_, _) => CalledStep(s)
    case _ => Move(cfg, s)
  }

  // ---------------------------------------------------------------- callbacks

  /** The part of AsyncCallbackFuncImpl that runs under the thread's lock. A
      response whose id is not in the map counts as final. */
  function Respond(cfg: Config, s: State, i: nat, now: int, isNull: bool, isFinal: bool): State
    requires i < |s.inflight| && s.inflight[i].ctx < |s.ctxs|
  {
    var r := s.inflight[i];
    var c := s.ctxs[r.ctx];
    var key := cfg.key(r.rid);
    var heard := r.(delivered := r.delivered + [now], empty := r.empty + [isNull]);
    if key !in c.reqMap then s.(inflight := s.inflight[i := heard.(phase := Recorded)])
    else
      var e := c.reqMap[key];
      var e' := e.(responses := e.responses + [now], nullLast := e.nullLast || isNull);
      if isFinal then
        s.(inflight := s.inflight[i := heard.(phase := Recorded)],
           ctxs := s.ctxs[r.ctx := c.(reqMap := c.reqMap - {key})],
           records := s.records + [Completed(heard, e')])
      else
        s.(inflight := s.inflight[i := heard], ctxs := s.ctxs[r.ctx := c.(reqMap := c.reqMap[key := e'])])
  }

  function DecrementOngoing(s: State, i: nat): State
    requires i < |s.inflight| && s.inflight[i].ctx < |s.ctxs|
  {
    var r := s.inflight[i];
    var c := s.ctxs[r.ctx];
    s.(inflight := s.inflight[i := r.(phase := Decremented)],
       ctxs := s.ctxs[r.ctx := c.(ongoing := (c.ongoing + UINT32 - 1) % UINT32, decs := c.decs + 1)])
  }

  /** AsyncCallbackFinalize. */
  function RestoreId(s: State, i: nat): State
    requires i < |s.inflight|
  {
    s.(inflight := RemoveAt(s.inflight, i), free := s.free + [s.inflight[i].ctx], notified := true)
  }

  // ---------------------------------------------------------------- machine

  predicate InExecOff(pc: Pc) {
    match pc
    case ExecOff => true
    case Completing(_, exiting) => !exiting
    case Draining(_, _, exiting) => !exiting
    case Resetting(pausing) => pausing
    case Paused => true
    case _ => false
  }

  /** ReconfigThreads may write a worker's level at any time on an ordinary
      model. On a sequence model it runs while execute_ is off, and the worker
      is paused or has only just been created. */
  predicate LevelMayChange(cfg: Config, s: State) {
    !cfg.sequence || (!s.execute && (s.pc.Paused? || (s.ctxs == [] && InExecOff(s.pc))))
  }

  predicate HasPhase(s: State, i: nat, phase: Phase) {
    i < |s.inflight| && s.inflight[i].phase == phase && s.inflight[i].ctx < |s.ctxs|
  }

  predicate Enabled(cfg: Config, s: State, l: Label) {
    match l
    case Worker(_, _, _) => WorkerEnabled(s)
    case Response(i, _, _, _) => HasPhase(s, i, Accepted)
    case Decrement(i) => HasPhase(s, i, Recorded)
    case Restore(i) => HasPhase(s, i, Decremented)
    case SetLevel(_, _) => LevelMayChange(cfg, s)
    case _ => true
  }

  function Next(cfg: Config, s: State, l: Label): State
    requires Enabled(cfg, s, l)
  {
    match l
    case Worker(now, remaining, sequenceEnd) => WorkerStep(cfg, s, now, remaining, sequenceEnd)
    case Response(i, now, isNull, isFinal) => Respond(cfg, s, i, now, isNull, isFinal)
    case Decrement(i) => DecrementOngoing(s, i)
    case Restore(i) => RestoreId(s, i)
    case PauseWorkers => s.(execute := s.execute && !cfg.sequence)
    case ResumeWorkers => s.(execute := s.execute || cfg.sequence)
    case SetLevel(c, q) => s.(concurrency := c, quota := q, hist := s.hist.(levels := s.hist.levels + 1))
    case SignalExit => s.(earlyExit := true)
    case CollectSent => s.(numSent := 0, hist := s.hist.(collects := s.hist.collects + 1))
    case TakeRecords => s.(records := [], hist := s.hist.(taken := s.hist.taken + s.records))
    case TouchTimer => s
  }

  /** The state after a sequence of steps, if every step was possible. */
  function Exec(cfg: Config, s: State, ls: seq<Label>): Option<State> {
    if ls == [] then Some(s)
    else
      var before := Exec(cfg, s, ls[..|ls| - 1]);
      if before.Some? && Enabled(cfg, before.value, ls[|ls| - 1])
      then Some(Next(cfg, before.value, ls[|ls| - 1]))
      else None
  }

  /** A run of a worker from its creation. */
  function Run(cfg: Config, execute: bool, ls: seq<Label>): Option<State> {
    Exec(cfg, Init(cfg, execute), ls)
  }
}
