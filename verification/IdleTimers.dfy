/** The timer that measures how long a worker is idle. The worker starts and
    stops it; the main thread reads and resets it at any moment. */
module IdleTimers {

  /** `now` is what the steady clock shows when the method reads it. A false
      result stands for the exception. */
  class IdleTimer {
    var idleNs: int
    var isIdle: bool
    var startTime: int

    constructor ()
      ensures idleNs == 0 && !isIdle
    {
      idleNs, isIdle, startTime := 0, false, 0;
    }

    /** The time counted so far, including a running idle period. */
    ghost function Counted(now: int): int
      reads this
    {
      idleNs + if isIdle then now - startTime else 0
    }

    method Start(now: int) returns (ok: bool)
      modifies this
      ensures ok == !old(isIdle) && isIdle && idleNs == old(idleNs)
      ensures startTime == if ok then now else old(startTime)
    {
      ok := !isIdle;
      if ok {
        isIdle := true;
        startTime := now;
      }
    }

    method Stop(now: int) returns (ok: bool)
      modifies this
      ensures ok == old(isIdle) && !isIdle && startTime == old(startTime)
      ensures idleNs == old(Counted(now))
    {
      ok := isIdle;
      if ok {
        isIdle := false;
        idleNs := idleNs + (now - startTime);
      }
    }

    /** Never fails, keeps the timer active or inactive, and changes nothing that
        can be observed later except by rounding off the running period. */
    method Restart(now: int)
      modifies this
      ensures isIdle == old(isIdle) && idleNs == old(Counted(now))
      ensures forall t :: Counted(t) == old(Counted(t))
    {
      if isIdle {
        var ok := Stop(now);
        ok := Start(now);
      }
    }

    method GetIdleTime(now: int) returns (idle: int)
      modifies this
      ensures isIdle == old(isIdle) && idle == old(Counted(now))
      ensures forall t :: Counted(t) == old(Counted(t))
    {
      Restart(now);
      idle := idleNs;
    }

    /** Without interference the timer counts from `now` on. */
    method Reset(now: int)
      modifies this
      ensures isIdle == old(isIdle) && idleNs == 0 && forall t :: Counted(t) == if isIdle then t - now else 0
    {
      Restart(now);
      idleNs := 0;
    }
  }

  // ------------------------------------------------- interleavings

  /** The worker's Stop reads and writes the counter in two accesses; `sum` is
      what a Stop in progress is about to write. Reset takes the lock for the
      restart only, at time `resetAt`: the write of 0 that follows is not ordered
      with the accesses of a Stop. */
  datatype Timer = Timer(
    clock: int,
    idle: int,
    active: bool,
    since: int,
    stopping: bool,
    sum: int,
    resetting: bool,
    resetAt: int)

  datatype Action = Tick(now: int) | StartTimer | StopRead | StopWrite | RestartTimer | ResetRestart | ResetWrite

  function NewTimer(now: int): Timer {
    Timer(now, 0, false, now, false, 0, false, now)
  }

  predicate Possible(t: Timer, a: Action) {
    match a
    case Tick(now) => t.clock <= now
    case StartTimer => !t.stopping && !t.active
    case StopRead => !t.stopping && t.active
    case StopWrite => t.stopping
    case RestartTimer => !t.stopping && !t.resetting
    case ResetRestart => !t.stopping && !t.resetting
    case ResetWrite => t.resetting
  }

  function Restarted(t: Timer): Timer {
    if t.active then t.(idle := t.idle + (t.clock - t.since), since := t.clock) else t
  }

  function Act(t: Timer, a: Action): Timer
    requires Possible(t, a)
  {
    match a
    case Tick(now) => t.(clock := now)
    case StartTimer => t.(active := true, since := t.clock)
    case StopRead => t.(active := false, stopping := true, sum := t.idle + (t.clock - t.since))
    case StopWrite => t.(stopping := false, idle := t.sum)
    case RestartTimer => Restarted(t)
    case ResetRestart => Restarted(t).(resetting := true, resetAt := t.clock)
    case ResetWrite => t.(resetting := false, idle := 0)
  }

  function Play(t: Timer, acts: seq<Action>): (r: (bool, Timer))
    decreases |acts|
  {
    if acts == [] then (true, t)
    else if Possible(t, acts[0]) then Play(Act(t, acts[0]), acts[1..])
    else (false, t)
  }

  function Running(t: Timer): int {
    if t.active then t.clock - t.since else 0
  }

  /** What the timer has counted, and what a Stop in progress will make of it, is
      time since `base`. */
  predicate Sound(t: Timer, base: int) {
    && base <= t.clock && 0 <= t.idle
    && (t.active ==> base <= t.since <= t.clock && !t.stopping)
    && t.idle + Running(t) <= t.clock - base
    && (t.stopping ==> 0 <= t.sum <= t.clock - base)
    && (t.resetting ==> t.resetAt <= t.clock && (t.active ==> t.resetAt <= t.since))
  }

  lemma ActSound(t: Timer, a: Action, base: int)
    requires Sound(t, base) && Possible(t, a)
    ensures Sound(Act(t, a), base)
  {
  }

  lemma {:induction false} PlaySound(t: Timer, acts: seq<Action>, base: int)
    requires Sound(t, base)
    ensures Sound(Play(t, acts).1, base)
    decreases |acts|
  {
    if acts != [] && Possible(t, acts[0]) {
      ActSound(t, acts[0], base);
      PlaySound(Act(t, acts[0]), acts[1..], base);
    }
  }

  /** The reset about to be completed takes effect: no Stop is in progress, or one
      that only writes time since the reset. */
  predicate TakesEffect(t: Timer) {
    t.stopping ==> t.sum <= t.clock - t.resetAt
  }

  /** With a clock that does not run backwards, in every interleaving: once a
      reset has taken effect, what the timer shows is never negative and never
      exceeds the time since that reset, whatever comes after it. */
  lemma IdleWithinElapsed(start: int, before: seq<Action>, t: Timer, after: seq<Action>, u: Timer)
    requires Play(NewTimer(start), before) == (true, t) && t.resetting && TakesEffect(t)
    requires Play(Act(t, ResetWrite), after) == (true, u)
    ensures 0 <= u.idle <= u.idle + Running(u) <= u.clock - t.resetAt
  {
    PlaySound(NewTimer(start), before, start);
    PlaySound(Act(t, ResetWrite), after, t.resetAt);
  }

  /** The same from the start of the timer, without any condition. */
  lemma IdleSinceStart(start: int, acts: seq<Action>, t: Timer)
    requires Play(NewTimer(start), acts) == (true, t)
    ensures 0 <= t.idle <= t.idle + Running(t) <= t.clock - start
  {
    PlaySound(NewTimer(start), acts, start);
  }

  /** Whether the timer stays within the time since `base` until the next reset,
      in every continuation. */
  ghost predicate StaysWithin(t: Timer, base: int) {
    forall acts, u :: ResetWrite !in acts && Play(t, acts) == (true, u) ==> u.idle + Running(u) <= u.clock - base
  }

  /** For every reachable moment at which a reset is about to write its 0: from
      then on the timer stays within the time since that reset, in every
      continuation, if and only if no Stop is in progress that will write more
      than that time. */
  lemma ResetTakesEffect(start: int, before: seq<Action>, t: Timer)
    requires Play(NewTimer(start), before) == (true, t) && t.resetting
    ensures StaysWithin(Act(t, ResetWrite), t.resetAt) <==> !t.stopping || t.sum <= t.clock - t.resetAt
  {
    var after := Act(t, ResetWrite);
    PlaySound(NewTimer(start), before, start);
    if TakesEffect(t) {
      forall acts, u | ResetWrite !in acts && Play(after, acts) == (true, u)
        ensures u.idle + Running(u) <= u.clock - t.resetAt
      {
        PlaySound(after, acts, t.resetAt);
      }
    } else {
      PlayNext(after, [StopWrite]);
      assert Play(after, [StopWrite]) == (true, Act(after, StopWrite));
    }
  }

  /** A torn reset: after ten units of idling and a reset at time 10, the timer
      shows 10 at time 10. */
  lemma TornReset() returns (t: Timer)
    ensures Play(NewTimer(0), [StartTimer, Tick(10), ResetRestart, StopRead, ResetWrite, StopWrite]) == (true, t)
    ensures t.clock == t.resetAt == 10 && t.idle == 10
  {
    var t1 := Act(NewTimer(0), StartTimer);
    var t2 := Act(t1, Tick(10));
    var t3 := Act(t2, ResetRestart);
    var t4 := Act(t3, StopRead);
    var t5 := Act(t4, ResetWrite);
    t := Act(t5, StopWrite);
    PlayNext(t5, [StopWrite]);
    PlayNext(t4, [ResetWrite, StopWrite]);
    PlayNext(t3, [StopRead, ResetWrite, StopWrite]);
    PlayNext(t2, [ResetRestart, StopRead, ResetWrite, StopWrite]);
    PlayNext(t1, [Tick(10), ResetRestart, StopRead, ResetWrite, StopWrite]);
    PlayNext(NewTimer(0), [StartTimer, Tick(10), ResetRestart, StopRead, ResetWrite, StopWrite]);
  }

  lemma PlayNext(t: Timer, acts: seq<Action>)
    requires acts != [] && Possible(t, acts[0])
    ensures Play(t, acts) == Play(Act(t, acts[0]), acts[1..])
  {
  }
}
