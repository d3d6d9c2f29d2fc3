/** `clawdline heavy`: wait in turn for a slot of which there is one, and for
    memory, and run a command then. It fails open: whatever the daemon says or fails to
    say, only a full wait, an accepted callback or a held restart lease keeps
    the command from running. */
module Heavy {
  import opened Compiles
  import opened LeaseWorld

  const FLOOR_CAP: int := 0x4000_0000
  const PRESSURE_CEILING := 10.0

  datatype Options = Options(
    reason: string, minAvailable: int, wait: int, compile: bool, noSlot: bool, handoff: bool, port: int)

  /** What the command finds around itself. `conversation` is empty when the
      environment names none or more than one; `defaultState` is the state
      directory used when the environment names none. */
  datatype Deps = Deps(
    broker: bool, env: Env, requestID: string, executable: string, cwd: string,
    defaultState: string, childWorktree: bool, conversation: string)
  {
    predicate MayHandOff() {
      && broker
      && (Getenv(env, NextDir) == "" || Getenv(env, NextDir) == defaultState)
      && executable != "" && cwd != ""
      && Getenv(env, TaskSecret) == "" && !childWorktree
      && conversation != ""
    }
  }

  // ---------------------------------------------------------------- memory and exit status

  predicate MemoryRoom(memTotal: nat, memAvailable: int, pressure: Pressure, minAvailable: int) {
    var quarter := memTotal / 4;
    var floor := if minAvailable > 0 then minAvailable else if FLOOR_CAP < quarter then FLOOR_CAP else quarter;
    floor <= memAvailable && (pressure.MemorySome? ==> pressure.percent < PRESSURE_CEILING)
  }

  /** The sampler does not ask for a wait: there is room, or it cannot tell. */
  predicate Clear(sample: Sample, minAvailable: int) {
    sample.Reading? ==> MemoryRoom(sample.memTotal, sample.memAvailable, sample.pressure, minAvailable)
  }

  function ExitStatus(outcome: Outcome): int {
    match outcome
    case Finished(status) => status
    case Signaled(signal) => 128 + signal
    case Exited(code) => if code >= 0 then code else 1
    case NotStarted => 127
  }

  // ---------------------------------------------------------------- one run

  /** The sleeping so far fits the time allowed, give or take its longest pause. */
  predicate InTime(m: Monitor, wait: int) { m.slept == 0 || (0 < wait && m.slept < wait + m.longest) }

  /** The callback a wait is handed to, asked for at most once. */
  class Handover {
    const opts: Options
    const d: Deps
    var attempted: bool

    constructor (opts: Options, d: Deps)
      ensures this.opts == opts && this.d == d && !attempted
    {
      this.opts, this.d, attempted := opts, d, false;
    }

    /** One hand-over, exactly when it has been attempted and is possible. */
    ghost predicate Asked(m: Monitor)
      reads this
    {
      m.accepted <= m.started <= m.callbacks == B(attempted && d.MayHandOff()) && (attempted ==> opts.handoff)
    }

    /** A hand-over that is wanted has been attempted. */
    ghost predicate Tried()
      reads this
    {
      attempted == opts.handoff
    }

    ghost predicate Agrees(m: Monitor)
      reads this
    {
      m.accepted == 0 && Asked(m)
    }

    method Try(w: World) returns (accepted: bool)
      requires w.Valid() && Agrees(w.seen) && w.seen.runs == w.seen.cancels == w.seen.releases == 0
      modifies this`attempted, w`now, w`trace, w`history, w`seen
      ensures w.Valid() && old(w.now) <= w.now
      ensures Asked(w.seen) && Tried() && w.seen.accepted == B(accepted)
      ensures w.seen == old(w.seen).(callbacks := w.seen.callbacks, accepted := w.seen.accepted,
        started := w.seen.started)
    {
      if !opts.handoff || attempted {
        return false;
      }
      attempted := true;
      if !d.MayHandOff() {
        return false;
      }
      accepted := w.StartCallback();
    }
  }

  class HeavySlot {
    var b: bool
    var held: bool

    constructor (b: bool)
      ensures this.b == b && !held
    {
      this.b, held := b, false;
    }

    ghost predicate Agrees(m: Monitor)
      reads this
    {
      (held ==> b) && m.grants == B(held) && (m.grants == 0 ==> m.renewals == 0) && (m.cancels == 1 ==> !b)
        && m.cancels <= 1
    }

    method Release(w: World)
      requires w.Valid() && (b && held ==> CanRelease(w.seen))
      modifies w`now, w`trace, w`history, w`seen
      ensures w.Valid() && old(w.now) <= w.now && old(w.trace) <= w.trace
      ensures w.seen == old(w.seen).(releases := old(w.seen.releases) + B(b && held))
    {
      if !b || !held {
        return;
      }
      var _ := w.ReleaseLease();
    }

    method Cancel(w: World)
      requires w.Valid() && b && CanCancel(w.seen)
      modifies this`b, w`now, w`trace, w`history, w`seen
      ensures w.Valid() && old(w.now) <= w.now && !b
      ensures w.seen == old(w.seen).(cancels := old(w.seen.cancels) + 1)
    {
      var _ := w.CancelLease();
      b := false;
    }

    /** One more turn in the line, unless a callback takes the wait (76) or its
        time is over (75): then the line is left. */
    method StayInLine(w: World, deadline: int, h: Handover) returns (code: int)
      requires w.Valid() && b && h.Agrees(w.seen) && CanCancel(w.seen) && w.seen.releases == 0
      modifies this`b, h`attempted, w`now, w`trace, w`history, w`seen
      ensures w.Valid() && old(w.now) <= w.now && h.Asked(w.seen) && h.Tried() && b == (code == 0)
      ensures (code == 0 || LeftWaiting(code)) && w.seen.accepted == B(code == EXIT_HANDED_OFF)
      ensures code == 0 ==> w.now < deadline
      ensures code == EXIT_TIMED_OUT ==> deadline <= w.now
      ensures var m := old(w.seen);
        w.seen == m.(callbacks := w.seen.callbacks, accepted := w.seen.accepted, started := w.seen.started,
                     cancels := B(code != 0))
    {
      var accepted := h.Try(w);
      if accepted {
        Cancel(w);
        return EXIT_HANDED_OFF;
      }
      var now := w.Now();
      if deadline <= now {
        Cancel(w);
        return EXIT_TIMED_OUT;
      }
      return 0;
    }

    /** What is kept from one turn in the line to the next. */
    ghost predicate Queued(w: World, start: int, h: Handover)
      reads this, w, h
    {
      && w.Valid() && b && !held && start <= w.now && w.asleep <= w.now - start
      && InTime(w.seen, h.opts.wait) && h.Asked(w.seen)
      && (0 < w.seen.slept ==> h.Tried()) && (h.attempted ==> 0 < w.seen.slept)
      && w.seen == Unobserved.(asks := w.seen.asks, lastAsk := w.seen.lastAsk, callbacks := w.seen.callbacks,
           started := w.seen.started, sleeps := w.seen.asks, slept := w.asleep, longest := w.seen.longest)
      && w.seen.sleeps * POLL <= w.seen.slept && (w.seen.asks == 0 || w.seen.lastAsk.KeepsWaiting())
    }

    /** What is left when the line has been left with this status. */
    ghost predicate LeftLine(w: World, start: int, h: Handover, code: int)
      reads this, w, h
    {
      && w.Valid() && start <= w.now && w.asleep <= w.now - start
      && InTime(w.seen, h.opts.wait) && h.Asked(w.seen) && 0 < w.seen.asks
      && (code == 0 || LeftWaiting(code)) && b == held == w.seen.lastAsk.Grants() && (code != 0 ==> !held)
      && (code != 0) == w.seen.lastAsk.KeepsWaiting() && (code != 0 ==> h.Tried())
      && (0 < w.seen.slept ==> h.Tried()) && (code == 0 && h.attempted ==> 0 < w.seen.slept)
      && w.seen == Unobserved.(asks := w.seen.asks, lastAsk := w.seen.lastAsk,
           grants := B(held), cancels := B(code != 0),
           proof := w.seen.proof, callbacks := w.seen.callbacks, started := w.seen.started,
           accepted := B(code == EXIT_HANDED_OFF), sleeps := w.seen.asks - 1, slept := w.asleep,
           longest := w.seen.longest)
      && w.seen.sleeps * POLL <= w.seen.slept && (held ==> w.seen.proof == w.asleep)
      && (code == EXIT_TIMED_OUT ==> start + h.opts.wait <= w.now)
    }

    /** The line is open: it is left, or there is a pause as long as the answer asks for. */
    method WaitTurn(w: World, reply: Reply, deadline: int, ghost start: int, h: Handover) returns (code: int)
      requires w.Valid() && b && !held && start <= w.now && w.asleep <= w.now - start && InTime(w.seen, h.opts.wait)
      requires h.Agrees(w.seen) && (0 < w.seen.slept ==> h.Tried()) && (h.attempted ==> 0 < w.seen.slept)
      requires reply.KeepsWaiting() && 0 < w.seen.asks && deadline == start + h.opts.wait
      requires w.seen == Unobserved.(asks := w.seen.asks, lastAsk := reply, callbacks := w.seen.callbacks,
        started := w.seen.started, sleeps := w.seen.asks - 1, slept := w.asleep, longest := w.seen.longest)
      requires w.seen.sleeps * POLL <= w.seen.slept
      modifies this`b, w, h`attempted
      ensures old(w.now) <= w.now && if code != 0 then LeftLine(w, start, h, code) else Queued(w, start, h)
      ensures code == 0 ==> w.seen.lastAsk == reply && w.asleep == old(w.asleep) + reply.Pause()
      ensures code == 0 ==> old(w.now) < w.now && old(w.now) < deadline
    {
      code := StayInLine(w, deadline, h);
      if code == 0 {
        var pause, r := POLL, Wrap64(reply.retryAfterSeconds * SECOND);
        if r > pause {
          pause := r;
        }
        w.Sleep(pause);
      }
    }

    /** One request, and one turn of waiting when the line is open. */
    method Turn(w: World, deadline: int, ghost start: int, h: Handover) returns (over: bool, code: int)
      requires Queued(w, start, h) && deadline == start + h.opts.wait
      modifies this, w, h`attempted
      ensures old(w.now) <= w.now && if over then LeftLine(w, start, h, code) else Queued(w, start, h)
      ensures !over ==> old(w.now) < w.now && old(w.now) < deadline
      ensures !over ==> w.seen.lastAsk.KeepsWaiting() && w.asleep == old(w.asleep) + w.seen.lastAsk.Pause()
    {
      over, code := true, 0;
      var reply := w.AskLease();
      if reply.KeepsWaiting() {
        code := WaitTurn(w, reply, deadline, start, h);
        over := code != 0;
      } else if reply.Grants() {
        held := true;
      } else {
        b := false;
      }
    }

    /** 0 with the slot or without one that could be had; while the line is open it
        is left only by 75, in time, or 76, by a callback. */
    method Acquire(w: World, deadline: int, ghost start: int, h: Handover) returns (code: int)
      requires b && !held && !h.attempted && deadline == start + h.opts.wait && start <= w.now
      requires w.Valid() && w.seen == Unobserved && w.asleep == 0
      modifies this, w, h`attempted
      ensures LeftLine(w, start, h, code) && old(w.now) <= w.now
    {
      code := 0;
      var over := false;
      while !over
        invariant old(w.now) <= w.now && if over then LeftLine(w, start, h, code) else Queued(w, start, h)
        decreases !over, deadline - w.now
      {
        over, code := Turn(w, deadline, start, h);
      }
    }
  }

  /** Renews a held slot that was last renewed long enough ago, then waits a poll. */
  method HoldOnce(w: World, slot: HeavySlot, now: int, lastRenew: int) returns (renewed: int)
    requires w.Valid() && now <= w.now && CanWait(w.seen) && slot.Agrees(w.seen) && w.seen.losses == 0
    requires w.seen.orderly && w.seen.punctual && w.seen.runs == 0
    requires slot.held ==> w.asleep - w.seen.proof < RENEW + POLL && w.asleep - w.seen.proof <= now - lastRenew
    modifies w
    ensures w.Valid() && old(w.now) + POLL <= w.now && w.asleep == old(w.asleep) + POLL
    ensures renewed == if slot.held && now - lastRenew >= RENEW then now else lastRenew
    ensures slot.held ==> w.asleep - w.seen.proof < RENEW + POLL && w.asleep - w.seen.proof <= w.now - renewed
    ensures var m := old(w.seen);
      && w.seen == AfterSleep(m, POLL).(renewals := w.seen.renewals, proof := w.seen.proof)
      && w.seen.renewals == m.renewals + B(slot.held && now - lastRenew >= RENEW)
  {
    renewed := lastRenew;
    if slot.b && slot.held && now - lastRenew >= RENEW {
      var _ := w.RenewLease(MemoryWait);
      renewed := now;
    }
    w.Sleep(POLL);
  }

  /** Why a memory wait ends without the command: the deadline, or, the first
      time it has to wait, a callback that took it. */
  method GiveUp(w: World, deadline: int, now: int, waiting: bool, h: Handover) returns (code: int)
    requires w.Valid() && now == w.now && h.Agrees(w.seen) && w.seen.runs == w.seen.cancels == w.seen.releases == 0
    modifies h`attempted, w`now, w`trace, w`history, w`seen
    ensures w.Valid() && old(w.now) <= w.now && h.Asked(w.seen)
    ensures w.seen == old(w.seen).(callbacks := w.seen.callbacks, accepted := w.seen.accepted,
      started := w.seen.started)
    ensures (code == 0 || LeftWaiting(code)) && w.seen.accepted == B(code == EXIT_HANDED_OFF)
    ensures (code == EXIT_TIMED_OUT) == (deadline <= now)
    ensures h.attempted == (old(h.attempted) || (now < deadline && !waiting && h.opts.handoff))
  {
    if deadline <= now {
      return EXIT_TIMED_OUT;
    }
    if !waiting {
      var accepted := h.Try(w);
      if accepted {
        return EXIT_HANDED_OFF;
      }
    }
    return 0;
  }

  /** One look at memory: no reading is no reason to wait. */
  method LookAtMemory(w: World, minAvailable: int) returns (clear: bool)
    requires w.Valid() && CanWait(w.seen)
    modifies w`now, w`looked, w`trace, w`history, w`seen
    ensures w.Valid() && old(w.now) <= w.now
    ensures w.seen == old(w.seen).(samples := old(w.seen.samples) + 1, lastSample := w.seen.lastSample)
    ensures clear == Clear(w.seen.lastSample, minAvailable)
  {
    var s := w.SampleMemory();
    if !s.Reading? {
      return true;
    }
    clear := MemoryRoom(s.memTotal, s.memAvailable, s.pressure, minAvailable);
  }

  /** The first n looks at memory asked for a wait. */
  ghost predicate Short(answers: Answers, n: int, minAvailable: int) {
    forall i: nat :: i < n ==> !Clear(answers.sample(i), minAvailable)
  }

  /** What a memory wait keeps; `first` is what was seen when it began. */
  ghost predicate Holding(w: World, first: Monitor, start: int, slot: HeavySlot, h: Handover)
    reads w, slot, h
  {
    && w.Valid() && w.asleep <= w.now - start && InTime(w.seen, h.opts.wait) && h.Asked(w.seen)
    && w.seen == first.(samples := w.seen.samples, lastSample := w.seen.lastSample,
         renewals := w.seen.renewals, proof := w.seen.proof, callbacks := w.seen.callbacks, started := w.seen.started,
         accepted := w.seen.accepted, sleeps := w.seen.sleeps, slept := w.asleep, longest := w.seen.longest)
    && w.seen.sleeps * POLL <= w.seen.slept && first.samples <= w.seen.samples
      && (!slot.held ==> w.seen.renewals == first.renewals)
    && (0 < w.seen.slept ==> h.Tried())
  }

  /** Memory asks for a wait: it is left, or there is one poll of waiting. */
  method HoldTurn(w: World, deadline: int, ghost start: int, ghost first: Monitor, slot: HeavySlot, h: Handover,
    waiting: bool, lastRenew: int)
      returns (code: int, renewed: int)
    requires Holding(w, first, start, slot, h) && deadline == start + h.opts.wait && start <= w.now
      && lastRenew <= w.now
    requires first.orderly && first.punctual && first.losses == 0 && CanWait(first) && w.seen.accepted == 0
      && slot.Agrees(first)
    requires slot.held ==> w.asleep - w.seen.proof < RENEW + POLL && w.asleep - w.seen.proof <= w.now - lastRenew
    requires (h.attempted ==> 0 < w.seen.slept) && (waiting ==> h.Tried())
    modifies w, h`attempted
    ensures Holding(w, first, start, slot, h) && old(w.now) <= w.now
    ensures w.seen.samples == old(w.seen.samples) && w.seen.lastSample == old(w.seen.lastSample)
    ensures w.seen.sleeps == old(w.seen.sleeps) + B(code == 0)
    ensures (code == 0 || LeftWaiting(code)) && w.seen.accepted == B(code == EXIT_HANDED_OFF)
    ensures code == EXIT_TIMED_OUT ==> deadline <= w.now
    ensures code == 0 ==>
      h.Tried() && 0 < w.seen.slept && renewed <= w.now && old(w.now) < w.now && old(w.now) < deadline
    ensures code == 0 && slot.held ==>
      w.asleep - w.seen.proof < RENEW + POLL && w.asleep - w.seen.proof <= w.now - renewed
  {
    renewed := lastRenew;
    var now := w.Now();
    code := GiveUp(w, deadline, now, waiting, h);
    if code == 0 {
      renewed := HoldOnce(w, slot, now, lastRenew);
    }
  }

  /** One look at memory and, while it asks for a wait, one turn of waiting. */
  method MemoryTurn(w: World, deadline: int, ghost start: int, ghost first: Monitor, slot: HeavySlot, h: Handover,
    waiting: bool, lastRenew: int)
      returns (over: bool, code: int, renewed: int)
    requires Holding(w, first, start, slot, h) && deadline == start + h.opts.wait && start <= w.now
      && lastRenew <= w.now
    requires first.orderly && first.punctual && first.losses == 0 && CanWait(first) && w.seen.accepted == 0
      && slot.Agrees(first)
    requires slot.held ==> w.asleep - w.seen.proof < RENEW + POLL && w.asleep - w.seen.proof <= w.now - lastRenew
    requires (h.attempted ==> 0 < w.seen.slept) && (waiting ==> h.Tried())
    requires w.seen.sleeps - first.sleeps == w.seen.samples - first.samples
    requires Short(w.answers, w.seen.samples, h.opts.minAvailable)
    modifies w, h`attempted
    ensures Short(w.answers, w.seen.samples - B(over), h.opts.minAvailable)
    ensures Holding(w, first, start, slot, h) && old(w.now) <= w.now && first.samples < w.seen.samples
    ensures w.seen.sleeps - first.sleeps == w.seen.samples - first.samples - B(over)
    ensures over ==> (code == 0) == Clear(w.seen.lastSample, h.opts.minAvailable)
    ensures (code == 0 || LeftWaiting(code)) && w.seen.accepted == B(code == EXIT_HANDED_OFF)
    ensures code == 0 ==> (h.attempted ==> 0 < w.seen.slept) && (slot.held ==> w.asleep - w.seen.proof < RENEW + POLL)
    ensures code == EXIT_TIMED_OUT ==> deadline <= w.now
    ensures !over ==> code == 0 && h.Tried() && renewed <= w.now && old(w.now) < w.now && old(w.now) < deadline
    ensures !over && slot.held ==> w.asleep - w.seen.proof <= w.now - renewed
  {
    over, code, renewed := true, 0, lastRenew;
    var clear := LookAtMemory(w, h.opts.minAvailable);
    if !clear {
      code, renewed := HoldTurn(w, deadline, start, first, slot, h, waiting, lastRenew);
      over := code != 0;
    }
  }

  /** Waits until the sampler no longer asks for it, with the slot renewed meanwhile: 0
      then, and otherwise the status of a wait that is left. */
  method WaitForMemory(w: World, deadline: int, ghost start: int, slot: HeavySlot, h: Handover) returns (code: int)
    requires w.Valid() && start <= w.now && deadline == start + h.opts.wait && w.asleep <= w.now - start
    requires w.seen.orderly && w.seen.punctual && w.seen.losses == 0 && CanWait(w.seen)
    requires w.seen.slept == w.asleep && InTime(w.seen, h.opts.wait) && slot.Agrees(w.seen) && h.Asked(w.seen)
    requires slot.held ==> w.seen.proof == w.asleep
    requires (0 < w.seen.slept ==> h.Tried()) && (h.attempted ==> 0 < w.seen.slept)
      && w.seen.sleeps * POLL <= w.seen.slept
    requires Short(w.answers, w.seen.samples, h.opts.minAvailable)
    modifies w, h`attempted
    ensures Short(w.answers, w.seen.samples - 1, h.opts.minAvailable)
    ensures Holding(w, old(w.seen), start, slot, h) && old(w.now) <= w.now && old(w.seen.samples) < w.seen.samples
    ensures w.seen.sleeps - old(w.seen.sleeps) == w.seen.samples - old(w.seen.samples) - 1
    ensures (code == 0 || LeftWaiting(code)) && w.seen.accepted == B(code == EXIT_HANDED_OFF)
    ensures (code == 0) == Clear(w.seen.lastSample, h.opts.minAvailable)
      && (code == 0 && h.attempted ==> 0 < w.seen.slept)
    ensures code == 0 && slot.held ==> w.asleep - w.seen.proof < RENEW + POLL
    ensures code == EXIT_TIMED_OUT ==> deadline <= w.now
  {
    ghost var first := w.seen;
    var waiting, over := false, false;
    var lastRenew := w.Now();
    code := 0;
    while !over
      invariant Holding(w, first, start, slot, h) && old(w.now) <= w.now && lastRenew <= w.now
      invariant (code == 0 || LeftWaiting(code)) && w.seen.accepted == B(code == EXIT_HANDED_OFF)
        && (!over ==> code == 0)
      invariant code == 0 && h.attempted ==> 0 < w.seen.slept
      invariant over ==> (code == 0) == Clear(w.seen.lastSample, h.opts.minAvailable)
      invariant Short(w.answers, w.seen.samples - B(over), h.opts.minAvailable)
      invariant w.seen.sleeps - first.sleeps == w.seen.samples - first.samples - B(over)
      invariant code == 0 && slot.held ==> w.asleep - w.seen.proof < RENEW + POLL
      invariant !over && slot.held ==> w.asleep - w.seen.proof <= w.now - lastRenew
      invariant (!over && waiting ==> h.Tried()) && (over ==> first.samples < w.seen.samples)
        && (code == EXIT_TIMED_OUT ==> deadline <= w.now)
      decreases !over, deadline - w.now
    {
      var renewed;
      over, code, renewed := MemoryTurn(w, deadline, start, first, slot, h, waiting, lastRenew);
      if !over {
        waiting, lastRenew := true, renewed;
      }
    }
  }

  /** One pause, a poll long at least, between two requests and between two looks at
      memory, and no other. */
  ghost predicate Paces(m: Monitor) {
    && m.sleeps == (if 0 < m.asks then m.asks - 1 else 0) + (if 0 < m.samples then m.samples - 1 else 0)
    && m.sleeps * POLL <= m.slept
  }

  /** The slot was asked for, and a line that was still open was not left to run. */
  ghost predicate InLine(m: Monitor, proceeds: bool) {
    && 0 < m.asks && m.grants == B(m.lastAsk.Grants())
    && (proceeds ==> !m.lastAsk.KeepsWaiting()) && m.cancels == B(m.lastAsk.KeepsWaiting())
  }

  /** What the waits leave behind. */
  ghost predicate Waited(m: Monitor, slot: HeavySlot, h: Handover, code: int)
    reads slot, h
  {
    && m.orderly && m.punctual && m.runs == m.ends == m.losses == m.announced == 0
    && slot.Agrees(m) && h.Asked(m) && InTime(m, h.opts.wait) && Paces(m)
    && (0 < m.slept || m.cancels == 1 ==> h.Tried()) && (code == 0 && h.attempted ==> 0 < m.slept)
    && (code == 0 || LeftWaiting(code)) && m.accepted == B(code == EXIT_HANDED_OFF)
    && m.releases == B(code != 0 && m.grants == 1) && m.cancels == B(code != 0 && 0 < m.asks && m.samples == 0)
    && (code == 0 ==> 0 < m.samples) && (0 < m.samples ==> (code == 0) == Clear(m.lastSample, h.opts.minAvailable))
  }

  /** The memory wait, and the release of a slot that is held when it is left. */
  method PrepareMemory(w: World, slot: HeavySlot, h: Handover, start: int) returns (code: int)
    requires w.Valid() && start <= w.now && w.asleep <= w.now - start && InTime(w.seen, h.opts.wait)
    requires w.seen == Unobserved.(asks := w.seen.asks, lastAsk := w.seen.lastAsk, grants := w.seen.grants,
      proof := w.seen.proof, callbacks := w.seen.callbacks, started := w.seen.started,
      sleeps := w.seen.sleeps, slept := w.asleep, longest := w.seen.longest)
    requires slot.Agrees(w.seen) && h.Agrees(w.seen) && Paces(w.seen) && (slot.held ==> w.seen.proof == w.asleep)
    requires (0 < w.seen.slept ==> h.Tried()) && (h.attempted ==> 0 < w.seen.slept)
    modifies w, h`attempted
    ensures w.Valid() && old(w.now) <= w.now && Waited(w.seen, slot, h, code) && w.seen.cancels == 0
    ensures w.seen.asks == old(w.seen.asks) && w.seen.lastAsk == old(w.seen.lastAsk)
      && w.seen.grants == old(w.seen.grants)
    ensures !slot.held ==> w.seen.renewals == w.seen.releases == 0
    ensures code == EXIT_TIMED_OUT ==> start + h.opts.wait <= w.now
    ensures code == 0 && slot.held ==> w.asleep - w.seen.proof < RENEW + POLL
    ensures Short(w.answers, w.seen.samples - 1, h.opts.minAvailable)
  {
    code := WaitForMemory(w, start + h.opts.wait, start, slot, h);
    if code != 0 {
      slot.Release(w);
    }
  }

  /** The waits: the slot when one is to be had, then memory. A run that ends
      here gives back what it holds. */
  method Prepare(w: World, slot: HeavySlot, h: Handover, start: int) returns (code: int)
    requires w.Valid() && w.trace == [] && w.seen == Unobserved && w.asleep == 0 && start == w.now
    requires !slot.held && !h.attempted
    modifies w, slot, h`attempted
    ensures w.Valid() && old(w.now) <= w.now && Waited(w.seen, slot, h, code)
    ensures old(slot.b) && !h.opts.noSlot ==> InLine(w.seen, code == 0)
    ensures code == EXIT_TIMED_OUT ==> start + h.opts.wait <= w.now
    ensures h.opts.noSlot || !old(slot.b) ==> w.seen.LeaseRequests() == w.seen.grants == 0
    ensures code == 0 && slot.held ==> w.asleep - w.seen.proof < RENEW + POLL
    ensures Short(w.answers, w.seen.samples - 1, h.opts.minAvailable)
  {
    code := 0;
    if slot.b && !h.opts.noSlot {
      code := slot.Acquire(w, start + h.opts.wait, start, h);
    }
    if code == 0 {
      code := PrepareMemory(w, slot, h, start);
    }
  }

  /** The second observation is of the command and its release after the first. */
  ghost predicate Executed(m: Monitor, m': Monitor, outcome: Outcome) {
    && m' == m.(runs := 1, ends := 1, outcome := outcome, renewals := m'.renewals, losses := m'.losses,
                announced := m.grants, proof := m'.proof, releases := m'.releases)
    && (m.grants == 1 ==> m.renewals < m'.renewals && m'.losses <= 1 && m'.releases == 1 - m'.losses)
    && (m.grants == 0 ==> m' == m.(runs := 1, ends := 1, outcome := outcome))
  }

  /** Every renewal that came due beside the command was sent, until one was told that
      the lease is lost. */
  ghost predicate RenewedBeside(m: Monitor, answers: Answers) {
    m.grants == 1 && m.runs == 1 && m.losses == 0 ==> answers.Due() + m.announced <= m.renewals
  }

  /** The command under the slot: announced before it starts, renewed beside it,
      and given back after it unless the renewer was told it is gone. */
  method Execute(w: World, slot: HeavySlot, argv: seq<string>, env: Env) returns (outcome: Outcome)
    requires w.Valid() && w.seen.orderly && w.seen.punctual && slot.Agrees(w.seen)
    requires w.seen.runs == w.seen.ends == w.seen.losses == w.seen.accepted == w.seen.cancels == w.seen.releases == 0
    requires w.seen.announced == 0
    requires slot.held ==> w.asleep - w.seen.proof < RENEW + POLL
    modifies w, slot
    ensures w.Valid() && old(w.now) <= w.now
    ensures Executed(old(w.seen), w.seen, outcome)
    ensures RenewedBeside(w.seen, w.answers)
    ensures Ran(w.trace, argv, env)
  {
    if slot.b && slot.held {
      var _ := w.RenewLease(Announcement);
    }
    var lost;
    outcome, lost := RunBeside(w, slot.b && slot.held, argv, env);
    ghost var t := w.trace;
    if lost {
      slot.held := false;
    }
    slot.Release(w);
    RanStays(t, w.trace, argv, env);
  }

  /** How a run starts: under a parent that holds the slot; as ordinary work; not
      at all, under a restart lease; or by waiting. */
  datatype Route = Nested | Ordinary | Refused | Waits

  function RouteOf(opts: Options, native: bool, d: Deps): Route {
    if Getenv(d.env, ClawdlineHeavy) != "" then Nested
    else if !opts.compile && !native && !opts.noSlot then Ordinary
    else if !opts.noSlot && Getenv(d.env, DaemonRestartHeld) != "" then Refused
    else Waits
  }

  /** The words that run: ordinary work also bypasses the Linux cache wrapper,
      which holds a lock of its own. */
  function Command(route: Route, argv: seq<string>): seq<string> {
    if route.Ordinary? && argv != [] && Base(argv[0]) == "run-heavy-linux.sh" then argv[1..] else argv
  }

  /** What is added to its environment: ordinary work is not marked as holding
      a slot, so a native build below it still asks for its own. */
  function Environment(route: Route, d: Deps): Env {
    match route
    case Nested => map[ClawdlineHeavy := Getenv(d.env, ClawdlineHeavy)]
    case Ordinary => map[]
    case _ => map[ClawdlineHeavy := d.requestID]
  }

  /** Nothing but a full wait, an accepted callback or a held restart lease keeps
      the command from running, and it never runs twice. */
  ghost predicate FailsOpen(m: Monitor, status: int, elapsed: int, route: Route, wait: int) {
    && m.runs <= 1 && m.ends == m.runs
    && (route.Nested? || route.Ordinary? ==> m.runs == 1)
    && (route.Refused? ==> m.runs == 0 && status == 2)
    && (m.runs == 0 ==>
          || route.Refused?
          || (status == EXIT_TIMED_OUT && wait <= elapsed && m.accepted == 0)
          || (status == EXIT_HANDED_OFF && m.accepted == 1))
  }

  /** One hand-over at most, none that was not asked for or could not be made,
      and one seen to be accepted excludes a local run. A wait is handed over, when
      it can be, before the first pause and before a line is left; only after a pause
      does the command run here all the same. */
  ghost predicate HandsOverOnce(m: Monitor, status: int, allowed: bool) {
    && m.accepted <= m.started <= m.callbacks <= B(allowed)
    && (m.accepted == 1 ==> m.runs == 0 && status == EXIT_HANDED_OFF)
    && (0 < m.slept || m.cancels == 1 ==> m.callbacks == B(allowed))
    && (m.runs == 1 && m.callbacks == 1 ==> 0 < m.slept)
  }

  /** A run that needs the slot asks for it first, and never runs beside a holder
      while it is told to wait its turn. */
  ghost predicate Queues(m: Monitor, route: Route, noSlot: bool, broker: bool) {
    route.Waits? && broker && !noSlot ==> InLine(m, m.runs == 1)
  }

  /** A command that ran gives the run its status. */
  ghost predicate ReportsStatus(m: Monitor, status: int) { m.runs == 1 ==> status == ExitStatus(m.outcome) }

  /** A slot that was granted is renewed once more for the command and given back exactly
      once, unless the renewer beside the command was told it is gone, and then
      never. A queue that was left before any memory was read is left with exactly
      one cancel. A run that has no business with the slot sends nothing about it. */
  ghost predicate KeepsSlot(m: Monitor, route: Route, noSlot: bool, broker: bool) {
    && m.orderly && m.grants <= 1 && m.losses <= 1
    && (m.grants == 1 ==> m.releases == 1 - m.losses && m.cancels == 0)
    && (m.grants == 0 ==> m.releases == m.renewals == 0)
    && m.announced == B(m.grants == 1 && m.runs == 1) && m.announced <= m.renewals
    && m.cancels == B(m.runs == 0 && 0 < m.asks && m.samples == 0)
    && (noSlot || !broker || !route.Waits? ==> m.LeaseRequests() == 0)
  }

  /** A held slot never lapses before the command starts; there is a pause between
      looks; and the waits together end within one pause of the time allowed. */
  ghost predicate WaitsInTime(m: Monitor, wait: int) {
    m.punctual && InTime(m, wait) && Paces(m)
  }

  /** A command that has to wait starts exactly when memory was last read as clear. */
  ghost predicate StartsClear(m: Monitor, route: Route, minAvailable: int) {
    && (m.runs == 1 && route.Waits? ==> 0 < m.samples)
    && (0 < m.samples ==> (m.runs == 1) == Clear(m.lastSample, minAvailable))
  }

  /** The seven laws of one run. */
  ghost predicate Lawful(m: Monitor, status: int, elapsed: int, route: Route, opts: Options, d: Deps) {
    && FailsOpen(m, status, elapsed, route, opts.wait)
    && HandsOverOnce(m, status, route.Waits? && opts.handoff && d.MayHandOff())
    && Queues(m, route, opts.noSlot, d.broker)
    && KeepsSlot(m, route, opts.noSlot, d.broker)
    && ReportsStatus(m, status)
    && WaitsInTime(m, opts.wait)
    && StartsClear(m, route, opts.minAvailable)
  }

  lemma PlainRunIsLawful(m: Monitor, status: int, elapsed: int, route: Route, opts: Options, d: Deps)
    requires route.Nested? || route.Ordinary?
    requires m == Unobserved.(runs := 1, ends := 1, outcome := m.outcome) && status == ExitStatus(m.outcome)
    ensures Lawful(m, status, elapsed, route, opts, d)
  {
  }

  /** What the waits leave behind, as far as it can be seen from outside. */
  ghost predicate WaitedOutside(m: Monitor, code: int, opts: Options, d: Deps) {
    && m.orderly && m.punctual && m.runs == m.ends == m.losses == m.announced == 0
    && m.grants <= 1 && (m.grants == 0 ==> m.renewals == 0) && InTime(m, opts.wait) && Paces(m)
    && m.accepted <= m.started <= m.callbacks <= B(opts.handoff && d.MayHandOff())
    && (0 < m.slept || m.cancels == 1 ==> m.callbacks == B(opts.handoff && d.MayHandOff()))
    && (code == 0 && m.callbacks == 1 ==> 0 < m.slept)
    && (code == 0 || LeftWaiting(code)) && m.accepted == B(code == EXIT_HANDED_OFF)
    && m.releases == B(code != 0 && m.grants == 1) && m.cancels == B(code != 0 && 0 < m.asks && m.samples == 0)
    && (code == 0 ==> 0 < m.samples) && (0 < m.samples ==> (code == 0) == Clear(m.lastSample, opts.minAvailable))
    && (if d.broker && !opts.noSlot then InLine(m, code == 0) else m.LeaseRequests() == m.grants == 0)
  }

  lemma WaitedIsSeen(m: Monitor, slot: HeavySlot, h: Handover, code: int)
    requires Waited(m, slot, h, code)
    requires if h.d.broker && !h.opts.noSlot then InLine(m, code == 0) else m.LeaseRequests() == m.grants == 0
    ensures WaitedOutside(m, code, h.opts, h.d)
  {
  }

  lemma UnrunIsLawful(m: Monitor, code: int, elapsed: int, opts: Options, d: Deps)
    requires WaitedOutside(m, code, opts, d) && code != 0 && (code == EXIT_TIMED_OUT ==> opts.wait <= elapsed)
    ensures Lawful(m, code, elapsed, Waits, opts, d)
  {
  }

  lemma RunIsLawful(m: Monitor, m': Monitor, outcome: Outcome, elapsed: int, opts: Options, d: Deps)
    requires WaitedOutside(m, 0, opts, d) && Executed(m, m', outcome)
    ensures Lawful(m', ExitStatus(outcome), elapsed, Waits, opts, d)
  {
  }

  /** A run that has to wait for the slot, for memory, or for both. */
  method RunWaiting(w: World, opts: Options, argv: seq<string>, env: Env, d: Deps) returns (status: int)
    requires w.Valid() && w.trace == [] && w.seen == Unobserved && w.asleep == 0
    modifies w
    ensures w.Valid()
    ensures Lawful(w.seen, status, w.now - old(w.now), Waits, opts, d) && RenewedBeside(w.seen, w.answers)
    ensures Short(w.answers, w.seen.samples - 1, opts.minAvailable)
    ensures w.seen.runs == 1 ==> Ran(w.trace, argv, env)
  {
    var start := w.Now();
    var slot := new HeavySlot(d.broker);
    var h := new Handover(opts, d);
    status := Prepare(w, slot, h, start);
    ghost var waited := w.seen;
    WaitedIsSeen(waited, slot, h, status);
    if status != 0 {
      UnrunIsLawful(waited, status, w.now - old(w.now), opts, d);
      return;
    }
    var outcome := Execute(w, slot, argv, env);
    status := ExitStatus(outcome);
    RunIsLawful(waited, w.seen, outcome, w.now - old(w.now), opts, d);
  }

  method RunRoute(w: World, opts: Options, words: seq<string>, route: Route, d: Deps) returns (status: int)
    requires w.Valid() && w.trace == [] && w.seen == Unobserved && w.asleep == 0
    modifies w
    ensures w.Valid()
    ensures Lawful(w.seen, status, w.now - old(w.now), route, opts, d) && RenewedBeside(w.seen, w.answers)
    ensures Short(w.answers, w.seen.samples - 1, opts.minAvailable)
    ensures w.seen.runs == 1 ==> Ran(w.trace, words, Environment(route, d))
    ensures !route.Waits? ==> w.seen.samples == w.seen.LeaseRequests() == w.seen.slept == 0
  {
    var env := Environment(route, d);
    if route.Waits? {
      status := RunWaiting(w, opts, words, env, d);
    } else if route.Refused? {
      status := 2;
    } else {
      var outcome, _ := RunBeside(w, false, words, env);
      status := ExitStatus(outcome);
      PlainRunIsLawful(w.seen, status, w.now - old(w.now), route, opts, d);
    }
  }

  /** Below another `heavy`: the command runs at once, under the mark it inherited. */
  ghost predicate PassesMarkOn(m: Monitor, t: Trace, argv: seq<string>, d: Deps) {
    && m.runs == 1 && m.samples == m.LeaseRequests() == 0
    && Ran(t, argv, map[ClawdlineHeavy := Getenv(d.env, ClawdlineHeavy)])
  }

  /** Neither a compile nor a wait for memory that was asked for: the command runs at
      once, unmarked, and not through the cache wrapper. */
  ghost predicate RunsAtOnce(m: Monitor, t: Trace, argv: seq<string>) {
    && m.runs == 1 && m.samples == m.LeaseRequests() == 0
    && (argv != [] && Base(argv[0]) == "run-heavy-linux.sh" ==> Ran(t, argv[1..], map[]))
    && (argv == [] || Base(argv[0]) != "run-heavy-linux.sh" ==> Ran(t, argv, map[]))
  }

  /** A compile wants the slot that a restart holds: nothing is done. */
  ghost predicate IsRefused(m: Monitor, status: int) {
    m.runs == m.samples == m.LeaseRequests() == 0 && status == 2
  }

  /** The command starts only in its turn, on a machine that is clear, and marked. */
  ghost predicate WaitsItsTurn(m: Monitor, t: Trace, status: int, elapsed: int, opts: Options, argv: seq<string>,
    d: Deps) {
    && (m.runs == 1 || (status == 75 && opts.wait <= elapsed) || (status == 76 && m.accepted == 1))
    && (m.runs == 1 ==>
          && 0 < m.samples && Clear(m.lastSample, opts.minAvailable)
          && (d.broker && !opts.noSlot ==> 0 < m.asks && !m.lastAsk.KeepsWaiting())
          && Ran(t, argv, map[ClawdlineHeavy := d.requestID]))
  }

  /** A callback can be started from here: the daemon is there and of the usual state
      directory, where and what to run is known, and neither a child of a dispatch nor
      a nameless conversation asks. */
  ghost predicate CallbackIsPossible(d: Deps) {
    && !d.childWorktree && Getenv(d.env, TaskSecret) == ""
    && d.conversation != "" && d.cwd != "" && d.executable != ""
    && (Getenv(d.env, NextDir) != "" ==> Getenv(d.env, NextDir) == d.defaultState) && d.broker
  }

  method RunHeavy(w: World, opts: Options, argv: seq<string>, d: Deps) returns (status: int)
    requires w.Valid() && w.trace == [] && w.seen == Unobserved && w.asleep == 0
    modifies w
    ensures w.Valid()
    ensures Lawful(w.seen, status, w.now - old(w.now), RouteOf(opts, NativeCompile(argv), d), opts, d)
    ensures RenewedBeside(w.seen, w.answers)
    ensures Short(w.answers, w.seen.samples - 1, opts.minAvailable)
    ensures 0 < w.seen.callbacks ==> opts.handoff && CallbackIsPossible(d)
    ensures 0 < w.seen.slept && opts.handoff && CallbackIsPossible(d) ==> w.seen.callbacks == 1
    ensures var mark, restart := Getenv(d.env, ClawdlineHeavy), Getenv(d.env, DaemonRestartHeld);
      var compiles := IsWrappedCompile(argv) || opts.compile;
      && (mark != "" ==> PassesMarkOn(w.seen, w.trace, argv, d))
      && (mark == "" && !compiles && !opts.noSlot ==> RunsAtOnce(w.seen, w.trace, argv))
      && (mark == "" && compiles && !opts.noSlot && restart != "" ==> IsRefused(w.seen, status))
      && (mark == "" && (opts.noSlot || (compiles && restart == "")) ==>
            WaitsItsTurn(w.seen, w.trace, status, w.now - old(w.now), opts, argv, d))
  {
    var native := IsNativeCompile(argv);
    var route := RouteOf(opts, native, d);
    var words := Command(route, argv);
    status := RunRoute(w, opts, words, route, d);
  }

  // ---------------------------------------------------------------- what room is

  /** With a floor of one's own there is room from that floor on. Without one there is
      room from a gibibyte on, and below it from a quarter of the machine on. A stall
      of a tenth of the time or more is no room. */
  lemma RoomMeans(memTotal: nat, memAvailable: int, pressure: Pressure, minAvailable: int)
    ensures MemoryRoom(memTotal, memAvailable, pressure, minAvailable) <==>
      && (0 < minAvailable ==> minAvailable <= memAvailable)
      && (minAvailable <= 0 ==> 1024 * 1024 * 1024 <= memAvailable || memTotal < 4 * memAvailable + 4)
      && (pressure.NoPressure? || pressure.percent < 10.0)
  {
  }

  /** A status is below 128 only if the command ended by itself: a signal is told by
      128 and its number, a command that could not be started by 127. */
  lemma StatusMeans(status: int, signal: int, code: int)
    ensures ExitStatus(Finished(status)) == status && ExitStatus(Signaled(signal)) == signal + 128
    ensures ExitStatus(Exited(code)) == (if code < 0 then 1 else code) && ExitStatus(NotStarted) == 127
  {
  }
}
