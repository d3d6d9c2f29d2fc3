/** The world a lease client runs in: a daemon, a clock, a memory sampler and a
    command, all of which may answer anything, and the trace of what was asked
    of them. Times are nanoseconds. */
module LeaseWorld {

  const SECOND: int := 1_000_000_000
  const MINUTE: int := 60 * SECOND
  const HOUR: int := 60 * MINUTE

  /** The pause between two looks at a queue or at memory, and the age at which a
      held lease is renewed. */
  const POLL: int := 5 * SECOND
  const RENEW: int := 20 * SECOND

  /** The broker forgets a holder that has not renewed for this long. */
  const LAPSE: int := 60 * SECOND

  const EXIT_TIMED_OUT: int := 75
  const EXIT_HANDED_OFF: int := 76

  /** The statuses that mean the command was left unrun: its time was over, or a
      callback took it. */
  predicate LeftWaiting(status: int) { status == EXIT_TIMED_OUT || status == EXIT_HANDED_OFF }

  /** Go's int64 arithmetic. */
  function Wrap64(n: int): int {
    (n + 0x8000_0000_0000_0000) % 0x1_0000_0000_0000_0000 - 0x8000_0000_0000_0000
  }

  lemma WrapMeans(n: int)
    ensures -9_223_372_036_854_775_808 <= Wrap64(n) <= 9_223_372_036_854_775_807
    ensures (n - Wrap64(n)) % 18_446_744_073_709_551_616 == 0
  {
  }

  /** The state a reply was read to carry; a body that could not be read is
      `OtherState`. */
  datatype LeaseState = Granted | Queued | OtherState

  datatype Reply =
    | NoAnswer
    | Answer(status: int, state: LeaseState, retryAfterSeconds: int, code: string)
  {
    predicate Ok() { Answer? && 200 <= status < 300 }
    predicate Grants() { Ok() && state.Granted? }
    /** The line is long, or full, but not closed. */
    predicate KeepsWaiting() { (Ok() && state.Queued?) || (Answer? && status == 429) }
    /** How long the client pauses before it asks again. */
    function Pause(): int
      requires Answer?
    {
      var retry := Wrap64(retryAfterSeconds * SECOND);
      if retry > POLL then retry else POLL
    }
    predicate SaysLost() { Answer? && !Ok() && code == "lease_lost" }
  }

  /** Any status of the two hundreds is a success. */
  lemma OkMeans(r: Reply)
    ensures r.Ok() <==> r.Answer? && r.status / 100 == 2
  {
  }

  /** How the four kinds of answer differ. */
  lemma RepliesMean(r: Reply)
    ensures r.Grants() <==> r.Ok() && r.state == Granted
    ensures r.KeepsWaiting() <==> r.Answer? && (r.status == 429 || (r.Ok() && r.state == Queued))
    ensures r.SaysLost() <==> r.Answer? && !r.Ok() && r.code == "lease_lost"
    ensures r.Answer? ==> r.Pause() >= 5_000_000_000
    ensures r.Answer? && 0 <= r.retryAfterSeconds < 9_223_372_036 ==>
      r.Pause() == if r.retryAfterSeconds < 5 then 5_000_000_000 else r.retryAfterSeconds * 1_000_000_000
  {
  }

  datatype Pressure = NoPressure | MemorySome(percent: real)
  datatype Sample = Unsupported | Unreadable | Reading(memTotal: nat, memAvailable: int, pressure: Pressure)

  /** The environment names that decide anything here. */
  datatype EnvVar = ClawdlineHeavy | DaemonRestartHeld | NextDir | TaskSecret
  type Env = map<EnvVar, string>

  function Getenv(env: Env, name: EnvVar): string { if name in env then env[name] else "" }

  /** Who sends a renewal: the memory wait, the announcement that the command is
      about to run, or the background renewer beside it. */
  datatype Renewer = MemoryWait | Announcement | Background

  /** What running the command came back with: no error and a status, an exit
      error for a signal or with a code, or any other error. */
  datatype Outcome = Finished(status: int) | Signaled(signal: int) | Exited(code: int) | NotStarted

  datatype Event =
    | Ask(reply: Reply)
    | Renew(who: Renewer, reply: Reply)
    | Release(reply: Reply)
    | Cancel(reply: Reply)
    | Callback(started: bool, observed: bool)
    | Sampled(sample: Sample)
    | Slept(pause: nat)
    | RunStart(argv: seq<string>, env: Env)
    | RunEnd(outcome: Outcome)

  /** An event, when it happened, and how much of the run had been slept by then. */
  datatype Stamp = Stamp(event: Event, at: int, asleep: nat)
  type Trace = seq<Stamp>

  predicate IsGrant(s: Stamp) { s.event.Ask? && s.event.reply.Grants() }
  predicate IsProof(s: Stamp) { IsGrant(s) || s.event.Renew? }
  predicate IsBackgroundLoss(s: Stamp) { s.event.Renew? && s.event.who.Background? && s.event.reply.SaysLost() }

  ghost predicate Ran(t: Trace, argv: seq<string>, env: Env) {
    exists i :: 0 <= i < |t| && t[i].event == RunStart(argv, env)
  }

  lemma RanStays(t: Trace, t': Trace, argv: seq<string>, env: Env)
    requires t <= t' && Ran(t, argv, env)
    ensures Ran(t', argv, env)
  {
    var i :| 0 <= i < |t| && t[i].event == RunStart(argv, env);
    assert t'[i].event == RunStart(argv, env);
  }

  /** What an observer that only counts has seen of a trace, and whether every
      event came in an allowed place (`orderly`) and every renewal before the
      command's own came in time (`punctual`). */
  datatype Monitor = Monitor(
    asks: nat, grants: nat, renewals: nat, losses: nat, releases: nat, cancels: nat,
    callbacks: nat, accepted: nat, started: nat, samples: nat, runs: nat, ends: nat, announced: nat,
    sleeps: nat, slept: nat, longest: nat, proof: int, lastAsk: Reply, lastSample: Sample, outcome: Outcome,
    orderly: bool, punctual: bool)
  {
    function LeaseRequests(): nat { asks + renewals + releases + cancels }
  }

  const Unobserved :=
    Monitor(0, 0, 0, 0, 0, 0, 0, 0, 0, 0, 0, 0, 0, 0, 0, 0, 0, NoAnswer, Unsupported, NotStarted, true, true)

  function B(b: bool): nat { if b then 1 else 0 }

  function AfterAsk(m: Monitor, r: Reply, asleep: nat): Monitor {
    m.(asks := m.asks + 1, lastAsk := r, grants := m.grants + B(r.Grants()),
       proof := if r.Grants() then asleep else m.proof,
       orderly := m.orderly && (m.asks == 0 || m.lastAsk.KeepsWaiting())
         && m.grants == 0 && m.cancels == 0 && m.accepted == 0 && m.samples == 0 && m.runs == 0)
  }

  predicate CanRenew(m: Monitor) { m.grants == 1 && m.losses == 0 && m.releases == 0 && m.accepted == 0 }

  function AfterRenew(m: Monitor, who: Renewer, r: Reply, asleep: nat): Monitor {
    m.(renewals := m.renewals + 1, losses := m.losses + B(who.Background? && r.SaysLost()), proof := asleep,
       announced := m.announced + B(who.Announcement?),
       orderly := m.orderly && CanRenew(m) && (who.Background? || m.runs == 0),
       punctual := m.punctual && (who.Background? || asleep - m.proof < RENEW + POLL))
  }

  predicate CanRelease(m: Monitor) { m.grants == 1 && m.releases == 0 && m.runs == m.ends }

  function AfterRelease(m: Monitor): Monitor {
    m.(releases := m.releases + 1, orderly := m.orderly && CanRelease(m))
  }

  predicate CanCancel(m: Monitor) {
    0 < m.asks && m.grants == 0 && m.cancels == 0 && m.samples == 0 && m.runs == 0
  }

  function AfterCancel(m: Monitor): Monitor {
    m.(cancels := m.cancels + 1, orderly := m.orderly && CanCancel(m))
  }

  predicate CanHandOver(m: Monitor) { m.callbacks == 0 && m.runs == 0 && m.cancels == 0 && m.releases == 0 }

  function AfterCallback(m: Monitor, started: bool, observed: bool): Monitor {
    m.(callbacks := m.callbacks + 1, accepted := m.accepted + B(observed), started := m.started + B(started),
       orderly := m.orderly && CanHandOver(m))
  }

  predicate CanWait(m: Monitor) { m.cancels == 0 && m.releases == 0 && m.accepted == 0 && m.runs == 0 }

  function AfterSample(m: Monitor, sample: Sample): Monitor {
    m.(samples := m.samples + 1, lastSample := sample, orderly := m.orderly && CanWait(m))
  }

  function AfterSleep(m: Monitor, pause: nat): Monitor {
    m.(sleeps := m.sleeps + 1, slept := m.slept + pause, longest := if pause > m.longest then pause else m.longest,
       orderly := m.orderly && CanWait(m))
  }

  function AfterBegin(m: Monitor): Monitor {
    m.(runs := m.runs + 1,
       orderly := m.orderly && m.runs == 0 && m.accepted == 0 && m.cancels == 0 && m.releases == 0)
  }

  function AfterEnd(m: Monitor, outcome: Outcome): Monitor {
    m.(ends := m.ends + 1, outcome := outcome, orderly := m.orderly && m.ends < m.runs)
  }

  function Step(m: Monitor, s: Stamp): Monitor {
    match s.event
    case Ask(r) => AfterAsk(m, r, s.asleep)
    case Renew(who, r) => AfterRenew(m, who, r, s.asleep)
    case Release(_) => AfterRelease(m)
    case Cancel(_) => AfterCancel(m)
    case Callback(started, observed) => AfterCallback(m, started, observed)
    case Sampled(sample) => AfterSample(m, sample)
    case Slept(pause) => AfterSleep(m, pause)
    case RunStart(_, _) => AfterBegin(m)
    case RunEnd(outcome) => AfterEnd(m, outcome)
  }

  /** `h` is the observer watching `t`: what it had seen before each event and at
      the end. */
  ghost predicate Watches(h: seq<Monitor>, t: Trace) {
    && |h| == |t| + 1 && h[0] == Unobserved
    && forall i {:trigger t[i]} :: 0 <= i < |t| ==> h[i + 1] == Step(h[i], t[i])
  }

  /** What a world answers: to the n-th request for the lease and the n-th look at
      memory, and to a callback; `frozen` says that time passes only in sleeps; and how
      often a renewal comes due before, during and after the command, while the renewer
      is there. Any functions will do, so any answers may come. */
  datatype Answers = Answers(
    ask: nat -> Reply, sample: nat -> Sample, callbackStarts: bool, callbackSeen: bool, frozen: bool,
    dueBefore: nat, dueDuring: nat, dueAfter: nat)
  {
    function Due(): nat { dueBefore + dueDuring + dueAfter }
  }

  /** Everything outside the client. No answer is promised beyond its type, and
      time may pass at every step unless it is frozen; a sleep is sure to last. */
  class World {
    const answers: Answers
    ghost const origin: int
    var now: int
    var asked: nat
    var looked: nat
    ghost var asleep: nat
    ghost var trace: Trace
    ghost var history: seq<Monitor>
    ghost var seen: Monitor

    /** What was seen last is what this world answers. */
    ghost predicate Answered(m: Monitor) {
      && (0 < m.asks ==> m.lastAsk == answers.ask(m.asks - 1))
      && (0 < m.samples ==> m.lastSample == answers.sample(m.samples - 1))
      && m.started == (if answers.callbackStarts then m.callbacks else 0)
      && m.accepted == (if answers.callbackStarts && answers.callbackSeen then m.callbacks else 0)
    }

    /** `seen` is what the observer makes of the whole trace. */
    ghost predicate Valid()
      reads this
    {
      && Watches(history, trace) && seen == history[|trace|] && seen.slept == asleep
      && asked == seen.asks && looked == seen.samples && Answered(seen) && (answers.frozen ==> now == origin + asleep)
    }

    constructor (answers: Answers)
      ensures Valid() && trace == [] && seen == Unobserved && asleep == 0 && this.answers == answers
    {
      var start: int := *;
      this.answers, now, origin, asked, looked := answers, start, start, 0, 0;
      trace, history, asleep, seen := [], [Unobserved], 0, Unobserved;
    }

    /** Time passes awake. */
    method Elapse()
      requires Valid()
      modifies this`now
      ensures Valid() && old(now) <= now
    {
      if !answers.frozen {
        var elapsed :| 0 <= elapsed;
        now := now + elapsed;
      }
    }

    method Now() returns (t: int)
      requires Valid()
      modifies this`now
      ensures Valid() && t == now && old(now) <= now
    {
      Elapse();
      t := now;
    }

    ghost method Log(e: Event)
      requires Valid() && !e.Ask? && !e.Sampled? && !e.Slept?
      requires e.Callback? ==> e.started == answers.callbackStarts && e.observed == (e.started && answers.callbackSeen)
      modifies this`trace, this`history, this`seen
      ensures Valid()
      ensures trace == old(trace) + [Stamp(e, now, asleep)]
      ensures seen == Step(old(seen), Stamp(e, now, asleep))
    {
      trace := trace + [Stamp(e, now, asleep)];
      seen := Step(seen, Stamp(e, now, asleep));
      history := history + [seen];
    }

    method AskLease() returns (reply: Reply)
      requires Valid()
      modifies this`now, this`asked, this`trace, this`history, this`seen
      ensures Valid() && old(now) <= now
      ensures trace == old(trace) + [Stamp(Ask(reply), now, asleep)]
      ensures seen == AfterAsk(old(seen), reply, asleep)
    {
      Elapse();
      reply := answers.ask(asked);
      asked := asked + 1;
      ghost var stamp := Stamp(Ask(reply), now, asleep);
      trace, seen := trace + [stamp], Step(seen, stamp);
      history := history + [seen];
    }

    method RenewLease(who: Renewer) returns (reply: Reply)
      requires Valid()
      modifies this`now, this`trace, this`history, this`seen
      ensures Valid() && old(now) <= now
      ensures trace == old(trace) + [Stamp(Renew(who, reply), now, asleep)]
      ensures seen == AfterRenew(old(seen), who, reply, asleep)
    {
      Elapse();
      reply := *;
      Log(Renew(who, reply));
    }

    method ReleaseLease() returns (reply: Reply)
      requires Valid()
      modifies this`now, this`trace, this`history, this`seen
      ensures Valid() && old(now) <= now
      ensures trace == old(trace) + [Stamp(Release(reply), now, asleep)]
      ensures seen == AfterRelease(old(seen))
    {
      Elapse();
      reply := *;
      Log(Release(reply));
    }

    method CancelLease() returns (reply: Reply)
      requires Valid()
      modifies this`now, this`trace, this`history, this`seen
      ensures Valid() && old(now) <= now
      ensures trace == old(trace) + [Stamp(Cancel(reply), now, asleep)]
      ensures seen == AfterCancel(old(seen))
    {
      Elapse();
      reply := *;
      Log(Cancel(reply));
    }

    /** The daemon may start the callback without its answer arriving or naming
        what it started; an answer that does means it was started. */
    method StartCallback() returns (observed: bool)
      requires Valid()
      modifies this`now, this`trace, this`history, this`seen
      ensures Valid() && old(now) <= now
      ensures observed == (answers.callbackStarts && answers.callbackSeen)
      ensures trace == old(trace) + [Stamp(Callback(answers.callbackStarts, observed), now, asleep)]
      ensures seen == AfterCallback(old(seen), answers.callbackStarts, observed)
    {
      Elapse();
      observed := answers.callbackStarts && answers.callbackSeen;
      Log(Callback(answers.callbackStarts, observed));
    }

    method SampleMemory() returns (sample: Sample)
      requires Valid()
      modifies this`now, this`looked, this`trace, this`history, this`seen
      ensures Valid() && old(now) <= now
      ensures trace == old(trace) + [Stamp(Sampled(sample), now, asleep)]
      ensures seen == AfterSample(old(seen), sample)
    {
      Elapse();
      sample := answers.sample(looked);
      looked := looked + 1;
      ghost var stamp := Stamp(Sampled(sample), now, asleep);
      trace, seen := trace + [stamp], Step(seen, stamp);
      history := history + [seen];
    }

    method Sleep(pause: nat)
      requires Valid()
      modifies this
      ensures Valid() && old(now) + pause <= now && asleep == old(asleep) + pause
      ensures trace == old(trace) + [Stamp(Slept(pause), old(now), old(asleep))]
      ensures seen == AfterSleep(old(seen), pause)
    {
      ghost var stamp := Stamp(Slept(pause), now, asleep);
      trace, seen := trace + [stamp], Step(seen, stamp);
      history := history + [seen];
      now, asleep := now + pause, asleep + pause;
      Elapse();
    }

    method Begin(argv: seq<string>, env: Env)
      requires Valid()
      modifies this`now, this`trace, this`history, this`seen
      ensures Valid() && old(now) <= now
      ensures trace == old(trace) + [Stamp(RunStart(argv, env), now, asleep)]
      ensures seen == AfterBegin(old(seen))
    {
      Elapse();
      Log(RunStart(argv, env));
    }

    method End() returns (outcome: Outcome)
      requires Valid()
      modifies this`now, this`trace, this`history, this`seen
      ensures Valid() && old(now) <= now
      ensures trace == old(trace) + [Stamp(RunEnd(outcome), now, asleep)]
      ensures seen == AfterEnd(old(seen), outcome)
    {
      Elapse();
      outcome := *;
      Log(RunEnd(outcome));
    }
  }

  /** The second observation differs from the first by background renewals
      only: none unless the lease could be renewed, and none after a loss. */
  predicate Beside(m: Monitor, m': Monitor, renewing: bool, lost: bool) {
    && m' == m.(renewals := m'.renewals, losses := m.losses + B(lost), proof := m'.proof)
    && m.renewals <= m'.renewals
    && (!renewing ==> m' == m && !lost)
  }

  /** The renewer running beside the command, for as many ticks as come due now: it
      stops for good on `lease_lost` and tries every other failure again. */
  method Ticks(w: World, renewing: bool, due: nat) returns (still: bool, lost: bool)
    requires w.Valid() && w.seen.orderly && (renewing ==> CanRenew(w.seen))
    modifies w`now, w`trace, w`history, w`seen
    ensures w.Valid() && old(w.now) <= w.now && old(w.trace) <= w.trace
    ensures Beside(old(w.seen), w.seen, renewing, lost)
    ensures still == (renewing && !lost) && (still ==> w.seen.renewals == old(w.seen.renewals) + due)
  {
    still, lost := renewing, false;
    var ticks := due;
    while still && 0 < ticks
      invariant w.Valid() && old(w.now) <= w.now && old(w.trace) <= w.trace
      invariant Beside(old(w.seen), w.seen, renewing, lost)
      invariant still == (renewing && !lost) && (still ==> w.seen.renewals + ticks == old(w.seen.renewals) + due)
      decreases ticks
    {
      var reply := w.RenewLease(Background);
      if reply.SaysLost() {
        still, lost := false, true;
      }
      ticks := ticks - 1;
    }
  }

  /** Runs the command beside the renewer. The renewer starts before the command
      and is waited for after it, so ticks fall before, during and after it. */
  method RunBeside(w: World, renewing: bool, argv: seq<string>, env: Env)
      returns (outcome: Outcome, lost: bool)
    requires w.Valid()
    requires var m := w.seen;
      m.orderly && m.runs == m.ends == 0 && m.accepted == 0 && m.cancels == 0 && m.releases == 0 && m.losses == 0
    requires renewing ==> w.seen.grants == 1
    modifies w`now, w`trace, w`history, w`seen
    ensures w.Valid() && old(w.now) <= w.now && old(w.trace) <= w.trace
    ensures Beside(old(w.seen).(runs := 1, ends := 1, outcome := outcome), w.seen, renewing, lost)
    ensures renewing && !lost ==> w.seen.renewals == old(w.seen.renewals) + w.answers.Due()
    ensures Ran(w.trace, argv, env)
  {
    var still, lostBefore := Ticks(w, renewing, w.answers.dueBefore);
    w.Begin(argv, env);
    ghost var i := |w.trace| - 1;
    assert w.trace[i].event == RunStart(argv, env);
    var lostDuring, lostAfter;
    still, lostDuring := Ticks(w, still, w.answers.dueDuring);
    outcome := w.End();
    still, lostAfter := Ticks(w, still, w.answers.dueAfter);
    lost := lostBefore || lostDuring || lostAfter;
    assert w.trace[i].event == RunStart(argv, env);
  }
}
