/** `clawdline coordination run`: the same leases, but fail-closed. A landing or a
    restart never proceeds without its exclusive lease. */
module Coordination {
  import opened LeaseWorld

  datatype Resource = Landing | DaemonRestart

  /** `handoff` asks to hand the wait over; `startable` says the callback's own
      command line would be accepted, and that the executable, the directory and
      the conversation are known. */
  datatype Options = Options(resource: Resource, maxWait: int, handoff: bool, startable: bool, conversation: string)

  /** A build below a restart is told that it cannot have the compile slot. */
  function ChildEnv(resource: Resource): Env {
    if resource.DaemonRestart? then map[DaemonRestartHeld := "1"] else map[]
  }

  /** The command runs exactly when a grant was read, once, and is then released
      exactly once after the last renewal, even when the lease was said to be lost. */
  ghost predicate FailsClosed(m: Monitor) {
    && m.orderly
    && m.grants <= 1 && m.runs == m.ends == m.releases == m.grants
    && (m.grants == 0 ==> m.renewals == 0)
  }

  /** The command's own status, or 1 when it ended in any other way. */
  function ExitStatus(outcome: Outcome): int {
    match outcome
    case Finished(status) => status
    case _ => 1
  }

  /** The first n answers were places in the queue. */
  ghost predicate AllQueued(answers: Answers, n: int) { forall i: nat :: i < n ==> IsQueued(answers.ask(i)) }

  predicate IsQueued(reply: Reply) { reply.Ok() && reply.state.Queued? }

  /** Neither a grant nor a place in the queue: no answer, a refusal, or nonsense. */
  predicate Closes(reply: Reply) { !reply.Grants() && !IsQueued(reply) }

  /** With a grant the status is the command's. Without one it says why, and the queue
      is left with exactly one cancel when the client chose to leave it; a wait is
      handed over, when it can be, before the first pause and before the queue is
      left; a daemon that closes the wait is not asked again. */
  ghost predicate LeavesQueue(m: Monitor, status: int, elapsed: int, o: Options) {
    && m.cancels == B(m.runs == 0 && LeftWaiting(status))
    && m.accepted <= m.started <= m.callbacks <= B(o.handoff && o.startable)
    && (m.accepted == 1 ==> m.runs == 0 && status == EXIT_HANDED_OFF)
    && (0 < m.slept || m.cancels == 1 ==> m.callbacks == B(o.handoff && o.startable))
    && (m.runs == 1 ==> status == ExitStatus(m.outcome) && m.lastAsk.Grants())
    && (m.runs == 0 ==>
          || (status == EXIT_TIMED_OUT && o.maxWait <= elapsed && IsQueued(m.lastAsk))
          || (status == EXIT_HANDED_OFF && m.accepted == 1 && IsQueued(m.lastAsk))
          || (status == 2 && o.conversation == "" && m.LeaseRequests() == 0)
          || (status == 1 && 0 < m.asks && Closes(m.lastAsk)))
    && (o.conversation != "" ==> 0 < m.asks) && m.sleeps == (if 0 < m.asks then m.asks - 1 else 0)
    && (m.slept == 0 || m.slept < o.maxWait + POLL)
  }

  /** One more turn in the line, unless a callback takes the wait, which is tried
      once, or its time is over: then the line is left. */
  method StayInLine(w: World, o: Options, deadline: int, handoff: bool) returns (status: int)
    requires w.Valid() && CanCancel(w.seen) && w.seen.releases == w.seen.accepted == 0
      && (handoff ==> w.seen.callbacks == 0)
    modifies w`now, w`trace, w`history, w`seen
    ensures w.Valid() && old(w.now) <= w.now
    ensures status == 0 || LeftWaiting(status)
    ensures status == 0 ==> w.now < deadline
    ensures status == EXIT_TIMED_OUT ==> deadline <= w.now
    ensures var m, tried := old(w.seen), B(handoff && o.startable);
      && w.seen == m.(callbacks := m.callbacks + tried, started := w.seen.started,
                      accepted := B(status == EXIT_HANDED_OFF), cancels := m.cancels + B(status != 0))
      && m.started + B(status == EXIT_HANDED_OFF) <= w.seen.started <= m.started + tried
  {
    if handoff && o.startable {
      var accepted := w.StartCallback();
      if accepted {
        var _ := w.CancelLease();
        return EXIT_HANDED_OFF;
      }
    }
    var now := w.Now();
    if deadline <= now {
      var _ := w.CancelLease();
      return EXIT_TIMED_OUT;
    }
    return 0;
  }

  /** What has been seen after this many seconds in the queue. */
  ghost predicate InQueue(m: Monitor, o: Options, handoff: bool, asleep: nat) {
    && m == Unobserved.(asks := m.asks, lastAsk := m.lastAsk, callbacks := m.callbacks, started := m.started,
         sleeps := m.sleeps, slept := asleep, longest := m.longest)
    && m.started <= m.callbacks == B(o.handoff && o.startable && !handoff) && (handoff ==> o.handoff)
    && (asleep == 0 || (asleep < o.maxWait + POLL && !handoff))
  }

  /** What is kept from one turn in the queue to the next. */
  ghost predicate Waiting(w: World, o: Options, start: int, handoff: bool)
    reads w
  {
    && InQueue(w.seen, o, handoff, w.asleep) && w.seen.sleeps == w.seen.asks
    && AllQueued(w.answers, w.seen.asks) && w.Valid() && start <= w.now && w.asleep <= w.now - start
  }

  /** What has been seen when the queue has been left with this status. */
  ghost predicate Left(m: Monitor, o: Options, status: int) {
    && (status == 0 || status == 1 || LeftWaiting(status)) && 0 < m.asks && m.sleeps + 1 == m.asks
    && m == Unobserved.(asks := m.asks, lastAsk := m.lastAsk, grants := B(status == 0), proof := m.proof,
         callbacks := m.callbacks, started := m.started, accepted := B(status == EXIT_HANDED_OFF),
         cancels := B(LeftWaiting(status)), sleeps := m.sleeps, slept := m.slept, longest := m.longest)
    && m.accepted <= m.started <= m.callbacks <= B(o.handoff && o.startable)
    && (0 < m.slept || m.cancels == 1 ==> m.callbacks == B(o.handoff && o.startable))
    && (status == 0 ==> m.lastAsk.Grants()) && (status == 1 ==> Closes(m.lastAsk))
      && (LeftWaiting(status) ==> IsQueued(m.lastAsk))
    && (m.slept == 0 || m.slept < o.maxWait + POLL)
  }

  ghost predicate LeftQueue(w: World, o: Options, start: int, status: int)
    reads w
  {
    && Left(w.seen, o, status) && AllQueued(w.answers, w.seen.asks - 1)
    && w.Valid() && start <= w.now && (status == EXIT_TIMED_OUT ==> start + o.maxWait <= w.now)
  }

  /** An answer other than `queued` ends the queue. */
  lemma AnsweredIsLeft(m: Monitor, o: Options, handoff: bool, asleep: nat, reply: Reply)
    requires InQueue(m, o, handoff, asleep) && m.sleeps == m.asks && (m.asks == 0 || IsQueued(m.lastAsk))
      && !IsQueued(reply)
    ensures Left(AfterAsk(m, reply, asleep), o, if reply.Grants() then 0 else 1)
  {
    assert m.slept == asleep;
    if handoff {
      assert asleep == 0;
    } else {
      assert m.callbacks == B(o.handoff && o.startable);
    }
    var m' := AfterAsk(m, reply, asleep);
    assert m'.slept == asleep && m'.callbacks == m.callbacks && m'.cancels == 0;
    assert m'.lastAsk == reply;
    if reply.Grants() {
      assert Left(m', o, 0);
    } else {
      assert Closes(reply);
      assert Left(m', o, 1);
    }
  }

  /** The queue says to wait: it is left, or there is one poll of waiting. */
  method WaitTurn(w: World, o: Options, deadline: int, ghost start: int, handoff: bool) returns (status: int)
    requires InQueue(w.seen, o, handoff, w.asleep) && w.seen.sleeps + 1 == w.seen.asks && IsQueued(w.seen.lastAsk)
    requires AllQueued(w.answers, w.seen.asks)
    requires w.Valid() && start <= w.now && w.asleep <= w.now - start && deadline == start + o.maxWait
    modifies w
    ensures old(w.now) <= w.now && if status != 0 then LeftQueue(w, o, start, status) else Waiting(w, o, start, false)
    ensures status == 0 ==> old(w.now) < w.now && old(w.now) < deadline && w.asleep == old(w.asleep) + POLL
  {
    status := StayInLine(w, o, deadline, handoff);
    if status == 0 {
      w.Sleep(POLL);
    }
  }

  /** One request, and one turn of waiting when it is queued. */
  method Turn(w: World, o: Options, deadline: int, ghost start: int, handoff: bool) returns (over: bool, status: int)
    requires Waiting(w, o, start, handoff) && deadline == start + o.maxWait
    modifies w
    ensures old(w.now) <= w.now && if over then LeftQueue(w, o, start, status) else Waiting(w, o, start, false)
    ensures !over ==> old(w.now) < w.now && old(w.now) < deadline
  {
    var reply := w.AskLease();
    over, status := true, if reply.Ok() && reply.state.Granted? then 0 else 1;
    if reply.Ok() && reply.state.Queued? {
      status := WaitTurn(w, o, deadline, start, handoff);
      over := status != 0;
    } else {
      AnsweredIsLeft(old(w.seen), o, handoff, old(w.asleep), reply);
    }
  }

  /** The queue. Its status is 0 exactly when the lease was granted. */
  method AwaitGrant(w: World, o: Options, deadline: int, ghost start: int) returns (status: int)
    requires w.Valid() && w.seen == Unobserved && w.asleep == 0 && start <= w.now && deadline == start + o.maxWait
    modifies w
    ensures old(w.now) <= w.now && LeftQueue(w, o, start, status)
  {
    status := 0;
    var handoff, over := o.handoff, false;
    while !over
      invariant old(w.now) <= w.now && if over then LeftQueue(w, o, start, status) else Waiting(w, o, start, handoff)
      decreases !over, deadline - w.now
    {
      over, status := Turn(w, o, deadline, start, handoff);
      handoff := false;
    }
  }

  /** The queue was left without a grant. */
  lemma UngrantedIsLawful(m: Monitor, o: Options, status: int, elapsed: int)
    requires Left(m, o, status) && status != 0 && (status == EXIT_TIMED_OUT ==> o.maxWait <= elapsed)
    ensures FailsClosed(m) && LeavesQueue(m, status, elapsed, o)
  {
  }

  /** A grant leaves nothing in the way of the command. */
  lemma GrantedIsIdle(m: Monitor, o: Options)
    requires Left(m, o, 0)
    ensures m.orderly && m.grants == 1
    ensures m.runs == m.ends == m.accepted == m.cancels == m.releases == m.losses == m.renewals == 0
  {
  }

  /** The queue was left with a grant, and the command ran beside its renewer. */
  lemma GrantedIsLawful(m: Monitor, ran: Monitor, o: Options, outcome: Outcome, lost: bool, due: nat, elapsed: int)
    requires Left(m, o, 0) && Beside(m.(runs := 1, ends := 1, outcome := outcome), ran, true, lost)
    requires !lost ==> ran.renewals == m.renewals + due
    ensures var after := AfterRelease(ran);
      && FailsClosed(after) && LeavesQueue(after, ExitStatus(outcome), elapsed, o) && after.outcome == outcome
      && after.runs == 1 && after.asks == m.asks && (after.losses == 0 ==> after.renewals == due)
  {
    GrantedIsIdle(m, o);
  }

  /** Status 1 without a run: the last answer was no success, or neither a grant nor a
      place in the queue. */
  lemma ClosedMeans(m: Monitor, status: int, elapsed: int, o: Options)
    requires LeavesQueue(m, status, elapsed, o) && m.runs == 0 && status == 1
    ensures 0 < m.asks && (m.lastAsk.Ok() ==> m.lastAsk.state != Granted && m.lastAsk.state != Queued)
  {
  }

  method RunCoordinated(w: World, o: Options, argv: seq<string>) returns (status: int)
    requires w.Valid() && w.trace == [] && w.seen == Unobserved && w.asleep == 0
    modifies w
    ensures w.Valid()
    ensures FailsClosed(w.seen)
    ensures LeavesQueue(w.seen, status, w.now - old(w.now), o)
    ensures o.conversation == "" ==> status == 2 && w.seen == Unobserved
    ensures w.seen.runs == 1 && w.seen.losses == 0 ==> w.seen.renewals == w.answers.Due()
    ensures w.seen.runs == 1 && o.resource.DaemonRestart? ==> Ran(w.trace, argv, map[DaemonRestartHeld := "1"])
    ensures w.seen.runs == 1 && o.resource.Landing? ==> Ran(w.trace, argv, map[])
    ensures w.seen.runs == 1 ==> if w.seen.outcome.Finished? then status == w.seen.outcome.status else status == 1
    ensures AllQueued(w.answers, w.seen.asks - 1)
  {
    if o.conversation == "" {
      return 2;
    }
    status := RunNamed(w, o, argv);
  }

  /** A run whose conversation is known. */
  method RunNamed(w: World, o: Options, argv: seq<string>) returns (status: int)
    requires w.Valid() && w.seen == Unobserved && w.asleep == 0 && o.conversation != ""
    modifies w
    ensures w.Valid() && FailsClosed(w.seen)
    ensures LeavesQueue(w.seen, status, w.now - old(w.now), o)
    ensures w.seen.runs == 1 ==> Ran(w.trace, argv, ChildEnv(o.resource))
    ensures w.seen.runs == 1 ==> status == ExitStatus(w.seen.outcome)
    ensures w.seen.runs == 1 && w.seen.losses == 0 ==> w.seen.renewals == w.answers.Due()
    ensures AllQueued(w.answers, w.seen.asks - 1)
  {
    var start := w.Now();
    status := AwaitGrant(w, o, start + o.maxWait, start);
    if status == 0 {
      status := RunGranted(w, o, argv, start);
    } else {
      UngrantedIsLawful(w.seen, o, status, w.now - old(w.now));
    }
  }

  /** The command under its lease, and the release after it. */
  method RunGranted(w: World, o: Options, argv: seq<string>, ghost start: int) returns (status: int)
    requires w.Valid() && Left(w.seen, o, 0)
    modifies w`now, w`trace, w`history, w`seen
    ensures w.Valid() && FailsClosed(w.seen) && w.seen.runs == 1 && w.seen.asks == old(w.seen.asks)
    ensures LeavesQueue(w.seen, status, w.now - start, o) && old(w.now) <= w.now
    ensures w.seen.losses == 0 ==> w.seen.renewals == w.answers.Due()
    ensures Ran(w.trace, argv, ChildEnv(o.resource))
  {
    ghost var m := w.seen;
    GrantedIsIdle(m, o);
    var outcome, lost := RunBeside(w, true, argv, ChildEnv(o.resource));
    ghost var t, ran := w.trace, w.seen;
    var _ := w.ReleaseLease();
    RanStays(t, w.trace, argv, ChildEnv(o.resource));
    status := match outcome case Finished(code) => code case _ => 1;
    GrantedIsLawful(m, ran, o, outcome, lost, w.answers.Due(), w.now - start);
  }
}
