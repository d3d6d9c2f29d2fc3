/** What the observer's verdicts mean for the trace itself, event by event, and
    what the two clients' laws give together. */
module LeaseLaws {
  import opened LeaseWorld
  import Compiles
  import Heavy
  import Coordination

  predicate Between(m: Monitor, m': Monitor) {
    && m.grants <= m'.grants && m.losses <= m'.losses && m.releases <= m'.releases && m.accepted <= m'.accepted
    && m.runs <= m'.runs && m.ends <= m'.ends && m.cancels <= m'.cancels && m.callbacks <= m'.callbacks
    && (m'.orderly ==> m.orderly) && (m'.punctual ==> m.punctual)
  }

  /** Nothing the observer counted is ever uncounted, and a fault stays a fault. */
  lemma {:induction false} Grows(h: seq<Monitor>, t: Trace, i: nat, j: nat)
    requires Watches(h, t) && i <= j <= |t|
    ensures Between(h[i], h[j])
    decreases j - i
  {
    if i < j {
      Grows(h, t, i, j - 1);
      assert h[j] == Step(h[j - 1], t[j - 1]);
    }
  }

  /** A grant that was counted is in the trace. */
  lemma {:induction false} CountedGrantIsThere(h: seq<Monitor>, t: Trace, i: nat) returns (g: nat)
    requires Watches(h, t) && i <= |t| && 0 < h[i].grants
    ensures g < i && IsGrant(t[g])
  {
    assert h[i] == Step(h[i - 1], t[i - 1]);
    if IsGrant(t[i - 1]) {
      g := i - 1;
    } else {
      g := CountedGrantIsThere(h, t, i - 1);
    }
  }

  /** Every renewal has a grant before it and no release, and no loss told to the
      background renewer, before it. */
  lemma RenewalsStayInsideTheLease(h: seq<Monitor>, t: Trace, i: nat)
    requires Watches(h, t) && h[|t|].orderly && i < |t| && t[i].event.Renew?
    ensures exists g: nat :: g < i && IsGrant(t[g])
    ensures forall r: nat :: r < i ==> !t[r].event.Release? && !IsBackgroundLoss(t[r])
  {
    assert h[i + 1] == Step(h[i], t[i]);
    Grows(h, t, i + 1, |t|);
    var g := CountedGrantIsThere(h, t, i);
    forall r: nat | r < i
      ensures !t[r].event.Release? && !IsBackgroundLoss(t[r])
    {
      assert h[r + 1] == Step(h[r], t[r]);
      Grows(h, t, r + 1, i);
    }
  }

  /** A release comes after the command, and after every renewal; there is one at most. */
  lemma ReleaseIsLast(h: seq<Monitor>, t: Trace, r: nat, j: nat)
    requires Watches(h, t) && h[|t|].orderly && r < j < |t| && t[r].event.Release?
    ensures !IsProof(t[j]) && !t[j].event.Release? && !t[j].event.RunStart? && !t[j].event.RunEnd?
      && !t[j].event.Callback?
  {
    assert h[r + 1] == Step(h[r], t[r]) && h[j + 1] == Step(h[j], t[j]);
    Grows(h, t, r + 1, j);
    Grows(h, t, j + 1, |t|);
    Grows(h, t, r, |t|);
    Running(h, t, r);
    Running(h, t, j);
    if t[j].event.RunEnd? {
      EndsStay(h, t, r + 1, j);
    }
  }

  /** In order, the command has started at most once and ended no more often. */
  lemma {:induction false} Running(h: seq<Monitor>, t: Trace, i: nat)
    requires Watches(h, t) && i <= |t| && h[i].orderly
    ensures h[i].ends <= h[i].runs <= 1 && h[i].grants <= 1 && h[i].releases <= 1
  {
    if 0 < i {
      assert h[i] == Step(h[i - 1], t[i - 1]);
      Running(h, t, i - 1);
    }
  }

  /** After a release no command starts, so none ends. */
  lemma {:induction false} EndsStay(h: seq<Monitor>, t: Trace, i: nat, j: nat)
    requires Watches(h, t) && i <= j <= |t| && h[j].orderly && 0 < h[i].releases && h[i].ends == h[i].runs
    ensures h[j].ends == h[j].runs
    decreases j - i
  {
    if i < j {
      assert h[j] == Step(h[j - 1], t[j - 1]);
      Grows(h, t, j - 1, j);
      Grows(h, t, i, j - 1);
      EndsStay(h, t, i, j - 1);
    }
  }

  /** The command starts at most once, and never in a run whose callback was seen
      to be accepted, whichever came first. */
  lemma StartsAtMostOnce(h: seq<Monitor>, t: Trace, i: nat, j: nat)
    requires Watches(h, t) && h[|t|].orderly && i < |t| && j < |t| && t[i].event.RunStart?
    ensures t[j].event.RunStart? ==> i == j
    ensures !(t[j].event.Callback? && t[j].event.observed)
  {
    assert h[i + 1] == Step(h[i], t[i]) && h[j + 1] == Step(h[j], t[j]);
    Grows(h, t, i + 1, |t|);
    Grows(h, t, j + 1, |t|);
    if i < j {
      Grows(h, t, i + 1, j);
    } else if j < i {
      Grows(h, t, j + 1, i);
    }
  }

  /** The last proof of life the observer remembers is the last one in the trace. */
  lemma {:induction false} ProofIsRemembered(h: seq<Monitor>, t: Trace, i: nat, j: nat)
    requires Watches(h, t) && i < j <= |t| && IsProof(t[i])
    requires forall k :: i < k < j ==> !IsProof(t[k])
    ensures h[j].proof == t[i].asleep
    decreases j
  {
    assert h[j] == Step(h[j - 1], t[j - 1]);
    if i < j - 1 {
      ProofIsRemembered(h, t, i, j - 1);
    }
  }

  /** From the grant to the announcement that the command runs, two proofs of life
      in a row have less than renew + poll of sleep between them. When time passes
      only asleep that is less than 25 s of it, far inside the broker's minute. */
  lemma HeldSlotNeverLapses(h: seq<Monitor>, t: Trace, i: nat, j: nat)
    requires Watches(h, t) && h[|t|].punctual && i < j < |t| && IsProof(t[i])
    requires t[j].event.Renew? && !t[j].event.who.Background?
    requires forall k :: i < k < j ==> !IsProof(t[k])
    ensures t[j].asleep - t[i].asleep < RENEW + POLL
    ensures t[j].at - t[j].asleep == t[i].at - t[i].asleep ==> t[j].at - t[i].at < 25 * SECOND < LAPSE
  {
    assert h[j + 1] == Step(h[j], t[j]);
    Grows(h, t, j + 1, |t|);
    ProofIsRemembered(h, t, i, j);
  }

  /** A wait that may be handed over: then, and only then, can the command run here
      although the daemon was made to run it too. */
  predicate MayRunTwice(route: Heavy.Route, o: Heavy.Options, d: Heavy.Deps) {
    route.Waits? && o.handoff && d.MayHandOff() && 0 < o.wait
  }

  /** Otherwise at most one of the two runs. So it is when the callback's answer comes
      through. */
  lemma OtherwiseRunsOnce(m: Monitor, status: int, elapsed: int, route: Heavy.Route, o: Heavy.Options, d: Heavy.Deps)
    requires Heavy.Lawful(m, status, elapsed, route, o, d)
    requires !MayRunTwice(route, o, d) || m.started == m.accepted
    ensures m.runs + m.started <= 1
  {
  }

  lemma {:induction false} NoPauseNoSleep(h: seq<Monitor>, t: Trace, i: nat)
    requires Watches(h, t) && i <= |t|
    ensures h[i].sleeps == 0 ==> h[i].slept == 0
  {
    if 0 < i {
      assert h[i] == Step(h[i - 1], t[i - 1]);
      NoPauseNoSleep(h, t, i - 1);
    }
  }

  const QUEUED := Answer(200, LeaseState.Queued, 0, "")

  /** A machine with nothing available. */
  const SHORT := Reading(8, 0, NoPressure)

  /** The answers that make it happen: a wait at first, a callback that is started
      without its answer being seen, and then nothing in the way. */
  function LostAnswer(noSlot: bool): Answers {
    Answers(n => if n == 0 then QUEUED else NoAnswer,
            n => if n == 0 && noSlot then SHORT else Unsupported, true, false, true, 0, 0, 0)
  }

  lemma LostAnswerRunsTwice(m: Monitor, status: int, o: Heavy.Options, d: Heavy.Deps)
    requires MayRunTwice(Heavy.Waits, o, d) && Heavy.Lawful(m, status, m.slept, Heavy.Waits, o, d)
    requires 0 < m.asks ==> m.lastAsk == LostAnswer(o.noSlot).ask(m.asks - 1)
    requires 0 < m.samples ==> m.lastSample == LostAnswer(o.noSlot).sample(m.samples - 1)
    requires m.started == m.callbacks && m.accepted == 0 && (m.sleeps == 0 ==> m.slept == 0)
    ensures m.runs == 1 && m.started == 1
  {
    assert !Heavy.Clear(SHORT, o.minAvailable) && Heavy.Clear(Unsupported, o.minAvailable);
    assert QUEUED.KeepsWaiting() && !NoAnswer.KeepsWaiting();
  }

  /** Whenever the condition holds there is a world in which both run. */
  method RunsTwice(o: Heavy.Options, argv: seq<string>, d: Heavy.Deps) returns (w: World)
    requires MayRunTwice(Heavy.RouteOf(o, Compiles.NativeCompile(argv), d), o, d)
    ensures fresh(w) && w.Valid() && w.seen.runs == 1 && w.seen.started == 1
  {
    w := new World(LostAnswer(o.noSlot));
    var status := Heavy.RunHeavy(w, o, argv, d);
    NoPauseNoSleep(w.history, w.trace, |w.trace|);
    LostAnswerRunsTwice(w.seen, status, o, d);
  }

  /** In an orderly trace, what was last answered is remembered until the next request. */
  lemma {:induction false} AnswerIsRemembered(h: seq<Monitor>, t: Trace, i: nat, k: nat)
    requires Watches(h, t) && i < k <= |t| && t[i].event.Ask? && forall j :: i < j < k ==> !t[j].event.Ask?
    ensures 0 < h[k].asks && h[k].lastAsk == t[i].event.reply
    decreases k
  {
    assert h[k] == Step(h[k - 1], t[k - 1]);
    if i < k - 1 {
      AnswerIsRemembered(h, t, i, k - 1);
    }
  }

  /** Nobody asks on without a reason: every request but the last was answered with a
      place in the queue, or with a full one. */
  lemma {:induction false} AsksOnOnlyInLine(h: seq<Monitor>, t: Trace, i: nat, j: nat)
    requires Watches(h, t) && h[|t|].orderly && i < j < |t| && t[i].event.Ask? && t[j].event.Ask?
    ensures t[i].event.reply.KeepsWaiting()
    decreases j - i
  {
    if k: nat :| i < k < j && t[k].event.Ask? {
      AsksOnOnlyInLine(h, t, i, k);
    } else {
      AnswerIsRemembered(h, t, i, j);
      assert h[j + 1] == Step(h[j], t[j]);
      Grows(h, t, j + 1, |t|);
    }
  }

  /** The only losses that are counted are told to the renewer beside the command. */
  lemma {:induction false} CountedLossIsBeside(h: seq<Monitor>, t: Trace, i: nat)
    requires Watches(h, t) && i <= |t|
    ensures 0 < h[i].losses <==> exists k :: 0 <= k < i && IsBackgroundLoss(t[k])
  {
    if 0 < i {
      assert h[i] == Step(h[i - 1], t[i - 1]);
      CountedLossIsBeside(h, t, i - 1);
    }
  }

  /** A granted slot is released unless the renewer beside the command was told that it is
      gone, whatever was answered to the renewals before the command. */
  lemma ReleasedUnlessLostBeside(h: seq<Monitor>, t: Trace, status: int, elapsed: int, route: Heavy.Route,
                                 o: Heavy.Options, d: Heavy.Deps)
    requires Watches(h, t) && Heavy.Lawful(h[|t|], status, elapsed, route, o, d) && h[|t|].grants == 1
    ensures h[|t|].releases == B(!exists k :: 0 <= k < |t| && IsBackgroundLoss(t[k]))
  {
    CountedLossIsBeside(h, t, |t|);
  }

  /** A run without --handoff, as the callback itself runs it, never hands over
      again, so it ends by running, by its time being over, or by a restart lease. */
  lemma CallbackNeverChains(m: Monitor, status: int, elapsed: int, route: Heavy.Route, o: Heavy.Options, d: Heavy.Deps)
    requires Heavy.Lawful(m, status, elapsed, route, o, d) && !o.handoff
    ensures m.callbacks == 0
    ensures m.runs == 1 || (status == EXIT_TIMED_OUT && o.wait <= elapsed) || (status == 2 && route.Refused?)
  {
  }

  /** Below a command that `coordination run` runs for a restart, `heavy` sends no
      lease request, whatever its flags, its command and its daemon. */
  lemma NoSlotBelowARestart(m: Monitor, status: int, elapsed: int, o: Heavy.Options, native: bool, d: Heavy.Deps)
    requires var inherited := Coordination.ChildEnv(Coordination.DaemonRestart);
      forall name :: name in inherited ==> name in d.env && d.env[name] == inherited[name]
    requires Heavy.Lawful(m, status, elapsed, Heavy.RouteOf(o, native, d), o, d)
    ensures m.LeaseRequests() == 0
    ensures m.runs == 0 && !o.noSlot ==> status == 2
  {
    assert DaemonRestartHeld in Coordination.ChildEnv(Coordination.DaemonRestart);
    assert Getenv(d.env, DaemonRestartHeld) == "1";
  }
}
