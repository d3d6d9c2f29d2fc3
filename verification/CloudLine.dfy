/** The Cloud connection and its schedule poller: stopped, awaited and opened again
    under one lock, while they end and the daemon shuts down at any moment. */
module CloudLine {
  import opened Collections

  /** What happens, in order. A line and its poller carry the number of the context
      they were started with; `live` says that context was not yet cancelled. */
  datatype Event =
    | PollerStarted(n: nat) | LineStarted(n: nat, live: bool)
    | PollerEnded(n: nat) | LineEnded(n: nat)
    | Cancelled(n: nat) | ShutDown | Looked(shut: bool) | Admitted(ready: bool) | Opened | Shown(link: Option<Link>)

  /** An opened connection: on or off, and with work for a poller or without. */
  datatype Link = Link(enabled: bool, webhooks: bool)

  type Trace = seq<Event>

  function LiveLines(t: Trace): set<nat> {
    if t == [] then {} else
    var (before, e) := (LiveLines(t[..|t| - 1]), t[|t| - 1]);
    match e
    case LineStarted(n, _) => before + {n}
    case LineEnded(n) => before - {n}
    case _ => before
  }

  function LivePollers(t: Trace): set<nat> {
    if t == [] then {} else
    var (before, e) := (LivePollers(t[..|t| - 1]), t[|t| - 1]);
    match e
    case PollerStarted(n) => before + {n}
    case PollerEnded(n) => before - {n}
    case _ => before
  }

  predicate Shut(t: Trace) { ShutDown in t }

  /** What the reload last saw of the shutdown: nothing, after it has waited for an old
      line or opened a new connection without looking again. */
  datatype Look = Unlooked | Saw(shut: bool)

  function LastLook(t: Trace): Look {
    if t == [] then Unlooked else
    match t[|t| - 1]
    case Looked(shut) => Saw(shut)
    case Cancelled(_) => Unlooked
    case Opened => Unlooked
    case _ => LastLook(t[..|t| - 1])
  }

  /** A poller, and then its line, started only when every earlier line and poller
      had ended, and none with a live context after the shutdown; nothing opened, and
      nothing opened shown, unless the last look saw no shutdown. */
  ghost predicate Safe(t: Trace) {
    t == [] ||
    var (before, e) := (t[..|t| - 1], t[|t| - 1]);
    && Safe(before)
    && match e
       case PollerStarted(n) => LiveLines(before) == {} && LivePollers(before) == {}
       case LineStarted(n, live) => LiveLines(before) == {} && LivePollers(before) <= {n} && (live ==> !Shut(before))
       case Opened => LastLook(before) == Saw(false)
       case Shown(link) => link.Some? ==> LastLook(before) == Saw(false)
       case _ => true
  }

  /** At any moment of a safe run there is at most one line and one poller. */
  lemma {:induction false} AtMostOne(t: Trace, k: nat)
    requires Safe(t) && k <= |t|
    ensures |LiveLines(t[..k])| <= 1 && |LivePollers(t[..k])| <= 1
    decreases |t|
  {
    if k < |t| {
      assert t[..|t| - 1][..k] == t[..k];
      AtMostOne(t[..|t| - 1], k);
    } else if t != [] {
      assert t[..k] == t;
      var before, e := t[..|t| - 1], t[|t| - 1];
      assert before[..|before|] == before;
      AtMostOne(before, |before|);
      if e.LineEnded? {
        assert LiveLines(t) <= LiveLines(before);
        Fewer(LiveLines(t), LiveLines(before));
      } else if e.PollerEnded? {
        Fewer(LivePollers(t), LivePollers(before));
      }
    }
  }

  /** What had ended, and what had not begun, when a line was started. */
  lemma {:induction false} WhenALineStarts(t: Trace, i: nat)
    requires Safe(t) && i < |t| && t[i].LineStarted?
    ensures LiveLines(t[..i]) == {} && LivePollers(t[..i]) <= {t[i].n} && (t[i].live ==> ShutDown !in t[..i])
    decreases |t|
  {
    var before := t[..|t| - 1];
    if i < |before| {
      WhenALineStarts(before, i);
      assert before[..i] == t[..i];
    } else {
      assert t[..i] == before;
    }
  }

  lemma {:induction false} LookIsThere(t: Trace) returns (k: nat)
    requires LastLook(t) == Saw(false)
    ensures k < |t| && t[k] == Looked(false)
    ensures forall j :: k < j < |t| ==> !t[j].Looked? && !t[j].Opened? && !t[j].Cancelled?
  {
    var last := |t| - 1;
    if t[last].Looked? {
      k := last;
    } else {
      k := LookIsThere(t[..last]);
    }
  }

  /** Before a connection is opened, and again before it is shown, the shutdown was
      looked for and not seen, after anything that may have taken time. */
  lemma {:induction false} LookedBefore(t: Trace, i: nat) returns (k: nat)
    requires Safe(t) && i < |t| && (t[i].Opened? || (t[i].Shown? && t[i].link.Some?))
    ensures k < i && t[k] == Looked(false) && forall j :: k < j < i ==> !t[j].Opened? && !t[j].Cancelled?
    decreases |t|
  {
    var before := t[..|t| - 1];
    if i < |before| {
      k := LookedBefore(before, i);
    } else {
      k := LookIsThere(before);
    }
  }

  /** How many lines were started. */
  function Starts(t: Trace): nat {
    if t == [] then 0 else Starts(t[..|t| - 1]) + if t[|t| - 1].LineStarted? then 1 else 0
  }

  function Opens(t: Trace): nat {
    if t == [] then 0 else Opens(t[..|t| - 1]) + if t[|t| - 1].Opened? then 1 else 0
  }

  /** How many pollers were started. */
  function Polls(t: Trace): nat {
    if t == [] then 0 else Polls(t[..|t| - 1]) + if t[|t| - 1].PollerStarted? then 1 else 0
  }

  /** The trace has gone on without a line, a poller or an opening. */
  predicate Idly(t: Trace, t': Trace) {
    t <= t' && Starts(t') == Starts(t) && Opens(t') == Opens(t) && Polls(t') == Polls(t)
  }

  /** Since the trace was `before`, up to here, nothing was cancelled and nothing opened. */
  predicate Untouched(before: Trace, t: Trace) {
    before <= t && forall i :: |before| <= i < |t| ==> !t[i].Opened? && !t[i].Cancelled?
  }

  /** The daemon's goroutines and contexts. */
  class World {
    var lines: set<nat>
    var pollers: set<nat>
    var cancelled: set<nat>
    var next: nat
    var shut: bool
    var shown: Option<Link>
    ghost var trace: Trace
    /** How often a wait for a line, and for a poller, ran out. */
    ghost var overdueLines: nat
    ghost var overduePollers: nat
    /** What the latest opening came back with. */
    ghost var came: Option<Link>

    ghost predicate Valid()
      reads this
    {
      lines == LiveLines(trace) && pollers == LivePollers(trace) && shut == Shut(trace) && Safe(trace)
    }

    constructor ()
      ensures Valid() && lines == {} && pollers == {} && trace == []
    {
      lines, pollers, cancelled, next, shut, shown, trace := {}, {}, {}, 0, false, None, [];
    }

    ghost method Log(e: Event)
      modifies this`trace
      ensures trace == old(trace) + [e] && trace[..|trace| - 1] == old(trace)
    {
      trace := trace + [e];
    }

    /** Whatever else runs meanwhile: a line or a poller ends, for any reason, or
        the daemon begins to shut down. */
    method Pass()
      requires Valid()
      modifies this`lines, this`pollers, this`shut, this`trace
      ensures Valid() && lines <= old(lines) && pollers <= old(pollers) && (old(shut) ==> shut)
      ensures Idly(old(trace), trace) && LastLook(trace) == LastLook(old(trace)) && Untouched(old(trace), trace)
    {
      var moments: nat :| 0 <= moments;
      for m := 0 to moments
        invariant Valid() && lines <= old(lines) && pollers <= old(pollers) && (old(shut) ==> shut)
        invariant Idly(old(trace), trace) && LastLook(trace) == LastLook(old(trace)) && Untouched(old(trace), trace)
      {
        var n: nat :| 0 <= n;
        var what := *;
        if what == 0 {
          lines := lines - {n};
          Log(LineEnded(n));
        } else if what == 1 {
          pollers := pollers - {n};
          Log(PollerEnded(n));
        } else if what == 2 {
          shut := true;
          Log(ShutDown);
        }
      }
    }

    /** Looks whether the daemon is shutting down. */
    method Look() returns (seen: bool)
      requires Valid()
      modifies this`lines, this`pollers, this`shut, this`trace
      ensures Valid() && lines <= old(lines) && pollers <= old(pollers) && (old(shut) ==> shut)
      ensures Idly(old(trace), trace)
      ensures LastLook(trace) == Saw(seen) && (old(shut) ==> seen) && (seen ==> shut)
      ensures Untouched(old(trace), trace) && |old(trace)| < |trace| && trace[|trace| - 1] == Looked(seen)
    {
      Pass();
      seen := shut;
      Log(Looked(seen));
    }

    method Cancel(n: nat)
      requires Valid()
      modifies this`cancelled, this`trace
      ensures Valid() && cancelled == old(cancelled) + {n}
      ensures Idly(old(trace), trace)
    {
      cancelled := cancelled + {n};
      Log(Cancelled(n));
    }

    /** Waits for a line's done channel, for a while: an answer of true says it closed. */
    method AwaitLine(n: nat) returns (closed: bool)
      requires Valid()
      modifies this`lines, this`pollers, this`shut, this`trace, this`overdueLines
      ensures Valid() && lines <= old(lines) && pollers <= old(pollers) && (old(shut) ==> shut)
      ensures Idly(old(trace), trace)
      ensures (closed ==> n !in lines) && overdueLines == old(overdueLines) + if closed then 0 else 1
    {
      Pass();
      var timeout: bool := *;
      closed := n !in lines && !timeout;
      overdueLines := overdueLines + if closed then 0 else 1;
    }

    method AwaitPoller(n: nat) returns (closed: bool)
      requires Valid()
      modifies this`lines, this`pollers, this`shut, this`trace, this`overduePollers
      ensures Valid() && lines <= old(lines) && pollers <= old(pollers) && (old(shut) ==> shut)
      ensures Idly(old(trace), trace)
      ensures (closed ==> n !in pollers) && overduePollers == old(overduePollers) + if closed then 0 else 1
    {
      Pass();
      var timeout: bool := *;
      closed := n !in pollers && !timeout;
      overduePollers := overduePollers + if closed then 0 else 1;
    }

    /** Whether the update lets this daemon have a connection. */
    method Admits() returns (ready: bool)
      requires Valid()
      modifies this`trace
      ensures Valid() && Idly(old(trace), trace) && trace == old(trace) + [Admitted(ready)]
    {
      ready := *;
      Log(Admitted(ready));
    }

    method Open() returns (link: Option<Link>)
      requires Valid() && LastLook(trace) == Saw(false)
      modifies this`lines, this`pollers, this`shut, this`trace, this`came
      ensures Valid() && lines <= old(lines) && pollers <= old(pollers) && (old(shut) ==> shut)
      ensures Starts(trace) == Starts(old(trace)) && Opens(trace) == Opens(old(trace)) + 1 && came == link
      ensures Polls(trace) == Polls(old(trace)) && old(trace) <= trace
    {
      Pass();
      Log(Opened);
      link := *;
      came := link;
    }

    method Show(link: Option<Link>)
      requires Valid() && (link.Some? ==> LastLook(trace) == Saw(false))
      modifies this`shown, this`trace
      ensures Valid() && shown == link && Idly(old(trace), trace)
    {
      shown := link;
      Log(Shown(link));
    }

    method NewContext() returns (n: nat)
      modifies this`next
      ensures n == old(next) && next == n + 1
    {
      n := next;
      next := next + 1;
    }

    method StartPoller(n: nat)
      requires Valid() && lines == {} && pollers == {}
      modifies this`pollers, this`trace
      ensures Valid() && pollers == {n} && trace == old(trace) + [PollerStarted(n)]
      ensures Starts(trace) == Starts(old(trace)) && Opens(trace) == Opens(old(trace))
      ensures Polls(trace) == Polls(old(trace)) + 1
    {
      pollers := {n};
      Log(PollerStarted(n));
    }

    method StartLine(n: nat)
      requires Valid() && lines == {} && pollers <= {n}
      modifies this`lines, this`trace
      ensures Valid() && lines == {n} && trace == old(trace) + [LineStarted(n, !shut && n !in cancelled)]
      ensures Starts(trace) == Starts(old(trace)) + 1 && Opens(trace) == Opens(old(trace))
      ensures Polls(trace) == Polls(old(trace))
    {
      lines := {n};
      Log(LineStarted(n, !shut && n !in cancelled));
    }
  }

  predicate WantsPoller(link: Option<Link>) { link.Some? && link.value.webhooks }

  /** Since the trace was `before`, this line has been started, last of all, and before it
      its poller if it wants one. */
  ghost predicate StartedIn(before: Trace, t: Trace, n: Option<nat>, polled: bool) {
    && before <= t && |before| < |t| && t[|t| - 1].LineStarted? && n == Some(t[|t| - 1].n)
    && (polled ==> exists i :: |before| <= i < |t| - 1 && t[i] == PollerStarted(t[|t| - 1].n))
  }

  datatype Outcome = Running | SwitchedOff | LineStuck | PollerStuck | Ended | OpenFailed

  /** What the reload closure keeps between calls; its lock makes the calls follow
      one another. */
  class Connection {
    const w: World
    var stop: Option<nat>
    var done: Option<nat>
    var webhooksDone: Option<nat>

    ghost predicate Valid()
      reads this, w
    {
      && w.Valid() && stop == done
      && (done.None? ==> w.lines == {} && webhooksDone.None?) && (done.Some? ==> w.lines <= {done.value})
      && (webhooksDone.None? ==> w.pollers == {}) && (webhooksDone.Some? ==> w.pollers <= {webhooksDone.value})
    }

    constructor (w: World)
      requires w.Valid() && w.lines == {} && w.pollers == {}
      ensures Valid() && this.w == w && stop.None?
    {
      this.w, stop, done, webhooksDone := w, None, None, None;
    }

    /** Stops the line there is and waits for it and its poller to end. */
    method StopPrevious() returns (outcome: Outcome)
      requires Valid() && stop.Some?
      modifies this, w`lines, w`pollers, w`shut, w`cancelled, w`trace, w`overdueLines, w`overduePollers
      ensures w.overdueLines == old(w.overdueLines) + if outcome.LineStuck? then 1 else 0
      ensures w.overduePollers == old(w.overduePollers) + if outcome.PollerStuck? then 1 else 0
      ensures Valid() && (old(w.shut) ==> w.shut) && w.cancelled == old(w.cancelled) + {old(stop).value}
      ensures Idly(old(w.trace), w.trace)
      ensures outcome.LineStuck? || outcome.PollerStuck? || outcome.Ended?
      ensures outcome.Ended? ==> stop.None? && done.None? && webhooksDone.None?
      ensures !outcome.Ended? ==> stop == old(stop) && done == old(done) && webhooksDone == old(webhooksDone)
    {
      w.Cancel(stop.value);
      var closed := w.AwaitLine(done.value);
      if !closed {
        return LineStuck;
      }
      if webhooksDone.Some? {
        closed := w.AwaitPoller(webhooksDone.value);
        if !closed {
          return PollerStuck;
        }
      }
      stop, done, webhooksDone := None, None, None;
      return Ended;
    }

    /** Starts what an opened link needs. */
    method StartLink(link: Link)
      requires Valid() && stop.None? && link.enabled
      modifies this, w`lines, w`pollers, w`shut, w`trace, w`next
      ensures Valid() && (old(w.shut) ==> w.shut) && stop.Some? && webhooksDone.Some? == link.webhooks
      ensures Starts(w.trace) == Starts(old(w.trace)) + 1 && Opens(w.trace) == Opens(old(w.trace))
      ensures Polls(w.trace) == Polls(old(w.trace)) + if link.webhooks then 1 else 0
      ensures old(w.trace) <= w.trace && |old(w.trace)| < |w.trace|
      ensures link.webhooks ==> w.trace[|old(w.trace)|] == PollerStarted(done.value) && |old(w.trace)| + 1 < |w.trace|
      ensures exists live :: w.trace[|w.trace| - 1] == LineStarted(done.value, live) && (live ==> !w.shut)
    {
      var n := w.NewContext();
      stop, done := Some(n), Some(n);
      if link.webhooks {
        w.StartPoller(n);
        webhooksDone := Some(n);
      }
      w.Pass();
      w.StartLine(n);
    }

    /** Opens the connection that the settings ask for and shows it; Running asks for a
        line to be started. */
    method OpenLink() returns (outcome: Outcome, link: Option<Link>)
      requires w.Valid()
      modifies w`lines, w`pollers, w`shut, w`shown, w`trace, w`came
      ensures w.Valid() && w.lines <= old(w.lines) && w.pollers <= old(w.pollers) && (old(w.shut) ==> w.shut)
      ensures Starts(w.trace) == Starts(old(w.trace)) && !outcome.LineStuck? && !outcome.PollerStuck?
      ensures Polls(w.trace) == Polls(old(w.trace)) && old(w.trace) <= w.trace
      ensures if outcome.Ended? then w.shut && Opens(w.trace) <= Opens(old(w.trace)) + 1 && w.shown == old(w.shown)
              else Opens(w.trace) == Opens(old(w.trace)) + 1 && w.shown == w.came == link && !old(w.shut)
      ensures outcome.OpenFailed? ==> link.None?
      ensures outcome.Running? || outcome.SwitchedOff? ==> link.Some? && link.value.enabled == outcome.Running?
      ensures old(w.shut) ==> Opens(w.trace) == Opens(old(w.trace))
    {
      link := None;
      var ending := w.Look();
      if ending {
        return Ended, None;
      }
      link := w.Open();
      if link.None? {
        w.Show(None);
        return OpenFailed, None;
      }
      ending := w.Look();
      if ending {
        return Ended, link;
      }
      w.Pass();
      w.Show(link);
      w.Pass();
      outcome := if link.value.enabled then Running else SwitchedOff;
    }

    method Reload() returns (outcome: Outcome)
      requires Valid()
      modifies this, w
      ensures Valid() && (old(w.shut) ==> w.shut)
      ensures Starts(w.trace) == Starts(old(w.trace)) + if outcome.Running? then 1 else 0
      ensures Polls(w.trace) == Polls(old(w.trace)) + if outcome.Running? && WantsPoller(w.came) then 1 else 0
      ensures old(w.trace) <= w.trace
      ensures outcome.Running? ==> StartedIn(old(w.trace), w.trace, done, WantsPoller(w.came))
      ensures outcome.LineStuck? || outcome.PollerStuck? ==>
        && old(stop).Some? && stop == old(stop) && done == old(done) && webhooksDone == old(webhooksDone)
        && w.cancelled == old(w.cancelled) + {stop.value} && w.shown == old(w.shown)
        && Opens(w.trace) == Opens(old(w.trace))
      ensures old(w.shut) ==> !outcome.Running? && Opens(w.trace) == Opens(old(w.trace))
      ensures outcome.Ended? ==> w.shut && Opens(w.trace) <= Opens(old(w.trace)) + 1 && w.shown == old(w.shown)
      ensures outcome.Running? || outcome.SwitchedOff? || outcome.OpenFailed? ==>
        Opens(w.trace) == Opens(old(w.trace)) + 1
      ensures w.overdueLines == old(w.overdueLines) + if outcome.LineStuck? then 1 else 0
      ensures w.overduePollers == old(w.overduePollers) + if outcome.PollerStuck? then 1 else 0
      ensures outcome.Running? || outcome.SwitchedOff? || outcome.OpenFailed? ==> w.shown == w.came
      ensures outcome.OpenFailed? ==> w.shown == None
      ensures outcome.Running? || outcome.SwitchedOff? ==> w.shown.Some? && w.shown.value.enabled == outcome.Running?
      ensures outcome.Running? ==> done.Some? && webhooksDone.Some? == w.shown.value.webhooks
      ensures outcome.SwitchedOff? || outcome.OpenFailed? || outcome.Ended? ==>
        stop.None? && w.lines == {} && w.pollers == {}
      ensures old(stop).Some? ==> old(stop).value in w.cancelled
    {
      if stop.Some? {
        var stopped := StopPrevious();
        if !stopped.Ended? {
          return stopped;
        }
      }
      var link;
      outcome, link := OpenLink();
      ghost var i := |w.trace|;
      if outcome.Running? {
        StartLink(link.value);
        assert link.value.webhooks ==> w.trace[i] == PollerStarted(done.value);
      }
    }
  }

  datatype Answer = NotNow | NotReady | Tried(outcome: Outcome)

  /** Since the trace was `before`, the shutdown was looked for and not seen, the update
      admitted the daemon, and the shutdown was again not seen, all before anything was
      cancelled or opened. */
  ghost predicate PassedThrough(before: Trace, t: Trace) {
    exists i, j, k :: |before| <= i < j < k < |t| && Passes(before, t, i, j, k)
  }

  lemma PassedStays(before: Trace, t: Trace, t': Trace)
    requires PassedThrough(before, t) && t <= t'
    ensures PassedThrough(before, t')
  {
    var i, j, k :| |before| <= i < j < k < |t| && Passes(before, t, i, j, k);
    assert t'[..k + 1] == t[..k + 1];
    assert Passes(before, t', i, j, k);
  }

  predicate Passes(before: Trace, t: Trace, i: nat, j: nat, k: nat)
    requires i < j < k < |t|
  {
    t[i] == Looked(false) && t[j] == Admitted(true) && t[k] == Looked(false) && Untouched(before, t[..k + 1])
  }

  /** Lets the first activation, a settings reload and the update's tick take turns. */
  class Gate {
    const line: Connection
    var started: bool
    /** How often anyone has asked for the connection. */
    ghost var visits: nat

    constructor (line: Connection)
      ensures this.line == line && !started
    {
      this.line, started := line, false;
    }

    method Reload() returns (answer: Answer)
      requires line.Valid()
      modifies this, line, line.w
      ensures line.Valid() && (old(line.w.shut) ==> line.w.shut) && visits == old(visits) + 1
      ensures started == (old(started) || answer.Tried?)
      ensures Starts(line.w.trace) ==
        Starts(old(line.w.trace)) + if answer.Tried? && answer.outcome.Running? then 1 else 0
      ensures Polls(line.w.trace) == Polls(old(line.w.trace)) +
        if answer.Tried? && answer.outcome.Running? && WantsPoller(line.w.came) then 1 else 0
      ensures answer.Tried? && answer.outcome.Running? ==>
        StartedIn(old(line.w.trace), line.w.trace, line.done, WantsPoller(line.w.came))
      ensures old(line.w.shut) ==> answer.NotNow? && Opens(line.w.trace) == Opens(old(line.w.trace))
      ensures answer.NotNow? ==> line.w.shut
      ensures answer.NotReady? ==>
        exists i :: |old(line.w.trace)| <= i < |line.w.trace| && line.w.trace[i] == Admitted(false)
      ensures answer.Tried? ==> PassedThrough(old(line.w.trace), line.w.trace)
      ensures answer.Tried? && answer.outcome.Ended? ==> line.w.shut
      ensures
        answer.Tried? && (answer.outcome.Running? || answer.outcome.SwitchedOff? || answer.outcome.OpenFailed?) ==>
        Opens(line.w.trace) == Opens(old(line.w.trace)) + 1
      ensures !answer.Tried? ==>
        Opens(line.w.trace) == Opens(old(line.w.trace)) && line.w.cancelled == old(line.w.cancelled)
    {
      visits := visits + 1;
      var refusal := Enter();
      if refusal.Some? {
        return refusal.value;
      }
      ghost var entered := line.w.trace;
      var outcome := line.Reload();
      PassedStays(old(line.w.trace), entered, line.w.trace);
      started := true;
      return Tried(outcome);
    }

    /** The looks before anything is touched: an answer, or None to go on. */
    method Enter() returns (refusal: Option<Answer>)
      requires line.Valid()
      modifies line.w`lines, line.w`pollers, line.w`shut, line.w`trace
      ensures line.Valid() && (old(line.w.shut) ==> line.w.shut) && Idly(old(line.w.trace), line.w.trace)
      ensures refusal.None? ==> !old(line.w.shut) && PassedThrough(old(line.w.trace), line.w.trace)
      ensures refusal.Some? ==> refusal.value.NotNow? || refusal.value.NotReady?
      ensures old(line.w.shut) ==> refusal == Some(NotNow)
      ensures refusal == Some(NotNow) ==> line.w.shut
      ensures refusal == Some(NotReady) ==>
        exists i :: |old(line.w.trace)| <= i < |line.w.trace| && line.w.trace[i] == Admitted(false)
    {
      var ending := line.w.Look();
      if ending {
        return Some(NotNow);
      }
      ghost var i := |line.w.trace| - 1;
      var ready := line.w.Admits();
      assert line.w.trace[i + 1] == Admitted(ready);
      if !ready {
        return Some(NotReady);
      }
      ending := line.w.Look();
      if ending {
        return Some(NotNow);
      }
      assert line.w.trace[..|line.w.trace|] == line.w.trace;
      assert Passes(old(line.w.trace), line.w.trace, i, i + 1, |line.w.trace| - 1);
      return None;
    }

    /** Between two moments of this goroutine, another may go through the gate. */
    method Others()
      requires line.Valid()
      modifies this, line, line.w
      ensures line.Valid() && (old(started) ==> started) && (old(line.w.shut) ==> line.w.shut) && visits >= old(visits)
      ensures old(line.w.shut) ==> Starts(line.w.trace) == Starts(old(line.w.trace)) && started == old(started)
    {
      line.w.Pass();
      var turns: nat :| 0 <= turns;
      for turn := 0 to turns
        invariant line.Valid() && (old(started) ==> started) && (old(line.w.shut) ==> line.w.shut)
          && visits >= old(visits)
        invariant old(line.w.shut) ==> Starts(line.w.trace) == Starts(old(line.w.trace)) && started == old(started)
      {
        var answer := Reload();
        line.w.Pass();
      }
    }

    /** Tries again at each tick until an opening has been tried or the daemon shuts
        down; `own` counts its tries and `tried` those of them that opened. */
    method Resume(ticks: nat) returns (ghost tried: nat, ghost own: nat)
      requires line.Valid()
      modifies this, line, line.w
      ensures visits >= old(visits) + own && own <= ticks
      ensures !line.w.shut && !started ==> own == ticks
      ensures line.Valid() && (old(started) ==> started && tried == 0)
      ensures tried <= 1 && (tried == 1 ==> started)
      ensures old(line.w.shut) ==> tried == 0 && Starts(line.w.trace) == Starts(old(line.w.trace))
    {
      tried, own := 0, 0;
      if started {
        return;
      }
      for tick := 0 to ticks
        invariant line.Valid() && tried == 0 && (old(line.w.shut) ==> line.w.shut && !started)
        invariant old(line.w.shut) ==> Starts(line.w.trace) == Starts(old(line.w.trace))
        invariant old(!started) && own == tick && visits >= old(visits) + own
      {
        Others();
        var shutdown: bool := *;
        if line.w.shut && shutdown {
          return;
        }
        var answer := Reload();
        own := own + 1;
        if answer.Tried? {
          tried := 1;
        }
        Others();
        var began := started;
        if began {
          return;
        }
      }
    }
  }

  /** Any run of the daemon: the first activation, then the update's ticks among
      settings reloads, then more reloads. */
  method StartCloudLine(ticks: nat) returns (w: World, gate: Gate)
    ensures w.Valid() && Safe(w.trace) && |w.lines| <= 1 && |w.pollers| <= 1 && gate.line.w == w
    ensures !w.shut && !gate.started ==> 1 + ticks <= gate.visits
  {
    w := new World();
    var line := new Connection(w);
    gate := new Gate(line);
    var answer := gate.Reload();
    var _, _ := gate.Resume(ticks);
    gate.Others();
    AtMostOne(w.trace, |w.trace|);
    assert w.trace[..|w.trace|] == w.trace;
  }
}
