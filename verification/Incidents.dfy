/** What the feed to the owner holds on to after a stall: a bounded number of rows,
    forgotten oldest first, each revised by a capture and, once, by a recovery. */
module Incidents {
  import opened Collections

  const MAX_INCIDENTS: nat := 32
  const MAX_FRAMES: nat := 24
  const MAX_SOURCES: nat := 8

  datatype Event = StallDetected | Recovered | ReleasedStalled | OtherEvent

  /** A journal record, as far as a stall and its end are concerned. */
  datatype Record = Record(event: Event, phaseID: nat, monoNS: int)

  datatype RecoveryState = StateRecovered | StateReleased
  datatype Recovery = Recovery(state: RecoveryState, recoveryNS: Option<int>)

  type Frame = string
  datatype Goroutine = Goroutine(matchesLocation: bool, state: string, frames: seq<Frame>, framesOmitted: int)

  /** A published capture. `about` stands for what its trigger says of the stall,
      and `header` for the other fields that are only copied. */
  datatype Capture = Capture(
    phaseID: nat, about: string, build: string, header: string, sources: seq<string>, truncated: bool,
      goroutines: seq<Goroutine>)

  /** An excerpt on the heap: rows and jobs point at it. */
  class CaptureExcerpt {
    const header: string
    const sources: seq<string>
    const state: string
    var frames: seq<Frame>
    var framesOmitted: int
    var truncated: bool

    constructor (header: string, sources: seq<string>, state: string, frames: seq<Frame>, framesOmitted: int,
      truncated: bool)
      ensures this.header == header && this.sources == sources && this.state == state
      ensures this.frames == frames && this.framesOmitted == framesOmitted && this.truncated == truncated
    {
      this.header, this.sources, this.state := header, sources, state;
      this.frames, this.framesOmitted, this.truncated := frames, framesOmitted, truncated;
    }

    function View(): ExcerptView
      reads this
    {
      ExcerptView(header, sources, state, frames, framesOmitted, truncated)
    }
  }

  datatype ExcerptView = ExcerptView(
    header: string, sources: seq<string>, state: string, frames: seq<Frame>, framesOmitted: int, truncated: bool)

  /** A snapshot ready to be sealed. `about` stands for the fields a revision leaves alone. */
  datatype Snapshot = Snapshot(v2: bool, about: string, build: string, capture: CaptureExcerpt?,
    recovery: Option<Recovery>)
  datatype Subject = PhaseSubject(phaseID: nat) | EventSubject(eventID: string)
  datatype Job = Job(subject: Subject, snapshot: Snapshot)

  /** A snapshot's content, read off the heap: what is encoded. */
  datatype View = View(v2: bool, about: string, build: string, capture: Option<ExcerptView>, recovery: Option<Recovery>)

  function ViewOf(s: Snapshot): View
    reads if s.capture == null then {} else {s.capture}
  {
    View(s.v2, s.about, s.build, if s.capture == null then None else Some(s.capture.View()), s.recovery)
  }

  // ---------------------------------------------------------------- trimming

  function FrameCount(v: View): nat { if v.capture.Some? then |v.capture.value.frames| else 0 }

  /** The content with its first k frames, and every frame dropped counted as omitted. */
  function Trimmed(v: View, k: nat): View
    requires k <= FrameCount(v)
  {
    if v.capture.None? || k == FrameCount(v) then v else
    var ex, n := v.capture.value, FrameCount(v);
    v.(capture := Some(ex.(frames := ex.frames[..k], framesOmitted := ex.framesOmitted + n - k, truncated := true)))
  }

  /** No frame is lost without being counted. */
  lemma TrimmingConserves(v: View, k: nat)
    requires v.capture.Some? && k <= FrameCount(v)
    ensures var ex, trimmed := v.capture.value, Trimmed(v, k).capture.value;
      && |trimmed.frames| + trimmed.framesOmitted == |ex.frames| + ex.framesOmitted
      && trimmed.frames <= ex.frames && |trimmed.frames| == k
  {
  }

  /** k frames fit and no more do. */
  ghost predicate LongestFit(encodes: View -> bool, v: View, k: nat) {
    && k <= FrameCount(v) && encodes(Trimmed(v, k))
    && forall j :: k < j <= FrameCount(v) ==> !encodes(Trimmed(v, j))
  }

  ghost predicate NothingFits(encodes: View -> bool, v: View) {
    forall j :: 0 <= j <= FrameCount(v) ==> !encodes(Trimmed(v, j))
  }

  /** How a record ends a stall that began at this reading, if it does. */
  function EndOf(r: Record, stallMono: int): Option<Recovery> {
    match r.event
    case Recovered => Some(Recovery(StateRecovered, if r.monoNS >= stallMono then Some(r.monoNS - stallMono) else None))
    case ReleasedStalled => Some(Recovery(StateReleased, None))
    case _ => None
  }

  /** Only these two records end a stall. How long it took is said of a recovery alone,
      and not by a clock that ran backwards. */
  lemma EndMeans(r: Record, stallMono: int)
    ensures EndOf(r, stallMono).Some? <==> r.event == Recovered || r.event == ReleasedStalled
    ensures r.event == Recovered && stallMono <= r.monoNS ==>
      EndOf(r, stallMono).value == Recovery(StateRecovered, Some(r.monoNS - stallMono))
    ensures r.event == Recovered && r.monoNS < stallMono ==>
      EndOf(r, stallMono).value == Recovery(StateRecovered, None)
    ensures r.event == ReleasedStalled ==> EndOf(r, stallMono).value == Recovery(StateReleased, None)
  {
  }

  /** A job names the capture's build when the stall's record named none. */
  function Built(job: Job, build: string): Job {
    if job.snapshot.build == "" then job.(snapshot := job.snapshot.(build := build)) else job
  }

  /** The answer carries the longest prefix of frames that encodes; no answer means
      that no prefix does. */
  ghost predicate Fitted(encodes: View -> bool, full: View, job: Option<Job>)
    reads if job.Some? && job.value.snapshot.capture != null then {job.value.snapshot.capture} else {}
  {
    if job.Some?
    then exists k: nat :: LongestFit(encodes, full, k) && ViewOf(job.value.snapshot) == Trimmed(full, k)
    else NothingFits(encodes, full)
  }

  class OwnerIncident {
    var job: Job
    var stallMono: int
    var capture: CaptureExcerpt?
    var recovery: Option<Recovery>
    /** Which insertion into the memory this row stands for. */
    ghost const seat: nat

    constructor (job: Job, stallMono: int, ghost seat: nat)
      ensures this.job == job && this.stallMono == stallMono && capture == null && recovery == None && this.seat == seat
    {
      this.job, this.stallMono, this.capture, this.recovery, this.seat := job, stallMono, null, None, seat;
    }

    /** The row's content with every frame that its excerpt holds. */
    function Full(): View
      reads this, if capture == null then {} else {capture}
    {
      View(true, job.snapshot.about, job.snapshot.build,
        if capture == null then None else Some(capture.View()), recovery)
    }

    /** The longest prefix of frames that encodes, or nothing when none does. The
        job returned has an excerpt of its own: this changes no object there was. */
    method Revision(encodes: View -> bool) returns (revised: Option<Job>)
      requires job.snapshot.capture == null
      ensures Fitted(encodes, Full(), revised)
      ensures revised.Some? ==> revised.value.subject == job.subject
      ensures revised.Some? && revised.value.snapshot.capture != null ==> fresh(revised.value.snapshot.capture)
    {
      var c: CaptureExcerpt? := null;
      if capture != null {
        c := new CaptureExcerpt(capture.header, capture.sources, capture.state, capture.frames, capture.framesOmitted,
          capture.truncated);
      }
      var job' := Job(job.subject, job.snapshot.(v2 := true, recovery := recovery, capture := c));
      ghost var full, k := Full(), FrameCount(Full());
      while true
        invariant c == job'.snapshot.capture && (c != null ==> fresh(c) && |c.frames| == k)
        invariant job'.subject == job.subject && 0 <= k <= FrameCount(full)
        invariant ViewOf(job'.snapshot) == Trimmed(full, k)
        invariant forall j :: k < j <= FrameCount(full) ==> !encodes(Trimmed(full, j))
        decreases k
      {
        if encodes(ViewOf(job'.snapshot)) {
          assert LongestFit(encodes, Full(), k);
          return Some(job');
        }
        if c == null || |c.frames| == 0 {
          return None;
        }
        ghost var all := full.capture.value.frames;
        assert c.frames[..k - 1] == all[..k - 1];
        c.frames := c.frames[..|c.frames| - 1];
        c.framesOmitted := c.framesOmitted + 1;
        c.truncated := true;
        k := k - 1;
      }
    }

    /** The same stall, seen again. */
    method Restamp(job: Job, stallMono: int)
      modifies this`job, this`stallMono
      ensures this.job == job && this.stallMono == stallMono
    {
      this.job, this.stallMono := job, stallMono;
    }

    /** The row's stall is over; the revision says so. */
    method End(encodes: View -> bool, r: Record) returns (revised: Option<Job>)
      requires job.snapshot.capture == null && EndOf(r, stallMono).Some?
      modifies this`recovery
      ensures recovery == EndOf(r, stallMono) && Fitted(encodes, Full(), revised)
      ensures revised.Some? ==> revised.value.subject == job.subject
      ensures revised.Some? && revised.value.snapshot.capture != null ==> fresh(revised.value.snapshot.capture)
    {
      if r.event == ReleasedStalled {
        recovery := Some(Recovery(StateReleased, None));
      } else if r.monoNS >= stallMono {
        recovery := Some(Recovery(StateRecovered, Some(r.monoNS - stallMono)));
      } else {
        recovery := Some(Recovery(StateRecovered, None));
      }
      revised := Revision(encodes);
    }

    /** The row has a capture now; the revision carries it. */
    method Attach(encodes: View -> bool, ex: CaptureExcerpt, build: string) returns (revised: Option<Job>)
      requires job.snapshot.capture == null
      modifies this`capture, this`job
      ensures capture == ex && job == Built(old(job), build) && Fitted(encodes, Full(), revised)
      ensures revised.Some? ==> revised.value.subject == job.subject
      ensures revised.Some? && revised.value.snapshot.capture != null ==> fresh(revised.value.snapshot.capture)
    {
      capture := ex;
      if job.snapshot.build == "" {
        job := job.(snapshot := job.snapshot.(build := build));
      }
      revised := Revision(encodes);
    }
  }

  // ---------------------------------------------------------------- the excerpt of a capture

  function Min(a: nat, b: nat): nat { if a < b then a else b }

  /** The frames that belong to the stall: those of the first goroutine, when it is
      the one that matched. */
  function StalledFrames(c: Capture): (seq<Frame>, int) {
    if c.goroutines != [] && c.goroutines[0].matchesLocation
    then (c.goroutines[0].frames, c.goroutines[0].framesOmitted) else ([], 0)
  }

  /** An excerpt holds frames of the first matching goroutine alone, up to the limit,
      and a count of those it leaves off. */
  ghost predicate IsExcerpt(c: Capture, ex: ExcerptView) {
    && ex.header == c.header
    && ex.sources <= c.sources && |ex.sources| == (if |c.sources| < 8 then |c.sources| else 8)
    && ex.frames <= StalledFrames(c).0
    && |ex.frames| == (if |StalledFrames(c).0| < 24 then |StalledFrames(c).0| else 24)
    && |ex.frames| + ex.framesOmitted == |StalledFrames(c).0| + StalledFrames(c).1
    && ex.state == (if c.goroutines != [] && c.goroutines[0].matchesLocation then c.goroutines[0].state else "")
    && ex.truncated == (c.truncated || |ex.sources| < |c.sources| || |ex.frames| < |StalledFrames(c).0|)
  }

  method Excerpt(c: Capture) returns (ex: CaptureExcerpt)
    ensures fresh(ex) && IsExcerpt(c, ex.View())
  {
    var truncated := c.truncated;
    if |c.sources| > MAX_SOURCES {
      truncated := true;
    }
    var state, frames, omitted := "", [], 0;
    if |c.goroutines| > 0 && c.goroutines[0].matchesLocation {
      var g := c.goroutines[0];
      state := g.state;
      var keep := Min(|g.frames|, MAX_FRAMES);
      frames := g.frames[..keep];
      omitted := g.framesOmitted + |g.frames| - keep;
      if keep < |g.frames| {
        truncated := true;
      }
    }
    ex := new CaptureExcerpt(c.header, c.sources[..Min(|c.sources|, MAX_SOURCES)], state, frames, omitted, truncated);
  }

  /** Cut to the limit and then trimmed to fit, a revision still accounts for every
      frame the stalled goroutine had. */
  lemma EveryFrameIsCounted(c: Capture, v: View, k: nat)
    requires v.capture.Some? && IsExcerpt(c, v.capture.value) && k <= FrameCount(v)
    ensures var ex, (frames, omitted) := Trimmed(v, k).capture.value, StalledFrames(c);
      && ex.frames <= frames && |ex.frames| + ex.framesOmitted == |frames| + omitted
      && (|ex.frames| < |frames| ==> ex.truncated)
  {
    TrimmingConserves(v, k);
  }

  // ---------------------------------------------------------------- the memory

  /** What a memory of these insertions, one after the other, still holds: the
      latest of them. */
  function Recent(log: seq<nat>): seq<nat> {
    if |log| <= MAX_INCIDENTS then log else log[|log| - MAX_INCIDENTS..]
  }

  /** A stall of this phase is remembered: no change while it is among the latest. */
  function Insert(log: seq<nat>, p: nat): seq<nat> {
    if p == 0 || p in Recent(log) then log else log + [p]
  }

  function InsertAll(log: seq<nat>, phases: seq<nat>): seq<nat> {
    if phases == [] then log else Insert(InsertAll(log, phases[..|phases| - 1]), phases[|phases| - 1])
  }

  /** Every phase in the log was, when it was inserted, not among the latest. */
  ghost predicate Logged(log: seq<nat>) {
    log == [] ||
    var (before, p) := (log[..|log| - 1], log[|log| - 1]);
    Logged(before) && p != 0 && p !in Recent(before)
  }

  ghost predicate Keeps(order: seq<nat>, log: seq<nat>) { order == Recent(log) && Logged(log) }

  ghost predicate Holds(phases: set<nat>, order: seq<nat>) { forall p :: p in phases <==> p in order }

  /** A phase is inserted again only after 32 others, so what is held has no duplicates. */
  lemma {:induction false} LoggedIsSpaced(log: seq<nat>, i: nat, j: nat)
    requires Logged(log) && i < j < |log| && j - i <= MAX_INCIDENTS
    ensures log[i] != log[j]
  {
    var before := log[..|log| - 1];
    if j < |before| {
      LoggedIsSpaced(before, i, j);
    } else {
      assert Recent(before)[i - (|before| - |Recent(before)|)] == log[i];
    }
  }

  lemma HeldOnce(order: seq<nat>, log: seq<nat>)
    requires Keeps(order, log)
    ensures |order| <= 32 && 0 !in order
    ensures forall i, j :: 0 <= i < j < |order| ==> order[i] != order[j]
  {
    var first := |log| - |order|;
    forall i | 0 <= i < |order| ensures order[i] != 0 {
      LoggedIsNotZero(log, first + i);
    }
    forall i, j | 0 <= i < j < |order| ensures order[i] != order[j] {
      LoggedIsSpaced(log, first + i, first + j);
    }
  }

  lemma {:induction false} LoggedIsNotZero(log: seq<nat>, i: nat)
    requires Logged(log) && i < |log|
    ensures log[i] != 0
  {
    if i < |log| - 1 {
      LoggedIsNotZero(log[..|log| - 1], i);
    }
  }

  /** Inserting phase by phase: one that is held, or is no phase, changes nothing. */
  lemma InsertAllStep(log: seq<nat>, phases: seq<nat>, p: nat)
    ensures InsertAll(log, []) == log
    ensures var before := InsertAll(log, phases);
      InsertAll(log, phases + [p]) == if 0 < p && p !in Recent(before) then before + [p] else before
  {
    assert (phases + [p])[..|phases|] == phases;
  }

  lemma {:induction false} InsertAllAppends(log: seq<nat>, phases: seq<nat>)
    requires Logged(log)
    ensures Logged(InsertAll(log, phases)) && log <= InsertAll(log, phases)
    ensures forall i :: |log| <= i < |InsertAll(log, phases)| ==> InsertAll(log, phases)[i] in phases
  {
    if phases != [] {
      var before, p := phases[..|phases| - 1], phases[|phases| - 1];
      InsertAllAppends(log, before);
      var mid := InsertAll(log, before);
      assert (mid + [p])[..|mid|] == mid;
    }
  }

  function Others(phases: seq<nat>, p: nat): set<nat> { set q | q in phases && q != p }

  /** A remembered phase is held until the 32nd later insertion, however often it
      is remembered again; fewer than 32 other phases never push it out. */
  lemma HeldUntilThirtyTwoOthers(log: seq<nat>, p: nat, phases: seq<nat>, after: seq<nat>)
    requires Logged(log) && log != [] && log[|log| - 1] == p && after == InsertAll(log, phases)
    ensures |after| - |log| < 32 ==> p in Recent(after)
    ensures |after| - |log| == 32 ==> p !in Recent(after)
    ensures |Others(phases, p)| < 32 ==> |after| - |log| < 32
  {
    InsertAllAppends(log, phases);
    var seat := |log| - 1;
    assert Logged(after) && after[seat] == p && |after| > seat;
    assert forall i :: seat < i < |after| ==> after[i] in phases;
    if |after| <= seat + MAX_INCIDENTS {
      SeatIsHeld(after, seat);
    } else {
      PushedOutByOthers(after, seat, phases);
      if |after| == seat + MAX_INCIDENTS + 1 {
        SeatIsNotHeld(after, seat);
      }
    }
  }

  lemma SeatIsHeld(log: seq<nat>, seat: nat)
    requires seat < |log| <= seat + MAX_INCIDENTS
    ensures log[seat] in Recent(log)
  {
    assert Recent(log)[seat - (|log| - |Recent(log)|)] == log[seat];
  }

  lemma SeatIsNotHeld(log: seq<nat>, seat: nat)
    requires Logged(log) && |log| == seat + MAX_INCIDENTS + 1
    ensures log[seat] !in Recent(log)
  {
    if log[seat] in Recent(log) {
      var k :| 0 <= k < |Recent(log)| && Recent(log)[k] == log[seat];
      LoggedIsSpaced(log, seat, seat + 1 + k);
    }
  }

  lemma PushedOutByOthers(log: seq<nat>, seat: nat, phases: seq<nat>)
    requires Logged(log) && seat + MAX_INCIDENTS < |log|
    requires forall i :: seat < i < |log| ==> log[i] in phases
    ensures |Others(phases, log[seat])| >= MAX_INCIDENTS
  {
    var later := log[seat + 1..seat + 1 + MAX_INCIDENTS];
    forall i, j | 0 <= i < j < |later| ensures later[i] != later[j] {
      LoggedIsSpaced(log, seat + 1 + i, seat + 1 + j);
    }
    forall i | 0 <= i < |later| ensures later[i] in Others(phases, log[seat]) {
      LoggedIsSpaced(log, seat, seat + 1 + i);
    }
    Pigeonhole(later);
    Fewer(Members(later), Others(phases, log[seat]));
  }

  /** What room for one more leaves of the order. */
  function Room(order: seq<nat>): seq<nat> {
    if |order| < MAX_INCIDENTS then order else order[1..]
  }

  lemma RoomForgetsTheOldest(log: seq<nat>, order: seq<nat>, phases: set<nat>)
    requires Keeps(order, log) && Holds(phases, order)
    ensures Holds(if |order| < MAX_INCIDENTS then phases else phases - {order[0]}, Room(order))
    ensures forall p :: p != 0 && p !in order ==> Insert(log, p) == log + [p] && Keeps(Room(order) + [p], log + [p])
  {
    forall p | p != 0 && p !in order ensures Keeps(Room(order) + [p], log + [p]) {
      assert (log + [p])[..|log|] == log;
    }
    if |order| == MAX_INCIDENTS {
      HeldOnce(order, log);
      AfterTheFirst(order);
    }
  }

  lemma AfterTheFirst(s: seq<nat>)
    requires s != [] && forall i, j :: 0 <= i < j < |s| ==> s[i] != s[j]
    ensures forall q :: q in s[1..] <==> q in s && q != s[0]
  {
    assert s == [s[0]] + s[1..];
  }

  class OwnerIncidents {
    var rows: map<nat, OwnerIncident>
    var order: seq<nat>
    ghost var log: seq<nat>
    /** The insertions whose row has answered with a recovery revision. */
    ghost var answered: set<nat>

    ghost predicate Seated(p: nat)
      requires p in rows
      reads this, rows[p]
    {
      var row := rows[p];
      && row.seat < |log| && log[row.seat] == p && row.job.snapshot.capture == null
      && (row.seat in answered ==> row.recovery.Some?)
    }

    ghost predicate Valid()
      reads this, rows.Values
    {
      && Keeps(order, log) && Holds(rows.Keys, order)
      && (forall p :: p in rows ==> Seated(p))
      && (forall i :: i in answered ==> i < |log|)
    }

    constructor ()
      ensures Valid() && log == [] && answered == {}
    {
      rows, order, log, answered := map[], [], [], {};
    }

    /** Forgets the oldest phase of a full memory. */
    method MakeRoom()
      requires Valid()
      modifies this`rows, this`order
      ensures order == Room(old(order)) && Holds(rows.Keys, order)
      ensures forall p :: p in rows ==> p in old(rows) && rows[p] == old(rows)[p]
    {
      RoomForgetsTheOldest(log, order, rows.Keys);
      if |order| >= MAX_INCIDENTS {
        rows := rows - {order[0]};
        order := order[1..];
      }
    }

    /** Takes in a phase that is not held. */
    method Admit(p: nat, job: Job, stallMono: int)
      requires Valid() && job.snapshot.capture == null && p != 0 && p !in rows
      modifies this`rows, this`order, this`log
      ensures Valid() && log == Insert(old(log), p)
      ensures p in rows && fresh(rows[p]) && rows[p].job == job && rows[p].stallMono == stallMono
      ensures p in rows && rows[p].capture == null && rows[p].recovery == None
      ensures forall q :: q in rows && q != p ==> q in old(rows) && rows[q] == old(rows)[q]
    {
      RoomForgetsTheOldest(log, order, rows.Keys);
      MakeRoom();
      var row := new OwnerIncident(job, stallMono, |log|);
      rows := rows[p := row];
      order := order + [p];
      log := log + [p];
      forall q | q in rows ensures Seated(q) {
        assert q != p ==> old(Seated(q)) && log[rows[q].seat] == old(log)[rows[q].seat];
      }
    }

    /** Stamps a phase that is held again. */
    method StampAgain(p: nat, job: Job, stallMono: int)
      requires Valid() && job.snapshot.capture == null && p in rows
      modifies rows[p]
      ensures Valid() && rows[p].job == job && rows[p].stallMono == stallMono
      ensures rows[p].capture == old(rows[p].capture) && rows[p].recovery == old(rows[p].recovery)
    {
      assert Seated(p);
      rows[p].Restamp(job, stallMono);
      forall q | q in rows ensures Seated(q) {
        assert old(Seated(q));
      }
    }

    /** A row for a job just published, so that it can be revised: a phase held already
        is stamped again, and a new one is admitted. */
    method Remember(r: Record, job: Job)
      requires Valid() && job.snapshot.capture == null
      modifies this`rows, this`order, this`log, rows.Values
      ensures Valid()
      ensures log == if r.event.StallDetected? then Insert(old(log), r.phaseID) else old(log)
      ensures r.event.StallDetected? && r.phaseID != 0 ==>
        r.phaseID in rows && rows[r.phaseID].job == job && rows[r.phaseID].stallMono == r.monoNS
      ensures r.event.StallDetected? && r.phaseID != 0 ==> var row := rows[r.phaseID];
        if r.phaseID in old(rows)
        then row == old(rows[r.phaseID]) && row.capture == old(rows[r.phaseID].capture)
          && row.recovery == old(rows[r.phaseID].recovery)
        else fresh(row) && row.capture == null && row.recovery == None
      ensures forall p :: p in rows && (p != r.phaseID || !r.event.StallDetected?) ==>
        p in old(rows) && rows[p] == old(rows[p]) && unchanged(rows[p])
    {
      if r.event != StallDetected || r.phaseID == 0 {
        return;
      }
      if r.phaseID in rows {
        StampAgain(r.phaseID, job, r.monoNS);
      } else {
        Admit(r.phaseID, job, r.monoNS);
      }
    }

    /** The record ends a remembered stall that has not ended yet. */
    predicate Ends(r: Record)
      reads this, rows.Values
    {
      r.phaseID in rows && rows[r.phaseID].recovery.None? && EndOf(r, 0).Some?
    }

    /** A record that ends a stall: the first one of a residence is answered with a
        revision. */
    method Recovered(encodes: View -> bool, r: Record) returns (job: Option<Job>)
      requires Valid()
      modifies this`answered, rows.Values
      ensures Valid()
      ensures forall p :: p in rows && (p != r.phaseID || !old(Ends(r))) ==> unchanged(rows[p])
      ensures old(Ends(r)) ==> var row := rows[r.phaseID];
        && row.job == old(row.job) && row.stallMono == old(row.stallMono) && row.capture == old(row.capture)
        && row.recovery == EndOf(r, row.stallMono) && Fitted(encodes, row.Full(), job)
        && (job.Some? ==> job.value.subject == row.job.subject)
      ensures job.Some? && job.value.snapshot.capture != null ==> fresh(job.value.snapshot.capture)
      ensures if job == None then answered == old(answered) else
        old(Ends(r)) && rows[r.phaseID].seat !in old(answered) && answered == old(answered) + {rows[r.phaseID].seat}
    {
      job := None;
      if Ends(r) {
        var row := rows[r.phaseID];
        job := row.End(encodes, r);
        if job.Some? {
          answered := answered + {row.seat};
        }
      }
    }

    /** A capture was published: its stall is revised, held or forgotten. */
    method Captured(encodes: View -> bool, c: Capture) returns (job: Option<Job>)
      requires Valid()
      modifies rows.Values
      ensures Valid()
      ensures forall p :: p in rows && p != c.phaseID ==> unchanged(rows[p])
      ensures c.phaseID in rows ==> var row := rows[c.phaseID];
        && row.capture != null && fresh(row.capture) && IsExcerpt(c, row.capture.View())
        && row.stallMono == old(row.stallMono) && row.recovery == old(row.recovery)
        && row.job == Built(old(row.job), c.build) && Fitted(encodes, row.Full(), job)
        && (job.Some? ==> job.value.subject == row.job.subject)
      ensures c.phaseID !in rows ==>
        && (job.Some? ==> job.value.subject == PhaseSubject(c.phaseID))
        && exists ex :: IsExcerpt(c, ex) && Fitted(encodes, View(true, c.about, c.build, Some(ex), None), job)
      ensures job.Some? && job.value.snapshot.capture != null ==> fresh(job.value.snapshot.capture)
    {
      var ex := Excerpt(c);
      if c.phaseID in rows {
        job := rows[c.phaseID].Attach(encodes, ex, c.build);
      } else {
        var about := Snapshot(false, c.about, c.build, null, None);
        var row := new OwnerIncident(Job(PhaseSubject(c.phaseID), about), 0, |log|);
        job := row.Attach(encodes, ex, c.build);
      }
    }
  }
}
