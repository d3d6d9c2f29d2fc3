/** Waiting for a set of tasks: polls each task until it settles, shows it once,
    closes its notice once, and answers with one status for them all. */
module TaskWait {
  import opened Collections

  const SECOND: int := 1_000_000_000
  const POLL_LIMIT: int := 10 * SECOND
  const FIRST_POLL: int := SECOND
  const READ_LIMIT: nat := 3

  datatype State = Queued | Spawning | Briefed | Success | Failure | TimedOut | Cancelled | SpawnFailed | Unreadable
  {
    predicate Terminal() { Success? || Failure? || TimedOut? || Cancelled? || SpawnFailed? }
  }

  /** A task as the daemon tells it; `notice` says its completion notice is open. */
  datatype Task = Task(taskID: string, state: State, notice: bool)

  /** What a request may be met with: silence, a refusal, something garbled, or a
      record. */
  datatype Reply = Silence | Refusal | Garbled | Record(task: Task)

  /** Missed may be cured by the next poll; Lost will not. */
  datatype Reading = Missed | Lost | Got(task: Task)

  function ReadWaitedTask(reply: Reply): Reading {
    match reply
    case Silence => Missed
    case Refusal => Lost
    case Garbled => Lost
    case Record(task) => if task.state.Unreadable? then Lost else Got(task)
  }

  // ---------------------------------------------------------------- what was read

  datatype Answer = Answer(id: string, reply: Reply)

  /** The answer is a record that can be read. */
  predicate Reads(a: Answer) { a.reply.Record? && a.reply.task.state != Unreadable }

  /** The answer settles its task: nothing more will become of it. */
  predicate Settles(a: Answer) { Reads(a) && a.reply.task.state !in {Queued, Spawning, Briefed} }

  function Settled(log: seq<Answer>): map<string, Task> {
    if log == [] then map[] else
    var (before, a) := (Settled(log[..|log| - 1]), log[|log| - 1]);
    if Settles(a) then before[a.id := a.reply.task] else before
  }

  /** How many of an id's latest answers, one after the other, were no record. */
  function Misses(log: seq<Answer>, id: string): nat {
    if log == [] then 0 else
    var (before, a) := (log[..|log| - 1], log[|log| - 1]);
    if a.id != id then Misses(before, id)
    else if Reads(a) then 0
    else Misses(before, id) + 1
  }

  /** The latest answer is one that another poll will not cure, or the third silence in a
      row about its id. */
  predicate GivesUp(log: seq<Answer>) {
    log != [] && var a := log[|log| - 1];
    !Reads(a) && (a.reply != Silence || Misses(log, a.id) >= 3)
  }

  /** Nothing was asked after giving up, nor of a task that had settled. */
  ghost predicate Orderly(log: seq<Answer>) {
    log == [] ||
    var (before, a) := (log[..|log| - 1], log[|log| - 1]);
    Orderly(before) && !GivesUp(before) && a.id !in Settled(before)
  }

  // ---------------------------------------------------------------- what was written

  datatype Event = View(task: Task) | Acknowledge(task: Task)

  /** Each settled task in the order they settled: shown, and its notice closed if open. */
  function Written(log: seq<Answer>): seq<Event> {
    if log == [] then [] else
    var (before, a) := (Written(log[..|log| - 1]), log[|log| - 1]);
    if !Settles(a) then before
    else before + [View(a.reply.task)] + if a.reply.task.notice then [Acknowledge(a.reply.task)] else []
  }

  // ---------------------------------------------------------------- the status

  ghost predicate SomeFailed(settled: map<string, Task>) {
    exists id :: id in settled && !settled[id].state.Success? && !settled[id].state.Cancelled?
  }

  ghost predicate SomeCancelled(settled: map<string, Task>) {
    exists id :: id in settled && settled[id].state.Cancelled?
  }

  predicate Enough(ids: seq<string>, anyOne: bool, settled: map<string, Task>) {
    (forall i :: 0 <= i < |ids| ==> ids[i] in settled) || (anyOne && settled != map[])
  }

  /** Not readable, then not settled, then failed, then cancelled: the first that
      applies; success is what is left. */
  ghost function Verdict(ids: seq<string>, anyOne: bool, log: seq<Answer>): nat {
    var settled := Settled(log);
    if GivesUp(log) then 4
    else if !Enough(ids, anyOne, settled) then 3
    else if SomeFailed(settled) then 1
    else if SomeCancelled(settled) then 5
    else 0
  }

  /** Success: something settled, all of it well, and without --any everything did. */
  lemma SuccessIsOfAll(ids: seq<string>, anyOne: bool, log: seq<Answer>)
    requires ids != []
    ensures Verdict(ids, anyOne, log) == 0 <==>
      && !GivesUp(log) && Settled(log) != map[]
      && (forall id :: id in Settled(log) ==> Settled(log)[id].state.Success?)
      && (anyOne || forall i :: 0 <= i < |ids| ==> ids[i] in Settled(log))
  {
    if forall i :: 0 <= i < |ids| ==> ids[i] in Settled(log) {
      assert ids[0] in Settled(log);
    }
  }

  function Views(events: seq<Event>): nat {
    if events == [] then 0 else Views(events[..|events| - 1]) + if events[|events| - 1].View? then 1 else 0
  }

  function Acknowledged(events: seq<Event>): nat {
    if events == [] then 0 else
    Acknowledged(events[..|events| - 1]) + if events[|events| - 1].Acknowledge? then 1 else 0
  }

  function Noticed(settled: map<string, Task>): set<string> { set id | id in settled && settled[id].notice }

  lemma WrittenMore(before: seq<Event>, task: Task)
    ensures var more := before + [View(task)] + if task.notice then [Acknowledge(task)] else [];
      && Views(more) == Views(before) + 1 && Acknowledged(more) == Acknowledged(before) + (if task.notice then 1 else 0)
      && before <= more && View(task) in more && (task.notice ==> Acknowledge(task) in more)
  {
    var shown := before + [View(task)];
    assert shown[..|before|] == before;
    if task.notice {
      assert (shown + [Acknowledge(task)])[..|shown|] == shown;
    } else {
      assert shown + [] == shown;
    }
  }

  /** Every settled task is shown, and no more views are written than tasks settled. */
  lemma {:induction false} ShownOnce(log: seq<Answer>)
    requires Orderly(log)
    ensures Views(Written(log)) == |Settled(log)|
    ensures forall id :: id in Settled(log) ==> View(Settled(log)[id]) in Written(log)
  {
    if log != [] {
      var before, a := log[..|log| - 1], log[|log| - 1];
      ShownOnce(before);
      if Settles(a) {
        WrittenMore(Written(before), a.reply.task);
        assert Settled(log).Keys == Settled(before).Keys + {a.id};
      }
    }
  }

  lemma NoticedMore(settled: map<string, Task>, id: string, task: Task)
    requires id !in settled
    ensures var more := Noticed(settled[id := task]);
      && (forall other :: other in more <==> other in Noticed(settled) || (other == id && task.notice))
      && |more| == |Noticed(settled)| + if task.notice then 1 else 0
  {
    var more := Noticed(settled[id := task]);
    if task.notice {
      assert more == Noticed(settled) + {id};
    } else {
      assert more == Noticed(settled);
    }
  }

  /** Of these tasks, each with an open notice has had it closed, one closing for each. */
  ghost predicate AllClosed(settled: map<string, Task>, events: seq<Event>) {
    && Acknowledged(events) == |Noticed(settled)|
    && forall id :: id in Noticed(settled) ==> Acknowledge(settled[id]) in events
  }

  lemma OneMoreClosed(settled: map<string, Task>, events: seq<Event>, id: string, task: Task)
    requires id !in settled && AllClosed(settled, events)
    ensures AllClosed(settled[id := task], events + [View(task)] + if task.notice then [Acknowledge(task)] else [])
  {
    NoticedMore(settled, id, task);
    WrittenMore(events, task);
  }

  /** Every open notice of a settled task is closed, and no more are than were open. */
  lemma {:induction false} ClosedOnce(log: seq<Answer>)
    requires Orderly(log)
    ensures AllClosed(Settled(log), Written(log))
  {
    if log != [] {
      var before, a := log[..|log| - 1], log[|log| - 1];
      ClosedOnce(before);
      if Settles(a) {
        OneMoreClosed(Settled(before), Written(before), a.id, a.reply.task);
      }
    }
  }

  // ---------------------------------------------------------------- pauses

  function Pause(k: nat): int {
    if k == 0 then FIRST_POLL else if 2 * Pause(k - 1) < POLL_LIMIT then 2 * Pause(k - 1) else POLL_LIMIT
  }

  /** The first k pauses together. */
  function Paused(k: nat): int { if k == 0 then 0 else Paused(k - 1) + Pause(k - 1) }

  lemma {:induction false} PausedIsLinear(k: nat)
    ensures k >= 4 ==> Pause(k) == POLL_LIMIT && Paused(k) == 15 * SECOND + (k - 4) * POLL_LIMIT
  {
    if k > 4 {
      PausedIsLinear(k - 1);
    } else if k == 4 {
      assert Pause(1) == 2 * SECOND && Pause(2) == 4 * SECOND && Pause(3) == 8 * SECOND;
      assert Paused(2) == 3 * SECOND;
    }
  }

  /** Rounds of a wait whose last pause but one began before the timeout. */
  predicate RoundsFit(rounds: nat, timeout: int) { rounds >= 2 ==> Paused(rounds - 2) < timeout }

  /** From fifteen seconds on: five rounds, and one for each further ten seconds begun. */
  lemma RoundsAreBounded(rounds: nat, timeout: int)
    requires RoundsFit(rounds, timeout) && timeout >= 15_000_000_000
    ensures rounds <= 5 + (timeout - 15_000_000_000 + 9_999_999_999) / 10_000_000_000
  {
    if rounds >= 6 {
      PausedIsLinear(rounds - 2);
    }
  }

  /** The daemon and the clock: both may answer anything, but time does not go back. */
  class Daemon {
    var now: int
    ghost var log: seq<Answer>
    ghost var output: seq<Event>
    ghost var slept: seq<int>
    /** When each pause was to end. */
    ghost var wakes: seq<int>
    /** What had been read when each pause began. */
    ghost var rests: seq<seq<Answer>>

    method Now() returns (t: int)
      modifies this`now
      ensures t == now >= old(now)
    {
      var d: int :| d >= 0;
      now := now + d;
      t := now;
    }

    method Ask(id: string) returns (reply: Reply)
      modifies this`now, this`log
      ensures now >= old(now) && log == old(log) + [Answer(id, reply)]
    {
      var t := Now();
      reply := *;
      log := log + [Answer(id, reply)];
    }

    /** Shows a settled task and closes its notice. */
    method Show(task: Task)
      modifies this`now, this`output
      ensures now >= old(now)
      ensures output == old(output) + [View(task)] + if task.notice then [Acknowledge(task)] else []
    {
      output := output + [View(task)];
      if task.notice {
        output := output + [Acknowledge(task)];
      }
      var t := Now();
    }

    method Sleep(d: int)
      modifies this`now, this`slept, this`rests, this`wakes
      ensures now >= old(now) + d && slept == old(slept) + [d] && rests == old(rests) + [log]
      ensures wakes == old(wakes) + [old(now) + d]
    {
      slept, wakes := slept + [d], wakes + [now + d];
      rests := rests + [log];
      now := now + d;
      var t := Now();
    }
  }

  datatype Progress = Progress(settled: map<string, Task>, misses: map<string, nat>, failed: bool, cancelled: bool)

  function MissesOf(misses: map<string, nat>, id: string): nat { if id in misses then misses[id] else 0 }

  /** What the wait has kept is what the answers say. */
  ghost predicate Follows(p: Progress, log: seq<Answer>) {
    && p.settled == Settled(log) && Orderly(log)
    && (forall id :: MissesOf(p.misses, id) == Misses(log, id))
    && p.failed == SomeFailed(p.settled) && p.cancelled == SomeCancelled(p.settled)
  }

  lemma OneMore(settled: map<string, Task>, id: string, t: Task)
    requires id !in settled
    ensures SomeFailed(settled[id := t]) == (SomeFailed(settled) || !(t.state.Success? || t.state.Cancelled?))
    ensures SomeCancelled(settled[id := t]) == (SomeCancelled(settled) || t.state.Cancelled?)
  {
    var more := settled[id := t];
    assert more[id] == t && forall other :: other in settled ==> other in more && more[other] == settled[other];
  }

  /** What is kept after one more answer. */
  ghost function Absorbed(p: Progress, a: Answer): Progress {
    var misses := if Reads(a) then 0 else MissesOf(p.misses, a.id) + 1;
    var p' := p.(misses := p.misses[a.id := misses]);
    if !Settles(a) then p' else
    var t := a.reply.task;
    p'.(settled := p.settled[a.id := t], failed := p.failed || !(t.state.Success? || t.state.Cancelled?),
        cancelled := p.cancelled || t.state.Cancelled?)
  }

  lemma AbsorbedFollows(p: Progress, log: seq<Answer>, a: Answer)
    requires Follows(p, log) && !GivesUp(log) && a.id !in p.settled
    ensures Follows(Absorbed(p, a), log + [a])
    ensures GivesUp(log + [a]) <==> !Reads(a) && (a.reply != Silence || MissesOf(p.misses, a.id) + 1 >= 3)
    ensures Written(log + [a]) == Written(log) + if !Settles(a) then [] else
      [View(a.reply.task)] + if a.reply.task.notice then [Acknowledge(a.reply.task)] else []
  {
    var more, p' := log + [a], Absorbed(p, a);
    assert more[..|log|] == log && more[|log|] == a;
    forall id ensures MissesOf(p'.misses, id) == Misses(more, id) {
      assert MissesOf(p.misses, id) == Misses(log, id);
    }
    if Settles(a) {
      OneMore(p.settled, a.id, a.reply.task);
    }
  }

  /** Asks after one task and, if it has settled, shows it. */
  method PollTask(d: Daemon, id: string, p: Progress) returns (p': Progress, gaveUp: bool)
    requires Follows(p, d.log) && !GivesUp(d.log) && id !in p.settled && d.output == Written(d.log)
    modifies d`now, d`log, d`output
    ensures Follows(p', d.log) && d.output == Written(d.log) && gaveUp == GivesUp(d.log)
    ensures d.now >= old(d.now) && |d.log| == |old(d.log)| + 1 && old(d.log) < d.log && d.log[|d.log| - 1].id == id
    ensures forall other :: other in p'.settled <==> other in p.settled || (other == id && id in p'.settled)
  {
    var reply := d.Ask(id);
    p', gaveUp := p, false;
    AbsorbedFollows(p, old(d.log), Answer(id, reply));
    match ReadWaitedTask(reply)
    case Missed =>
      var misses := MissesOf(p.misses, id) + 1;
      p' := p.(misses := p.misses[id := misses]);
      gaveUp := misses >= READ_LIMIT;
    case Lost =>
      p' := p.(misses := p.misses[id := MissesOf(p.misses, id) + 1]);
      gaveUp := true;
    case Got(t) =>
      p' := p.(misses := p.misses[id := 0]);
      if t.state.Terminal() {
        p' := p'.(settled := p.settled[id := t], failed := p.failed || !(t.state.Success? || t.state.Cancelled?),
                  cancelled := p.cancelled || t.state.Cancelled?);
        d.Show(t);
      }
  }

  ghost predicate Known(ids: seq<string>, settled: map<string, Task>) { forall id :: id in settled ==> id in ids }

  ghost predicate Asked(log: seq<Answer>, from: nat, id: string) { exists i :: from <= i < |log| && log[i].id == id }

  lemma StillAsked(before: seq<Answer>, log: seq<Answer>, from: nat)
    requires before < log && from <= |before|
    ensures forall id :: Asked(before, from, id) ==> Asked(log, from, id)
    ensures Asked(log, from, log[|log| - 1].id)
  {
    forall id | Asked(before, from, id) ensures Asked(log, from, id) {
      var i :| from <= i < |before| && before[i].id == id;
      assert log[i].id == id;
    }
  }

  /** From one log to the next, every id that had not settled was asked after. */
  ghost predicate AllAsked(ids: seq<string>, before: seq<Answer>, after: seq<Answer>) {
    before <= after && forall i :: 0 <= i < |ids| ==> ids[i] in Settled(before) || Asked(after, |before|, ids[i])
  }

  /** One poll of every task that has not settled. */
  method PollRound(d: Daemon, ids: seq<string>, p: Progress) returns (p': Progress, gaveUp: bool)
    requires Follows(p, d.log) && !GivesUp(d.log) && d.output == Written(d.log) && Known(ids, p.settled)
    modifies d`now, d`log, d`output
    ensures Follows(p', d.log) && d.output == Written(d.log) && gaveUp == GivesUp(d.log) && Known(ids, p'.settled)
    ensures d.now >= old(d.now) && old(d.log) <= d.log && |d.log| <= |old(d.log)| + |ids|
    ensures !gaveUp ==> AllAsked(ids, old(d.log), d.log)
  {
    p', gaveUp := p, false;
    var n := 0;
    while n < |ids| && !gaveUp
      invariant 0 <= n <= |ids|
      invariant Follows(p', d.log) && d.output == Written(d.log) && gaveUp == GivesUp(d.log) && Known(ids, p'.settled)
      invariant d.now >= old(d.now) && old(d.log) <= d.log && |d.log| <= |old(d.log)| + n
      invariant forall k :: 0 <= k < n ==> ids[k] in p.settled || Asked(d.log, |old(d.log)|, ids[k])
      invariant forall id :: id in p'.settled ==> id in p.settled || Asked(d.log, |old(d.log)|, id)
    {
      if ids[n] !in p'.settled {
        ghost var before := d.log;
        p', gaveUp := PollTask(d, ids[n], p');
        StillAsked(before, d.log, |old(d.log)|);
      }
      n := n + 1;
    }
  }

  lemma CountTellsAll(ids: seq<string>, settled: map<string, Task>)
    requires Distinct(ids) && Known(ids, settled)
    ensures |settled| == |ids| <==> forall i :: 0 <= i < |ids| ==> ids[i] in settled
  {
    Pigeonhole(ids);
    Fewer(settled.Keys, Members(ids));
    if forall i :: 0 <= i < |ids| ==> ids[i] in settled {
      assert settled.Keys == Members(ids);
    }
  }

  /** At most this many requests: one for each task in each round. */
  function Asks(rounds: nat, tasks: nat): nat { if rounds == 0 then 0 else Asks(rounds - 1, tasks) + tasks }

  lemma {:induction false} AsksMultiply(rounds: nat, tasks: nat)
    ensures Asks(rounds, tasks) == rounds * tasks
  {
    if rounds > 0 {
      AsksMultiply(rounds - 1, tasks);
    }
  }

  /** Every pause but the last was whole; the last was cut short only by the deadline. */
  ghost predicate BackedOff(slept: seq<int>) {
    forall k :: 0 <= k < |slept| ==> 0 < slept[k] <= Pause(k) && (k < |slept| - 1 ==> slept[k] == Pause(k))
  }

  /** The pauses so far fit the time that has passed. */
  ghost predicate InTime(slept: seq<int>, start: int, now: int, timeout: int) {
    && RoundsFit(|slept| + 1, timeout) && BackedOff(slept)
    && (now >= start + timeout ||
        (now >= start + Paused(|slept|) && (slept != [] ==> slept[|slept| - 1] == Pause(|slept| - 1))))
  }

  lemma OneMorePause(slept: seq<int>, start: int, before: int, d: int, after: int, timeout: int)
    requires InTime(slept, start, before, timeout) && before < start + timeout && after >= before + d && d > 0
    requires d == Pause(|slept|) || (d < Pause(|slept|) && before + d == start + timeout)
    ensures InTime(slept + [d], start, after, timeout)
  {
    var more := slept + [d];
    assert Paused(|more|) == Paused(|slept|) + Pause(|slept|);
    forall k | 0 <= k < |more| ensures 0 < more[k] <= Pause(k) && (k < |more| - 1 ==> more[k] == Pause(k)) {
      assert k < |slept| ==> more[k] == slept[k];
    }
  }

  /** What had been read when the latest pause began. */
  ghost function Latest(rests: seq<seq<Answer>>): seq<Answer> { if rests == [] then [] else rests[|rests| - 1] }

  /** Before every pause there was a round that asked after every id, and not enough
      had settled. */
  ghost predicate Rounds(ids: seq<string>, anyOne: bool, rests: seq<seq<Answer>>) {
    rests == [] ||
    var (before, log) := (rests[..|rests| - 1], rests[|rests| - 1]);
    Rounds(ids, anyOne, before) && AllAsked(ids, Latest(before), log) && !Enough(ids, anyOne, Settled(log))
  }

  lemma OneMoreRound(ids: seq<string>, anyOne: bool, rests: seq<seq<Answer>>, log: seq<Answer>)
    requires Rounds(ids, anyOne, rests) && AllAsked(ids, Latest(rests), log) && !Enough(ids, anyOne, Settled(log))
    ensures Rounds(ids, anyOne, rests + [log]) && Latest(rests + [log]) == log
  {
    assert (rests + [log])[..|rests|] == rests;
  }

  /** Pause by pause. */
  lemma {:induction false} EachRound(ids: seq<string>, anyOne: bool, rests: seq<seq<Answer>>, k: nat)
    requires Rounds(ids, anyOne, rests) && k < |rests|
    ensures AllAsked(ids, if k == 0 then [] else rests[k - 1], rests[k]) && !Enough(ids, anyOne, Settled(rests[k]))
    decreases |rests|
  {
    if k < |rests| - 1 {
      EachRound(ids, anyOne, rests[..|rests| - 1], k);
    }
  }

  /** The state of a wait between rounds, apart from its time. */
  ghost predicate Kept(d: Daemon, ids: seq<string>, anyOne: bool, p: Progress)
    reads d
  {
    && Follows(p, d.log) && d.output == Written(d.log) && Known(ids, p.settled)
    && |d.rests| == |d.slept| && Rounds(ids, anyOne, d.rests)
  }

  /** No pause was to end past the deadline. */
  ghost predicate NoLater(wakes: seq<int>, deadline: int) { forall k :: 0 <= k < |wakes| ==> wakes[k] <= deadline }

  /** Sleeps until the next round, or not at all past the deadline. */
  method Rest(d: Daemon, ghost start: int, ghost timeout: int, deadline: int, pause: int)
    returns (late: bool, pause': int)
    requires deadline == start + timeout && pause == Pause(|d.slept|) && pause > 0
      && InTime(d.slept, start, d.now, timeout) && NoLater(d.wakes, deadline)
    modifies d`now, d`slept, d`rests, d`wakes
    ensures InTime(d.slept, start, d.now, timeout) && NoLater(d.wakes, deadline) && d.now >= old(d.now)
    ensures if late then d.rests == old(d.rests) else d.rests == old(d.rests) + [d.log]
    ensures late ==> d.slept == old(d.slept) && d.now >= deadline
    ensures !late ==> |d.slept| == |old(d.slept)| + 1 && pause' == Pause(|d.slept|) && pause' > 0
    ensures !late ==> d.now > old(d.now) && old(d.now) < deadline
  {
    var now := d.Now();
    late, pause' := deadline - now <= 0, pause;
    if !late {
      var t := if pause < deadline - now then pause else deadline - now;
      d.Sleep(t);
      OneMorePause(old(d.slept), start, now, t, d.now, timeout);
      pause' := if 2 * pause < POLL_LIMIT then 2 * pause else POLL_LIMIT;
    }
  }

  /** A rest that is recorded with the round before it. */
  method RestAfter(d: Daemon, ghost ids: seq<string>, ghost anyOne: bool, ghost p: Progress, ghost start: int,
    ghost timeout: int,
                   deadline: int, pause: int)
    returns (late: bool, pause': int)
    requires Kept(d, ids, anyOne, p) && !Enough(ids, anyOne, p.settled) && AllAsked(ids, Latest(d.rests), d.log)
    requires deadline == start + timeout && pause == Pause(|d.slept|) && pause > 0
      && InTime(d.slept, start, d.now, timeout) && NoLater(d.wakes, deadline)
    modifies d`now, d`slept, d`rests, d`wakes
    ensures NoLater(d.wakes, deadline)
    ensures Kept(d, ids, anyOne, p) && InTime(d.slept, start, d.now, timeout) && d.now >= old(d.now)
    ensures late ==> d.slept == old(d.slept) && d.rests == old(d.rests) && d.now >= deadline
    ensures !late ==>
      |d.slept| == |old(d.slept)| + 1 && Latest(d.rests) == d.log && pause' == Pause(|d.slept|) && pause' > 0
    ensures !late ==> d.now > old(d.now) && old(d.now) < deadline
  {
    OneMoreRound(ids, anyOne, d.rests, d.log);
    late, pause' := Rest(d, start, timeout, deadline, pause);
  }

  /** The status once the polling is over. */
  method Conclude(ids: seq<string>, anyOne: bool, p: Progress, ghost log: seq<Answer>) returns (status: nat)
    requires Follows(p, log) && !GivesUp(log) && ids != []
    ensures status == Verdict(ids, anyOne, log)
  {
    var running := 0;
    for n := 0 to |ids|
      invariant 0 <= running <= n
      invariant running == 0 <==> forall i :: 0 <= i < n ==> ids[i] in p.settled
    {
      if ids[n] !in p.settled {
        running := running + 1;
      }
    }
    if running == 0 {
      assert ids[0] in p.settled;
    }
    status :=
      if |p.settled| == 0 || (!anyOne && running > 0) then 3
      else if p.failed then 1
      else if p.cancelled then 5
      else 0;
  }

  method HasEnough(ids: seq<string>, anyOne: bool, settled: map<string, Task>) returns (enough: bool)
    requires Distinct(ids) && Known(ids, settled)
    ensures enough == Enough(ids, anyOne, settled)
  {
    CountTellsAll(ids, settled);
    enough := |settled| == |ids| || (anyOne && |settled| > 0);
  }

  datatype Phase = Going | GaveUp | Over

  lemma InTimeLater(slept: seq<int>, start: int, before: int, now: int, timeout: int)
    requires InTime(slept, start, before, timeout) && before <= now
    ensures InTime(slept, start, now, timeout)
  {
  }

  /** The pause after a round, unless enough has settled or the time is over. */
  method PauseUnlessEnough(d: Daemon, ids: seq<string>, anyOne: bool, ghost start: int, ghost timeout: int,
    deadline: int, p: Progress, pause: int)
    returns (pause': int, phase: Phase)
    requires Distinct(ids) && Kept(d, ids, anyOne, p) && AllAsked(ids, Latest(d.rests), d.log)
    requires deadline == start + timeout && pause == Pause(|d.slept|) && pause > 0
      && InTime(d.slept, start, d.now, timeout) && NoLater(d.wakes, deadline)
    modifies d`now, d`slept, d`rests, d`wakes
    ensures NoLater(d.wakes, deadline)
    ensures Kept(d, ids, anyOne, p) && InTime(d.slept, start, d.now, timeout) && d.now >= old(d.now) && !phase.GaveUp?
    ensures phase.Over? ==>
      d.slept == old(d.slept) && d.rests == old(d.rests) && (Enough(ids, anyOne, p.settled) || d.now >= deadline)
    ensures phase.Going? ==>
      |d.slept| == |old(d.slept)| + 1 && Latest(d.rests) == d.log && pause' == Pause(|d.slept|) && pause' > 0
    ensures phase.Going? ==> d.now > old(d.now) && old(d.now) < deadline && !Enough(ids, anyOne, p.settled)
  {
    pause', phase := pause, Over;
    var enough := HasEnough(ids, anyOne, p.settled);
    if !enough {
      var late;
      late, pause' := RestAfter(d, ids, anyOne, p, start, timeout, deadline, pause);
      phase := if late then Over else Going;
    }
  }

  /** One round and the pause after it, if there is one. */
  method Round(d: Daemon, ids: seq<string>, anyOne: bool, ghost start: int, ghost timeout: int, deadline: int,
    p: Progress, pause: int)
    returns (p': Progress, pause': int, phase: Phase)
    requires Distinct(ids) && Kept(d, ids, anyOne, p) && !GivesUp(d.log) && |d.log| <= Asks(|d.slept|, |ids|)
    requires d.log == Latest(d.rests)
    requires deadline == start + timeout && pause == Pause(|d.slept|) && pause > 0
      && InTime(d.slept, start, d.now, timeout) && NoLater(d.wakes, deadline)
    modifies d
    ensures NoLater(d.wakes, deadline)
    ensures Kept(d, ids, anyOne, p') && InTime(d.slept, start, d.now, timeout) && phase.GaveUp? == GivesUp(d.log)
    ensures |d.log| <= Asks(|d.slept| + if phase.Going? then 0 else 1, |ids|)
    ensures phase.Going? ==> pause' == Pause(|d.slept|) && pause' > 0 && d.now > old(d.now) && old(d.now) < deadline
    ensures phase.Over? ==> Enough(ids, anyOne, p'.settled) || d.now >= deadline
    ensures d.now >= old(d.now)
    ensures if phase.Going? then d.log == Latest(d.rests) else
      d.rests == old(d.rests) && Latest(d.rests) <= d.log && (phase.Over? ==> AllAsked(ids, Latest(d.rests), d.log))
  {
    pause', phase := pause, Over;
    var gaveUp;
    p', gaveUp := PollRound(d, ids, p);
    InTimeLater(d.slept, start, old(d.now), d.now, timeout);
    if gaveUp {
      phase := GaveUp;
    } else {
      pause', phase := PauseUnlessEnough(d, ids, anyOne, start, timeout, deadline, p', pause);
    }
  }

  method WaitTasks(d: Daemon, ids: seq<string>, timeout: int, anyOne: bool)
    returns (status: nat, ghost deadline: int)
    requires Distinct(ids) && ids != []
    requires d.log == [] && d.output == [] && d.slept == [] && d.rests == [] && d.wakes == []
    modifies d
    ensures status == Verdict(ids, anyOne, d.log) && Orderly(d.log) && Known(ids, Settled(d.log))
    ensures d.output == Written(d.log)
    ensures old(d.now) + timeout <= deadline && (status == 3 ==> d.now >= deadline) && NoLater(d.wakes, deadline)
    ensures |d.rests| == |d.slept| && Rounds(ids, anyOne, d.rests)
    ensures Latest(d.rests) <= d.log && (status == 4 || AllAsked(ids, Latest(d.rests), d.log))
    ensures RoundsFit(|d.slept| + 1, timeout) && |d.log| <= Asks(|d.slept| + 1, |ids|) && BackedOff(d.slept)
  {
    var start := d.Now();
    var end := start + timeout;
    deadline := end;
    var p, pause, phase := Progress(map[], map[], false, false), FIRST_POLL, Going;
    while phase.Going?
      invariant Kept(d, ids, anyOne, p) && InTime(d.slept, start, d.now, timeout) && phase.GaveUp? == GivesUp(d.log)
      invariant NoLater(d.wakes, end)
      invariant |d.log| <= Asks(|d.slept| + if phase.Going? then 0 else 1, |ids|)
      invariant phase.Going? ==> pause == Pause(|d.slept|) && pause > 0
      invariant phase.Over? ==> Enough(ids, anyOne, p.settled) || d.now >= end
      invariant if phase.Going? then d.log == Latest(d.rests) else Latest(d.rests) <= d.log
      invariant phase.Over? ==> AllAsked(ids, Latest(d.rests), d.log)
      decreases phase.Going?, end - d.now
    {
      p, pause, phase := Round(d, ids, anyOne, start, timeout, end, p, pause);
    }
    status := if phase.GaveUp? then 4 else 3;
    if !phase.GaveUp? {
      status := Conclude(ids, anyOne, p, d.log);
    }
  }
}
