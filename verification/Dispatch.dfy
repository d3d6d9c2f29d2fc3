/** Dispatching a task that may have to be tried again: the brief is put on disk, the
    task posted once or twice, and the directory taken back only when nothing came of
    it. The daemon is keyed by task id and reads the brief from the directory. */
module Dispatch {
  import opened Collections

  type Id = nat
  type Generation = nat
  datatype Brief = Brief(text: string)

  datatype File = Missing | Torn | Holds(brief: Brief)

  /** A task's directory: `task.json` and `dispatch-intent.json`. */
  datatype Dir = Dir(task: File, intent: File)

  /** What comes back for a POST. Lost says nothing of what became of it. */
  datatype Reply = Accepted | Stale | Refused | Lost

  // ---------------------------------------------------------------- the protocol of one run

  datatype Event =
    | Inventory(read: Option<Generation>)
    | Found | Made | Written
    | Post(generation: Generation, reply: Reply)
    | Removed

  datatype Phase =
    | Begun
    | Known(generation: Generation)
    | Making(generation: Generation)
    | Placed(generation: Generation, created: bool)
    | WasStale(created: bool)
    | KnownAgain(generation: Generation, created: bool)
    | Nothing(created: bool)
    | Over
    | Wrong

  /** Where a run may go. A POST carries the generation just read; a second one
      follows only a stale answer and a second reading; a directory is removed only
      by the run that made it, when it could not be filled or nothing came of it; and
      nothing at all follows a POST that was, or may have been, accepted. */
  function Next(phase: Phase, e: Event): Phase {
    match (phase, e)
    case (Begun, Inventory(Some(g))) => Known(g)
    case (Begun, Inventory(None)) => Over
    case (Known(g), Found) => Placed(g, false)
    case (Known(g), Made) => Making(g)
    case (Making(g), Written) => Placed(g, true)
    case (Making(_), Removed) => Over
    case (Placed(g, created), Post(g', reply)) =>
      if g' != g then Wrong else if reply.Stale? then WasStale(created) else if reply.Refused? then Nothing(created)
        else Over
    case (WasStale(created), Inventory(Some(g))) => KnownAgain(g, created)
    case (WasStale(created), Inventory(None)) => Nothing(created)
    case (KnownAgain(g, created), Post(g', reply)) =>
      if g' != g then Wrong else if reply.Stale? || reply.Refused? then Nothing(created) else Over
    case (Nothing(true), Removed) => Over
    case _ => Wrong
  }

  function After(events: seq<Event>): Phase {
    if events == [] then Begun else Next(After(events[..|events| - 1]), events[|events| - 1])
  }

  function Posts(events: seq<Event>): nat {
    if events == [] then 0 else Posts(events[..|events| - 1]) + if events[|events| - 1].Post? then 1 else 0
  }

  /** How the latest POST was answered. */
  function LastReply(events: seq<Event>): Option<Reply> {
    if events == [] then None
    else if events[|events| - 1].Post? then Some(events[|events| - 1].reply)
    else LastReply(events[..|events| - 1])
  }

  /** How many POSTs have been sent by a run that is in this phase. */
  function PostsBy(phase: Phase): (nat, nat) {
    match phase
    case Begun => (0, 0)
    case Known(_) => (0, 0)
    case Making(_) => (0, 0)
    case Placed(_, _) => (0, 0)
    case WasStale(_) => (1, 1)
    case KnownAgain(_, _) => (1, 1)
    case Nothing(_) => (1, 2)
    case Over => (0, 2)
    case Wrong => (0, 0)
  }

  /** No run that keeps to the protocol sends a third POST. */
  lemma {:induction false} AtMostTwoPosts(events: seq<Event>)
    requires After(events) != Wrong
    ensures PostsBy(After(events)).0 <= Posts(events) <= PostsBy(After(events)).1
  {
    if events != [] {
      AtMostTwoPosts(events[..|events| - 1]);
    }
  }

  /** A second POST comes straight after the reading of its generation, and that
      after a stale answer. */
  lemma {:induction false} SecondPostIsFresh(events: seq<Event>, i: nat)
    requires After(events) != Wrong && i < |events| && events[i].Post? && Posts(events[..i]) > 0
    ensures i >= 2 && events[i - 1] == Inventory(Some(events[i].generation)) && events[i - 2].Post?
      && events[i - 2].reply.Stale?
    decreases |events|
  {
    var before := events[..|events| - 1];
    if i < |before| {
      assert before[..i] == events[..i];
      SecondPostIsFresh(before, i);
    } else {
      assert events[..i] == before;
      AtMostTwoPosts(before);
      var earlier := before[..|before| - 1];
      assert After(before) == Next(After(earlier), before[|before| - 1]);
      assert earlier != [] by {
        assert After(before).KnownAgain?;
        assert After(earlier).WasStale?;
      }
      assert After(earlier) == Next(After(earlier[..|earlier| - 1]), earlier[|earlier| - 1]);
    }
  }

  /** The run has made the directory. */
  predicate Created(phase: Phase) {
    phase.Making? || ((phase.Placed? || phase.WasStale? || phase.KnownAgain? || phase.Nothing?) && phase.created)
  }

  /** A run may end here saying that nothing was dispatched: it has answered a stale
      answer, and holds no directory of its own. */
  predicate Concluded(phase: Phase) { phase.Known? || phase.Over? || phase == Nothing(false) }

  ghost predicate NothingCame(events: seq<Event>) {
    forall i :: 0 <= i < |events| && events[i].Post? ==> events[i].reply.Stale? || events[i].reply.Refused?
  }

  lemma {:induction false} UntilOver(events: seq<Event>)
    requires After(events) != Wrong && After(events) != Over
    ensures NothingCame(events) && Removed !in events && (Created(After(events)) ==> Made in events)
  {
    if events != [] {
      UntilOver(events[..|events| - 1]);
    }
  }

  /** A directory is removed only by the run that made it, last of all, and only if
      none of its POSTs was, or may have been, accepted. */
  lemma {:induction false} RemovedIsOwn(events: seq<Event>)
    requires After(events) != Wrong && Removed in events
    ensures Made in events && NothingCame(events) && events[|events| - 1] == Removed
  {
    var before := events[..|events| - 1];
    assert After(before) != Over && After(before) != Wrong;
    UntilOver(before);
  }

  // ---------------------------------------------------------------- disk and daemon

  /** No other directory is touched. */
  twostate predicate OnlyDir(w: World, id: Id)
    reads w
  {
    forall other :: other != id ==>
      (other in w.dirs <==> other in old(w.dirs)) && (other in w.dirs ==> w.dirs[other] == old(w.dirs)[other])
  }

  /** One more event has been recorded. */
  ghost predicate Recorded(before: seq<Event>, e: Event, events: seq<Event>) {
    && events == before + [e] && After(events) == Next(After(before), e)
    && Posts(events) == Posts(before) + (if e.Post? then 1 else 0)
    && LastReply(events) == if e.Post? then Some(e.reply) else LastReply(before)
  }

  datatype IntentRead = NotThere | Unreadable | Uninspectable | Content(brief: Brief)

  /** What has stood in the way of a run before it could post anything. */
  datatype Obstacle =
    NoObstacle | NoInventory | IntentUnclear | OtherBrief | TaskWithoutIntent | DirectoryNotMade | FileNotWritten

  class World {
    var dirs: map<Id, Dir>
    ghost var obstacle: Obstacle
    /** How many runs have begun. */
    ghost var begun: nat
    /** The run that began last has been killed. */
    ghost var killed: bool
    /** What the daemon has taken, with the brief it read for each id. */
    var tasks: map<Id, Brief>
    ghost var events: seq<Event>
    /** Every task ever made, in order. */
    ghost var made: seq<Id>

    /** Every task taken has its own brief as intent on disk, and no intent stands
        beside another brief. */
    ghost predicate Valid()
      reads this
    {
      && (forall id :: id in tasks ==> id in dirs && dirs[id].intent == Holds(tasks[id]))
      && (forall id :: id in dirs && dirs[id].intent.Holds? ==>
        dirs[id].task.Missing? || dirs[id].task == dirs[id].intent)
      && (forall id :: id in tasks <==> id in made)
      && forall i, j :: 0 <= i < j < |made| ==> made[i] != made[j]
    }

    ghost method Log(e: Event)
      modifies this`events
      ensures Recorded(old(events), e, events)
    {
      assert (events + [e])[..|events|] == events;
      events := events + [e];
    }

    method ReadInventory() returns (generation: Option<Generation>)
      modifies this`events
      ensures Recorded(old(events), Inventory(generation), events)
    {
      var answered: bool := *;
      generation := None;
      if answered {
        var g: nat :| 0 <= g;
        generation := Some(g);
      }
      Log(Inventory(generation));
    }

    /** At any moment the run may be killed. */
    method Kill() returns (now: bool)
      modifies this`killed
      ensures killed == (old(killed) || now)
    {
      now := *;
      killed := killed || now;
    }

    /** A run begins by reading the inventory. */
    method FirstInventory() returns (generation: Option<Generation>)
      modifies this`events, this`obstacle, this`killed, this`begun
      ensures !killed && LastReply(events).None? && begun == old(begun) + 1
      ensures obstacle == if generation.None? then NoInventory else NoObstacle
      ensures After(events) == (if generation.Some? then Known(generation.value) else Over) && Posts(events) == 0
    {
      events, killed, begun := [], false, begun + 1;
      generation := ReadInventory();
      obstacle := if generation.None? then NoInventory else NoObstacle;
    }

    method ReadIntent(id: Id, ghost brief: Brief) returns (r: IntentRead)
      modifies this`obstacle
      ensures obstacle == match r
        case NotThere => old(obstacle)
        case Content(found) => (if found == brief then old(obstacle) else OtherBrief)
        case _ => IntentUnclear
      ensures r.NotThere? ==> id !in dirs || dirs[id].intent.Missing?
      ensures r.Content? ==> id in dirs && dirs[id].intent == Holds(r.brief)
      ensures r.Unreadable? ==> id in dirs && dirs[id].intent.Torn?
    {
      var fails: bool := *;
      if fails {
        r := Uninspectable;
        obstacle := IntentUnclear;
      } else if id !in dirs || dirs[id].intent.Missing? {
        r := NotThere;
      } else if dirs[id].intent.Torn? {
        r := Unreadable;
        obstacle := IntentUnclear;
      } else {
        r := Content(dirs[id].intent.brief);
        obstacle := if r.brief == brief then obstacle else OtherBrief;
      }
    }

    method TaskFileExists(id: Id) returns (exists': bool)
      modifies this`obstacle
      ensures obstacle == if exists' then TaskWithoutIntent else old(obstacle)
      ensures exists' ==> id in dirs && !dirs[id].task.Missing?
    {
      var fails: bool := *;
      exists' := !fails && id in dirs && !dirs[id].task.Missing?;
      obstacle := if exists' then TaskWithoutIntent else obstacle;
    }

    /** Making a directory fails when there is one. */
    method MakeDir(id: Id) returns (ok: bool)
      requires Valid()
      modifies this`dirs, this`events, this`obstacle
      ensures Valid() && obstacle == if ok then old(obstacle) else DirectoryNotMade
      ensures if ok then id !in old(dirs) && dirs == old(dirs)[id := Dir(Missing, Missing)]
        && Recorded(old(events), Made, events)
              else dirs == old(dirs) && events == old(events)
    {
      var fails: bool := *;
      ok := id !in dirs && !fails;
      if ok {
        dirs := dirs[id := Dir(Missing, Missing)];
        Log(Made);
      } else {
        obstacle := DirectoryNotMade;
      }
    }

    /** A write that fails leaves nothing, a part, or all of it. */
    method WriteTask(id: Id, brief: Brief) returns (ok: bool)
      requires Valid() && id in dirs && dirs[id] == Dir(Missing, Missing)
      modifies this`dirs, this`obstacle
      ensures obstacle == if ok then old(obstacle) else FileNotWritten
      ensures Valid() && id in dirs && dirs == old(dirs)[id := dirs[id]] && dirs[id].intent.Missing?
      ensures ok ==> dirs[id].task == Holds(brief)
    {
      ok := *;
      var left: File := *;
      var file := if ok || left.Holds? then Holds(brief) else left;
      dirs := dirs[id := Dir(file, Missing)];
      obstacle := if ok then obstacle else FileNotWritten;
    }

    method WriteIntent(id: Id, brief: Brief) returns (ok: bool)
      requires Valid() && id in dirs && dirs[id] == Dir(Holds(brief), Missing)
      modifies this`dirs, this`obstacle
      ensures obstacle == if ok then old(obstacle) else FileNotWritten
      ensures Valid() && id in dirs && dirs == old(dirs)[id := dirs[id]] && dirs[id].task == Holds(brief)
      ensures ok ==> dirs[id].intent == Holds(brief)
    {
      ok := *;
      var left: File := *;
      var file := if ok || left.Holds? then Holds(brief) else left;
      dirs := dirs[id := Dir(Holds(brief), file)];
      obstacle := if ok then obstacle else FileNotWritten;
    }

    /** A removal may stop half-way: whatever is left is what was there. */
    method RemoveAll(id: Id)
      requires Valid() && id !in tasks
      modifies this`dirs, this`events
      ensures Valid() && Recorded(old(events), Removed, events)
      ensures OnlyDir(this, id)
    {
      Log(Removed);
      if id in dirs {
        var task: bool, intent: bool, dir: bool := *, *, *;
        if task {
          dirs := dirs[id := dirs[id].(task := Missing)];
        }
        if intent {
          dirs := dirs[id := dirs[id].(intent := Missing)];
        }
        if dir && dirs[id] == Dir(Missing, Missing) {
          dirs := dirs - {id};
        }
      }
    }

    /** Posts a task whose intent is on disk. A task that is known is answered for
        again; one that is not may be taken, with the brief read from its directory;
        an answer of refusal made nothing; any answer may be lost on the way. */
    method PostTask(id: Id, generation: Generation) returns (reply: Reply)
      requires Valid() && id in dirs && dirs[id].intent.Holds?
      modifies this`tasks, this`events, this`made
      ensures Valid() && Recorded(old(events), Post(generation, reply), events)
      ensures tasks == old(tasks) || (id !in old(tasks) && tasks == old(tasks)[id := dirs[id].intent.brief])
      ensures reply.Accepted? ==> id in tasks
      ensures reply.Stale? || reply.Refused? ==> tasks == old(tasks)
    {
      reply := *;
      var taken: bool := *;
      if taken && id !in tasks && dirs[id].task.Holds? {
        tasks := tasks[id := dirs[id].task.brief];
        made := made + [id];
        reply := if reply.Lost? then Lost else Accepted;
      } else if reply.Accepted? && id !in tasks {
        reply := Refused;
      }
      Log(Post(generation, reply));
    }
  }

  /** Nothing was taken, or this id with this brief, and the id was new. */
  ghost predicate TookAtMost(before: map<Id, Brief>, after: map<Id, Brief>, id: Id, brief: Brief) {
    after == before || (id !in before && after == before[id := brief])
  }

  // ---------------------------------------------------------------- the command

  datatype Outcome = Dispatched | NotDispatched | Uncertain | Killed

  /** What a run must say of itself, by how its latest POST was answered. */
  function Conclusion(killed: bool, reply: Option<Reply>): Outcome {
    if killed then Killed else
    match reply
    case None => NotDispatched
    case Some(Accepted) => Dispatched
    case Some(Lost) => Uncertain
    case Some(_) => NotDispatched
  }

  /** How the brief comes to be on disk: it is there, or it is written. */
  datatype Placing = Ready(created: bool) | Refusing | Interrupted

  /** Writes both files of a directory that was just made. */
  method FillDir(w: World, id: Id, brief: Brief) returns (placing: Placing)
    requires w.Valid() && id in w.dirs && w.dirs[id] == Dir(Missing, Missing)
    requires !w.killed
    modifies w`dirs, w`obstacle, w`killed
    ensures w.Valid() && w.tasks == old(w.tasks) && OnlyDir(w, id) && placing.Interrupted? == w.killed
    ensures placing.Ready? ==> placing.created && id in w.dirs && w.dirs[id] == Dir(Holds(brief), Holds(brief))
    ensures placing.Refusing? ==> w.obstacle != NoObstacle
  {
    var ok := w.WriteTask(id, brief);
    if !ok {
      return Refusing;
    }
    var killed := w.Kill();
    if killed {
      return Interrupted;
    }
    ok := w.WriteIntent(id, brief);
    placing := if ok then Ready(true) else Refusing;
  }

  /** Fills a directory that was just made, or takes it back. */
  method FillOrRemove(w: World, id: Id, brief: Brief) returns (placing: Placing)
    requires w.Valid() && id !in w.tasks && id in w.dirs && w.dirs[id] == Dir(Missing, Missing)
    requires After(w.events).Making? && !w.killed
    modifies w`dirs, w`events, w`obstacle, w`killed
    ensures w.Valid() && w.tasks == old(w.tasks) && OnlyDir(w, id) && placing.Interrupted? == w.killed
    ensures placing.Ready? ==> placing.created && id in w.dirs && w.dirs[id] == Dir(Holds(brief), Holds(brief))
    ensures placing.Refusing? ==> w.obstacle != NoObstacle
    ensures After(w.events) == match placing
      case Ready(_) => Placed(After(old(w.events)).generation, true)
      case Refusing => Over
      case Interrupted => After(old(w.events))
    ensures Posts(w.events) == Posts(old(w.events)) && LastReply(w.events) == LastReply(old(w.events))
  {
    placing := FillDir(w, id, brief);
    if placing.Refusing? {
      w.RemoveAll(id);
    } else if placing.Ready? {
      w.Log(Written);
    }
  }

  /** Writes a new directory, or takes it back. */
  method WriteTaskFile(w: World, id: Id, brief: Brief) returns (placing: Placing)
    requires w.Valid() && After(w.events).Known? && !w.killed
    modifies w`dirs, w`events, w`obstacle, w`killed
    ensures w.Valid() && w.tasks == old(w.tasks) && placing.Interrupted? == w.killed
    ensures LastReply(w.events) == LastReply(old(w.events))
    ensures placing.Refusing? ==> w.obstacle != NoObstacle
    ensures placing.Ready? ==>
      && placing.created && id !in w.tasks && id !in old(w.dirs) && id in w.dirs
        && w.dirs[id] == Dir(Holds(brief), Holds(brief))
      && After(w.events) == Placed(After(old(w.events)).generation, true)
    ensures placing.Refusing? ==> After(w.events).Over? || w.events == old(w.events)
    ensures After(w.events) != Wrong && Posts(w.events) == Posts(old(w.events)) && OnlyDir(w, id)
  {
    var ok := w.MakeDir(id);
    if !ok {
      return Refusing;
    }
    var killed := w.Kill();
    if killed {
      return Interrupted;
    }
    placing := FillOrRemove(w, id, brief);
  }

  /** Finds the brief on disk or puts it there; another brief under the same id, or
      one that cannot be told apart from it, stops the run. */
  method PlaceBrief(w: World, id: Id, brief: Brief) returns (placing: Placing)
    requires w.Valid() && After(w.events).Known? && !w.killed
    modifies w`dirs, w`events, w`obstacle, w`killed
    ensures w.Valid() && w.tasks == old(w.tasks) && placing.Interrupted? == w.killed
    ensures LastReply(w.events) == LastReply(old(w.events))
    ensures placing.Refusing? ==> w.obstacle != NoObstacle
    ensures placing.Ready? ==>
      && id in w.dirs && w.dirs[id].intent == Holds(brief) && (placing.created ==> id !in w.tasks)
      && After(w.events) == Placed(After(old(w.events)).generation, placing.created)
    ensures placing.Refusing? ==> After(w.events).Over? || w.events == old(w.events)
    ensures After(w.events) != Wrong && Posts(w.events) == Posts(old(w.events)) && OnlyDir(w, id)
  {
    var r := w.ReadIntent(id, brief);
    match r
    case Content(found) =>
      if found != brief {
        return Refusing;
      }
      w.Log(Found);
      return Ready(false);
    case NotThere =>
      var exists' := w.TaskFileExists(id);
      if exists' {
        return Refusing;
      }
      placing := WriteTaskFile(w, id, brief);
    case Unreadable => return Refusing;
    case Uninspectable => return Refusing;
  }

  /** Takes back the directory of a task that nothing came of. */
  method TakeBack(w: World, id: Id, created: bool)
    requires w.Valid() && After(w.events) == Nothing(created) && (created ==> id !in w.tasks)
    modifies w`dirs, w`events
    ensures w.Valid() && After(w.events) == if created then Over else Nothing(false)
    ensures OnlyDir(w, id) && Posts(w.events) == Posts(old(w.events)) && LastReply(w.events) == LastReply(old(w.events))
  {
    if created {
      w.RemoveAll(id);
    }
  }

  /** Reads the inventory again after a stale answer and posts once more, unless the
      inventory could not be read; the answer is that of the latest POST. */
  method PostAgain(w: World, id: Id, brief: Brief, created: bool) returns (reply: Reply)
    requires w.Valid() && After(w.events) == WasStale(created) && LastReply(w.events) == Some(Stale) && id in w.dirs
      && w.dirs[id].intent == Holds(brief)
    modifies w`tasks, w`events, w`made
    ensures w.Valid() && TookAtMost(old(w.tasks), w.tasks, id, brief)
    ensures After(w.events) == if reply.Stale? || reply.Refused? then Nothing(created) else Over
    ensures After(w.events).Nothing? ==> w.tasks == old(w.tasks)
    ensures reply.Accepted? ==> id in w.tasks
    ensures Posts(w.events) >= Posts(old(w.events)) && LastReply(w.events) == Some(reply)
  {
    var again := w.ReadInventory();
    if again.None? {
      return Stale;
    }
    reply := w.PostTask(id, again.value);
  }

  /** Posts a placed brief, and once more after a stale answer. */
  method PostTwice(w: World, id: Id, brief: Brief, generation: Generation, created: bool)
    returns (reply: Reply, killed: bool)
    requires w.Valid() && After(w.events) == Placed(generation, created) && !w.killed
    requires id in w.dirs && w.dirs[id].intent == Holds(brief)
    modifies w`tasks, w`events, w`made, w`killed
    ensures killed == w.killed
    ensures w.Valid() && TookAtMost(old(w.tasks), w.tasks, id, brief)
    ensures Posts(w.events) > Posts(old(w.events)) && LastReply(w.events) == Some(reply) && After(w.events) != Wrong
    ensures reply.Stale? || reply.Refused? ==>
      w.tasks == old(w.tasks) && (!w.killed ==> After(w.events) == Nothing(created))
    ensures reply.Accepted? || reply.Lost? ==> After(w.events).Over?
    ensures reply.Accepted? ==> id in w.tasks
  {
    reply := w.PostTask(id, generation);
    killed := w.Kill();
    if reply.Stale? && !killed {
      reply := PostAgain(w, id, brief, created);
      killed := w.Kill();
    }
  }

  /** Posts a placed brief; when nothing came of it the directory is taken back. */
  method PostPlaced(w: World, id: Id, brief: Brief, generation: Generation, created: bool) returns (outcome: Outcome)
    requires w.Valid() && After(w.events) == Placed(generation, created) && !w.killed
    requires id in w.dirs && w.dirs[id].intent == Holds(brief) && (created ==> id !in w.tasks)
    modifies w`dirs, w`tasks, w`events, w`made, w`killed
    ensures outcome == Conclusion(w.killed, LastReply(w.events))
    ensures w.Valid() && After(w.events) != Wrong && OnlyDir(w, id) && Posts(w.events) > Posts(old(w.events))
    ensures TookAtMost(old(w.tasks), w.tasks, id, brief)
    ensures outcome.Dispatched? ==> id in w.tasks && After(w.events).Over?
    ensures outcome.Uncertain? ==> id in w.dirs && w.dirs[id].intent == Holds(brief) && After(w.events).Over?
    ensures outcome.NotDispatched? ==> w.tasks == old(w.tasks) && Concluded(After(w.events))
  {
    var reply, killed := PostTwice(w, id, brief, generation, created);
    if killed {
      outcome := Killed;
    } else if reply.Stale? || reply.Refused? {
      TakeBack(w, id, created);
      outcome := NotDispatched;
    } else {
      outcome := if reply.Lost? then Uncertain else Dispatched;
    }
  }

  /** Reads the inventory and places the brief. */
  method Prepare(w: World, id: Id, brief: Brief) returns (placing: Placing, generation: Generation)
    requires w.Valid()
    modifies w`dirs, w`events, w`obstacle, w`killed, w`begun
    ensures w.begun == old(w.begun) + 1
    ensures w.Valid() && After(w.events) != Wrong && Posts(w.events) == 0 && OnlyDir(w, id)
    ensures placing.Interrupted? == w.killed && LastReply(w.events).None?
    ensures placing.Refusing? ==> w.obstacle != NoObstacle
    ensures placing.Ready? ==>
      && id in w.dirs && w.dirs[id].intent == Holds(brief) && (placing.created ==> id !in w.tasks)
      && After(w.events) == Placed(generation, placing.created)
    ensures placing.Refusing? ==> Concluded(After(w.events))
    ensures placing.Ready? && id in w.tasks ==> w.tasks[id] == brief
  {
    placing, generation := Refusing, 0;
    var inventory := w.FirstInventory();
    if inventory.Some? {
      generation := inventory.value;
      placing := PlaceBrief(w, id, brief);
    }
  }

  /** One run, which may be killed at any step. */
  method DispatchTask(w: World, id: Id, brief: Brief) returns (outcome: Outcome)
    requires w.Valid()
    modifies w
    ensures w.Valid() && After(w.events) != Wrong && OnlyDir(w, id)
    ensures TookAtMost(old(w.tasks), w.tasks, id, brief)
    ensures id in old(w.tasks) && old(w.tasks)[id] != brief ==>
      Posts(w.events) == 0 && (outcome.NotDispatched? || outcome.Killed?)
    ensures outcome.Dispatched? ==> id in w.tasks && w.tasks[id] == brief && After(w.events).Over?
    ensures outcome.Uncertain? ==> id in w.dirs && w.dirs[id].intent == Holds(brief) && After(w.events).Over?
    ensures outcome.NotDispatched? ==> w.tasks == old(w.tasks) && Concluded(After(w.events))
    ensures (outcome.Killed? <==> w.killed) && w.begun == old(w.begun) + 1
    ensures !w.killed && LastReply(w.events) == Some(Accepted) ==> outcome.Dispatched?
    ensures !w.killed && LastReply(w.events) == Some(Lost) ==> outcome.Uncertain?
    ensures !w.killed && LastReply(w.events) in {None, Some(Refused), Some(Stale)} ==> outcome.NotDispatched?
    ensures Posts(w.events) == 0 ==> w.killed || w.obstacle != NoObstacle
  {
    var placing, generation := Prepare(w, id, brief);
    match placing
    case Refusing => return NotDispatched;
    case Interrupted => return Killed;
    case Ready(created) =>
      outcome := PostPlaced(w, id, brief, generation, created);
      assert id in w.tasks ==> w.dirs[id].intent == Holds(w.tasks[id]);
  }

  /** Any number of runs, of any ids and briefs, one after the other: a task once
      taken keeps its brief, and each id is made a task at most once. */
  method AnyRuns(w: World, runs: seq<(Id, Brief)>)
    requires w.Valid()
    modifies w
    ensures w.Valid() && w.begun == old(w.begun) + |runs|
    ensures forall id :: id in old(w.tasks) ==> id in w.tasks && w.tasks[id] == old(w.tasks)[id]
    ensures forall id :: id in w.tasks && id !in old(w.tasks) ==> (id, w.tasks[id]) in runs
  {
    for n := 0 to |runs|
      invariant w.Valid() && w.begun == old(w.begun) + n
      invariant forall id :: id in old(w.tasks) ==> id in w.tasks && w.tasks[id] == old(w.tasks)[id]
      invariant forall id :: id in w.tasks && id !in old(w.tasks) ==> (id, w.tasks[id]) in runs[..n]
    {
      var outcome := DispatchTask(w, runs[n].0, runs[n].1);
    }
    assert runs[..|runs|] == runs;
  }
}
