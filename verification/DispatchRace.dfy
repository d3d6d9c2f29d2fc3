/** Dispatches of one task id that overlap: any number of runs, each a process of its
    own, and the daemon that answers them, one step of one of them at a time. */
module DispatchRace {
  import opened Collections
  import opened Dispatch

  /** How far the daemon has come with a run's latest POST: it has arrived, its brief
      has been read from the directory, or it has been answered. */
  datatype Request = NoRequest | Arrived | Drafted(draft: Brief) | Answered(reply: Reply)

  datatype Stage =
    | Idle | Filling | Filled
    | Posting(again: bool) | Waiting(again: bool) | Stalled
    | Removing | Successful | Gone

  datatype Run = Run(brief: Brief, maker: bool, stage: Stage, request: Request)

  /** The directory of the id, with the run that made it, and what the daemon has taken. */
  datatype State = State(maker: Option<nat>, task: File, intent: File, taken: Option<Brief>, runs: seq<Run>)

  datatype Move =
    | Begin(brief: Brief) | Leave
    | Find | MakeDir | WriteTask | WriteIntent | FailToWrite(left: File)
    | Send | Read | Refuse(stale: bool) | Create
    | Receive | ReadAgain(ok: bool)
    | DropTask | DropIntent | DropDir

  function Start(): State { State(None, Missing, Missing, None, []) }

  function Put(s: State, k: nat, r: Run): State
    requires k < |s.runs|
  {
    s.(runs := s.runs[k := r])
  }

  /** A run that nothing came of takes back a directory of its own. */
  function GivenUp(r: Run): Run { r.(stage := if r.maker then Removing else Gone) }

  /** What a write that failed has left. */
  function Left(left: File, brief: Brief): File { if left.Holds? then Holds(brief) else left }

  /** Finding the brief on disk, or putting it there. */
  function Place(s: State, k: nat, m: Move): State
    requires k < |s.runs|
  {
    var r := s.runs[k];
    match m
    case Find => if r.stage.Idle? && s.intent == Holds(r.brief) then Put(s, k, r.(stage := Posting(false))) else s
    case MakeDir =>
      if r.stage.Idle? && s.maker.None? then Put(s, k, r.(stage := Filling, maker := true)).(maker := Some(k)) else s
    case WriteTask => if r.stage.Filling? then Put(s, k, r.(stage := Filled)).(task := Holds(r.brief)) else s
    case WriteIntent => if r.stage.Filled? then Put(s, k, r.(stage := Posting(false))).(intent := Holds(r.brief)) else s
    case FailToWrite(left) =>
      if r.stage.Filling? then Put(s, k, r.(stage := Removing)).(task := Left(left, r.brief))
      else if r.stage.Filled? then Put(s, k, r.(stage := Removing)).(intent := Left(left, r.brief))
      else s
    case _ => s
  }

  /** The daemon: an id that is known is answered for again; the brief of one that is
      not is read first and stored later, when the id may have become known. It may
      refuse at either point, and as stale once it has the brief. */
  function Serve(s: State, k: nat, m: Move): State
    requires k < |s.runs|
  {
    var r := s.runs[k];
    match m
    case Read =>
      if !r.request.Arrived? then s
      else if s.taken.Some? then Put(s, k, r.(request := Answered(Accepted)))
      else if s.task.Holds? then Put(s, k, r.(request := Drafted(s.task.brief)))
      else Put(s, k, r.(request := Answered(Refused)))
    case Refuse(stale) =>
      if r.request.Drafted? then Put(s, k, r.(request := Answered(if stale then Stale else Refused)))
      else if r.request.Arrived? then Put(s, k, r.(request := Answered(Refused)))
      else s
    case Create =>
      if !r.request.Drafted? then s
      else if s.taken.Some? then Put(s, k, r.(request := Answered(Refused)))
      else Put(s, k, r.(request := Answered(Accepted))).(taken := Some(r.request.draft))
    case _ => s
  }

  /** Posting, and what follows an answer. */
  function Ask(s: State, k: nat, m: Move): State
    requires k < |s.runs|
  {
    var r := s.runs[k];
    match m
    case Send => if r.stage.Posting? then Put(s, k, r.(stage := Waiting(r.stage.again), request := Arrived)) else s
    case Receive =>
      if !r.stage.Waiting? || !r.request.Answered? then s
      else if r.request.reply.Accepted? then Put(s, k, r.(stage := Successful))
      else if r.request.reply.Stale? && !r.stage.again then Put(s, k, r.(stage := Stalled))
      else Put(s, k, GivenUp(r))
    case ReadAgain(ok) =>
      if !r.stage.Stalled? then s else Put(s, k, if ok then r.(stage := Posting(true)) else GivenUp(r))
    case _ => s
  }

  /** Taking the directory back, file by file; it may also stop half-way. */
  function Remove(s: State, k: nat, m: Move): State
    requires k < |s.runs|
  {
    var r := s.runs[k];
    if !r.stage.Removing? then s else
    match m
    case DropTask => s.(task := Missing)
    case DropIntent => s.(intent := Missing)
    case DropDir => if s.task.Missing? && s.intent.Missing? then Put(s, k, r.(stage := Gone)).(maker := None) else s
    case _ => s
  }

  /** One step of run k, or of the daemon for it. A run may be killed, or its answer
      lost, at any time; its POST stays with the daemon. A step that cannot be taken
      changes nothing. */
  function Step(s: State, k: nat, m: Move): State {
    if m.Begin? then s.(runs := s.runs + [Run(m.brief, false, Idle, NoRequest)])
    else if k >= |s.runs| then s
    else if m.Leave? then Put(s, k, s.runs[k].(stage := Gone))
    else if m.Find? || m.MakeDir? || m.WriteTask? || m.WriteIntent? || m.FailToWrite? then Place(s, k, m)
    else if m.Read? || m.Refuse? || m.Create? then Serve(s, k, m)
    else if m.Send? || m.Receive? || m.ReadAgain? then Ask(s, k, m)
    else Remove(s, k, m)
  }

  /** The run's POST may yet make the id known, or the run may yet send one. */
  predicate MayTake(r: Run) {
    || r.request.Arrived? || r.request.Drafted?
    || r.stage.Posting? || r.stage.Stalled? || (r.stage == Waiting(false) && r.request == Answered(Stale))
  }

  /** Nothing has been taken, and no run is about to have something taken. */
  predicate Quiet(s: State) { s.taken.None? && forall j :: 0 <= j < |s.runs| ==> !MayTake(s.runs[j]) }

  predicate Drops(s: State, k: nat, m: Move) { k < |s.runs| && m.DropIntent? && s.runs[k].stage.Removing? }

  /** From s to t, with intents dropped only while all is quiet. */
  least predicate Reaches(s: State, t: State) {
    s == t || exists k: nat, m :: (Drops(s, k, m) ==> Quiet(s)) && Reaches(Step(s, k, m), t)
  }

  /** The run has been, or is being, told that its brief was taken. */
  predicate Told(r: Run) { r.stage.Successful? || r.request == Answered(Accepted) }

  /** What was taken has its own brief as intent on disk, and whoever is told of
      success wrote or found that brief. */
  ghost predicate Sound(s: State) {
    && (s.taken.Some? ==> s.intent == Holds(s.taken.value))
    && forall j :: 0 <= j < |s.runs| && Told(s.runs[j]) ==> s.taken == Some(s.runs[j].brief)
  }

  // ---------------------------------------------------------------- quiet removals are safe

  predicate Fits(s: State, j: nat, r: Run) {
    && (r.maker && !r.stage.Idle? && !r.stage.Successful? && !r.stage.Gone? ==> s.maker == Some(j))
    && (r.stage.Filling? || r.stage.Filled? || r.stage.Removing? ==> r.maker)
    && (r.stage.Idle? ==> !r.maker)
    && (r.stage.Idle? || r.stage.Filling? || r.stage.Filled? ==> r.request.NoRequest?)
    && (r.stage.Filling? ==> s.task.Missing? && s.intent.Missing?)
    && (r.stage.Filled? ==> s.task == Holds(r.brief) && s.intent.Missing?)
    && (MayTake(r) ==> s.intent == Holds(r.brief))
    && (r.request.Drafted? ==> r.request.draft == r.brief)
    && (Told(r) ==> s.taken == Some(r.brief))
  }

  /** What every step keeps, if no intent is dropped but in quiet. */
  ghost predicate Kept(s: State) {
    && (s.maker.None? ==> s.task.Missing? && s.intent.Missing?)
    && (s.intent.Holds? ==> s.task.Missing? || s.task == s.intent)
    && (s.taken.Some? ==> s.intent == Holds(s.taken.value))
    && forall j :: 0 <= j < |s.runs| ==> Fits(s, j, s.runs[j])
  }

  lemma PlaceKeeps(s: State, k: nat, m: Move)
    requires Kept(s) && k < |s.runs|
    ensures Kept(Place(s, k, m))
  {
    var t := Place(s, k, m);
    assert Fits(s, k, s.runs[k]);
    forall j | 0 <= j < |t.runs| ensures Fits(t, j, t.runs[j]) {
      assert Fits(s, j, s.runs[j]);
    }
  }

  lemma ServeKeeps(s: State, k: nat, m: Move)
    requires Kept(s) && k < |s.runs|
    ensures Kept(Serve(s, k, m))
  {
  }

  lemma AskKeeps(s: State, k: nat, m: Move)
    requires Kept(s) && k < |s.runs|
    ensures Kept(Ask(s, k, m))
  {
  }

  lemma RemoveKeeps(s: State, k: nat, m: Move)
    requires Kept(s) && k < |s.runs| && (Drops(s, k, m) ==> Quiet(s))
    ensures Kept(Remove(s, k, m))
  {
    var t := Remove(s, k, m);
    assert Fits(s, k, s.runs[k]);
    forall j | 0 <= j < |t.runs| ensures Fits(t, j, t.runs[j]) {
      assert Fits(s, j, s.runs[j]);
    }
  }

  lemma StepKeeps(s: State, k: nat, m: Move)
    requires Kept(s) && (Drops(s, k, m) ==> Quiet(s))
    ensures Kept(Step(s, k, m))
  {
    if !m.Begin? && k < |s.runs| {
      PlaceKeeps(s, k, m);
      ServeKeeps(s, k, m);
      AskKeeps(s, k, m);
      RemoveKeeps(s, k, m);
    }
  }

  least lemma ReachesKeeps(s: State, t: State)
    requires Reaches(s, t) && Kept(s)
    ensures Kept(t)
  {
    if s != t {
      var k: nat, m :| (Drops(s, k, m) ==> Quiet(s)) && Reaches#[_k - 1](Step(s, k, m), t);
      StepKeeps(s, k, m);
      ReachesKeeps#[_k - 1](Step(s, k, m), t);
    }
  }

  /** However runs of one id are interleaved: while no run drops an intent but in
      quiet, what was taken keeps its brief on disk and success means one's own brief. */
  lemma {:induction false} QuietIsSound(t: State)
    requires Reaches(Start(), t)
    ensures Sound(t)
  {
    ReachesKeeps(Start(), t);
    forall j | 0 <= j < |t.runs| && Told(t.runs[j]) ensures t.taken == Some(t.runs[j].brief) {
      assert Fits(t, j, t.runs[j]);
    }
  }

  // ---------------------------------------------------------------- who can disturb a removal

  /** What a run's stage says of its latest POST. */
  predicate Shaped(r: Run) {
    match r.stage
    case Posting(again) => r.request == if again then Answered(Stale) else NoRequest
    case Stalled => r.request == Answered(Stale)
    case Removing => r.request.NoRequest? || r.request == Answered(Stale) || r.request == Answered(Refused)
    case Waiting(_) => !r.request.NoRequest?
    case Successful => true
    case Gone => true
    case _ => r.request.NoRequest?
  }

  ghost predicate AllShaped(s: State) {
    && (forall j :: 0 <= j < |s.runs| ==> Shaped(s.runs[j]) && s.runs[j].request != Answered(Lost))
    && (s.taken.Some? ==> exists j :: 0 <= j < |s.runs| && s.runs[j].request == Answered(Accepted))
  }

  /** One run's step: its stage and request still go together, and an acceptance stays. */
  predicate WellStepped(s: State, t: State, k: nat)
    requires k < |s.runs|
  {
    && |t.runs| == |s.runs| && t.runs == s.runs[k := t.runs[k]]
    && Shaped(t.runs[k]) && t.runs[k].request != Answered(Lost)
    && (s.runs[k].request == Answered(Accepted) ==> t.runs[k].request == Answered(Accepted))
    && (t.taken == s.taken || (s.taken.None? && t.runs[k].request == Answered(Accepted)))
  }

  lemma RunSteps(s: State, k: nat, m: Move)
    requires k < |s.runs| && !m.Begin? && Shaped(s.runs[k]) && s.runs[k].request != Answered(Lost)
    ensures WellStepped(s, Step(s, k, m), k)
  {
  }

  lemma StepShapes(s: State, k: nat, m: Move)
    requires AllShaped(s)
    ensures AllShaped(Step(s, k, m))
  {
    var t := Step(s, k, m);
    if !m.Begin? && k < |s.runs| {
      RunSteps(s, k, m);
    }
    if s.taken.Some? {
      var j :| 0 <= j < |s.runs| && s.runs[j].request == Answered(Accepted);
      assert t.runs[j].request == Answered(Accepted);
    } else if t.taken.Some? {
      assert t.runs[k].request == Answered(Accepted);
    }
  }

  least lemma ReachesShapes(s: State, t: State)
    requires Reaches(s, t) && AllShaped(s)
    ensures AllShaped(t)
  {
    if s != t {
      var k: nat, m :| (Drops(s, k, m) ==> Quiet(s)) && Reaches#[_k - 1](Step(s, k, m), t);
      StepShapes(s, k, m);
      ReachesShapes#[_k - 1](Step(s, k, m), t);
    }
  }

  /** A removal is quiet exactly when no other run has had, or may yet have, something
      taken; so a run that is the only one of its id always removes in quiet. */
  lemma {:induction false} OnlyOthersDisturb(s: State, k: nat)
    requires Reaches(Start(), s) && k < |s.runs| && s.runs[k].stage.Removing?
    ensures Quiet(s) <==>
      forall j :: 0 <= j < |s.runs| && j != k ==> !MayTake(s.runs[j]) && s.runs[j].request != Answered(Accepted)
  {
    ReachesKeeps(Start(), s);
    ReachesShapes(Start(), s);
    assert Shaped(s.runs[k]);
    forall j | 0 <= j < |s.runs| && s.runs[j].request == Answered(Accepted) ensures s.taken.Some? {
      assert Fits(s, j, s.runs[j]);
    }
  }

  // ---------------------------------------------------------------- any other removal is not

  lemma Go(s: State, k: nat, m: Move, t: State)
    requires (Drops(s, k, m) ==> Quiet(s)) && Reaches(Step(s, k, m), t)
    ensures Reaches(s, t)
  {
  }

  /** A run that may have something taken, does, once a brief can be read. */
  lemma {:induction false} Takes(s: State, j: nat) returns (t: State)
    requires j < |s.runs| && MayTake(s.runs[j]) && s.taken.None? && (s.runs[j].request.Drafted? || s.task.Holds?)
    ensures Reaches(s, t) && t.taken.Some? && t.intent == s.intent
    decreases var r := s.runs[j];
      if r.request.Drafted? then 0 else if r.request.Arrived? then 1 else if r.stage.Posting? then 2
        else if r.stage.Stalled? then 3 else 4
  {
    var r := s.runs[j];
    var m := if r.request.Drafted? then Create else if r.request.Arrived? then Read
      else if r.stage.Posting? then Send else if r.stage.Stalled? then ReadAgain(true) else Receive;
    var next := Step(s, j, m);
    if m.Create? {
      t := next;
    } else {
      t := Takes(next, j);
    }
    Go(s, j, m, t);
  }

  /** A new run with this brief makes the directory and writes the first of its files. */
  lemma {:induction false} Refills(s: State, brief: Brief) returns (t: State)
    requires s.maker.None?
    ensures t == State(Some(|s.runs|), Holds(brief), s.intent, s.taken, s.runs + [Run(brief, true, Filled, NoRequest)])
    ensures forall u :: Reaches(t, u) ==> Reaches(s, u)
  {
    var n := |s.runs|;
    var begun := Step(s, n, Begin(brief));
    var made := Step(begun, n, MakeDir);
    t := Step(made, n, WriteTask);
    assert t.runs == s.runs + [Run(brief, true, Filled, NoRequest)];
    forall u | Reaches(t, u) ensures Reaches(s, u) {
      Go(made, n, WriteTask, u);
      Go(begun, n, MakeDir, u);
      Go(s, n, Begin(brief), u);
    }
  }

  /** An intent dropped while a run may have something taken: what that run's POST
      makes known has no intent. */
  lemma {:induction false} LoudIsUnsound(s: State, k: nat, j: nat) returns (t: State)
    requires Kept(s) && Drops(s, k, DropIntent) && s.taken.None? && j < |s.runs| && MayTake(s.runs[j])
    ensures Reaches(Step(s, k, DropIntent), t) && !Sound(t)
  {
    var dropped := Step(s, k, DropIntent);
    assert Fits(s, j, s.runs[j]);
    if s.runs[j].request.Drafted? || s.task.Holds? {
      t := Takes(dropped, j);
    } else {
      var removed := Step(dropped, k, DropDir);
      var filled := Refills(removed, s.runs[j].brief);
      t := Takes(filled, j);
      Go(dropped, k, DropDir, t);
    }
  }

  /** After any interleaving: a run may drop the intent, and every continuation that is
      careful from then on is sound, exactly when all is quiet. */
  lemma {:induction false} SafeExactlyWhenQuiet(s: State, k: nat)
    requires Reaches(Start(), s) && Drops(s, k, DropIntent)
    ensures Quiet(s) <==> forall t :: Reaches(Step(s, k, DropIntent), t) ==> Sound(t)
  {
    ReachesKeeps(Start(), s);
    var dropped := Step(s, k, DropIntent);
    if Quiet(s) {
      StepKeeps(s, k, DropIntent);
      forall t | Reaches(dropped, t) ensures Sound(t) {
        ReachesKeeps(dropped, t);
        forall j | 0 <= j < |t.runs| && Told(t.runs[j]) ensures t.taken == Some(t.runs[j].brief) {
          assert Fits(t, j, t.runs[j]);
        }
      }
    } else if s.taken.Some? {
      assert Reaches(dropped, dropped) && !Sound(dropped);
    } else {
      var j :| 0 <= j < |s.runs| && MayTake(s.runs[j]);
      var t := LoudIsUnsound(s, k, j);
    }
  }

  /** One more step of a careful interleaving. */
  lemma {:induction false} Further(s: State, t: State, k: nat, m: Move)
    requires Reaches(s, t) && (Drops(t, k, m) ==> Quiet(t))
    ensures Reaches(s, Step(t, k, m))
  {
    FurtherFrom(s, t, k, m);
  }

  least lemma FurtherFrom(s: State, t: State, k: nat, m: Move)
    requires Reaches(s, t) && (Drops(t, k, m) ==> Quiet(t))
    ensures Reaches(s, Step(t, k, m))
  {
    if s == t {
      Go(t, k, m, Step(t, k, m));
    } else {
      var k': nat, m' :| (Drops(s, k', m') ==> Quiet(s)) && Reaches#[_k - 1](Step(s, k', m'), t);
      FurtherFrom#[_k - 1](Step(s, k', m'), t, k, m);
      Go(s, k', m', Step(t, k, m));
    }
  }

  /** A first run has made the directory and a second one has found it. */
  lemma {:induction false} BothPlaced(brief: Brief) returns (s: State)
    ensures Reaches(Start(), s)
    ensures s == State(Some(0), Holds(brief), Holds(brief), None,
      [Run(brief, true, Posting(false), NoRequest), Run(brief, false, Posting(false), NoRequest)])
  {
    s := Refills(Start(), brief);
    assert s.runs == [Run(brief, true, Filled, NoRequest)];
    assert Reaches(s, s);
    Further(Start(), s, 0, WriteIntent);
    s := Step(s, 0, WriteIntent);
    Further(Start(), s, 1, Begin(brief));
    s := Step(s, 1, Begin(brief));
    Further(Start(), s, 1, Find);
    s := Step(s, 1, Find);
  }

  /** The daemon has read the brief for one run's POST. */
  lemma {:induction false} Drafts(s: State, k: nat) returns (t: State)
    requires Reaches(Start(), s) && k < |s.runs| && s.runs[k].stage.Posting? && s.taken.None? && s.task.Holds?
    ensures Reaches(Start(), t)
    ensures t == Put(s, k, s.runs[k].(stage := Waiting(s.runs[k].stage.again), request := Drafted(s.task.brief)))
  {
    Further(Start(), s, k, Send);
    t := Step(s, k, Send);
    Further(Start(), t, k, Read);
    t := Step(t, k, Read);
  }

  /** The daemon stores a run's POST, or refuses it if the id has become known, and the
      run receives its answer. */
  lemma {:induction false} Answers(s: State, k: nat) returns (t: State)
    requires Reaches(Start(), s) && k < |s.runs| && s.runs[k].stage.Waiting? && s.runs[k].request.Drafted?
    ensures Reaches(Start(), t)
    ensures var r := s.runs[k];
      t == if s.taken.None? then
             Put(s, k, r.(stage := Successful, request := Answered(Accepted))).(taken := Some(r.request.draft))
           else Put(s, k, GivenUp(r.(request := Answered(Refused))))
  {
    Further(Start(), s, k, Create);
    t := Step(s, k, Create);
    Further(Start(), t, k, Receive);
    t := Step(t, k, Receive);
  }

  /** Two runs with the same brief: the second's POST is stored first and answered with
      success, the first's is refused because the id has become known, and the first run
      takes back the directory of the task that was taken. */
  lemma {:induction false} TwoAtOnce(brief: Brief) returns (s: State, t: State)
    ensures Reaches(Start(), s) && Drops(s, 0, DropIntent) && |s.runs| == 2 && s.runs[1].stage.Successful?
      && s.intent == Holds(brief)
    ensures t == Step(s, 0, DropIntent) && t.taken == Some(brief) && t.intent.Missing? && !Sound(t)
  {
    s := BothPlaced(brief);
    s := Drafts(s, 0);
    s := Drafts(s, 1);
    s := Answers(s, 1);
    s := Answers(s, 0);
    t := Step(s, 0, DropIntent);
  }
}
