/** The report on a blinded experiment graded by people: what it checks before it
    counts anything, and what its counts add up to. */
module WorkflowReport {
  import opened Collections

  datatype Arm = Baseline | Candidate

  datatype Case = Case(id: string, request: string, artifacts: string, criteria: set<string>)
  datatype Trial = Trial(id: string, case': string, arm: Arm, repeat: int)
  datatype Grade = Grade(passed: Option<bool>, evidence: string, reason: string)
  datatype Row = Row(id: string, case': string, reviewer: string, model: string, responseSha: string,
    criteria: map<string, Grade>)
  datatype Manifest = Manifest(model: string, repeats: int, trials: seq<Trial>, files: map<string, string>)

  /** An experiment's directory: the manifest with the digest recorded for it, the
      grading rows, and the text of every other file. */
  datatype Experiment = Experiment(manifest: Manifest, sealed: string, rows: seq<Row>, disk: map<string, string>)

  /** What is taken from outside: digests, the reading of a case suite, and which
      texts Python strips to nothing. */
  datatype Tools = Tools(
    sha: string -> string, seal: Manifest -> string, decode: string -> Option<seq<Case>>, blank: string -> bool)

  const AGENTS := "sources/AGENTS.md"
  const CASES := "sources/cases.json"
  const PREFIX := "sources/workflow-prefix.md"
  const DEBUGGING := "sources/evidence-debugging/SKILL.md"
  const REVIEW := "sources/evidence-review/SKILL.md"
  const RUBRIC := "rubric.json"

  function PromptPath(id: string): string { "prompts/" + id + ".md" }

  function ResponsePath(id: string): string { "responses/" + id + ".txt" }

  // ---------------------------------------------------------------- what is checked

  /** A part of the path is `..`. */
  predicate Climbs(path: string) { exists i :: 0 <= i < |path| && ClimbsAt(path, i) }

  predicate ClimbsAt(path: string, i: nat)
    requires i < |path|
  {
    && i + 1 < |path| && path[i] == '.' && path[i + 1] == '.'
    && (i == 0 || path[i - 1] == '/') && (i + 2 == |path| || path[i + 2] == '/')
  }

  predicate Contained(path: string) { path != "" && '\\' !in path && path[0] != '/' && !Climbs(path) }

  predicate IsTrialId(id: string) {
    |id| > 6 && id[..6] == "trial-" && forall i :: 6 <= i < |id| ==> '0' <= id[i] <= '9'
  }

  /** A path climbs if one of the pieces between its slashes is `..`. */
  lemma ClimbsMeans(path: string)
    ensures Climbs(path) <==> exists before, after :: IsStep(path, before, after)
  {
    if Climbs(path) {
      var i :| 0 <= i < |path| && ClimbsAt(path, i);
      assert path[i..i + 2] == ".." && path == path[..i] + path[i..i + 2] + path[i + 2..];
      assert IsStep(path, path[..i], path[i + 2..]);
    }
    if before, after :| IsStep(path, before, after) {
      StepClimbs(path, before, after);
    }
  }

  lemma StepClimbs(path: string, before: string, after: string)
    requires IsStep(path, before, after)
    ensures Climbs(path)
  {
    var i := |before|;
    assert path[i] == '.' && path[i + 1] == '.';
    assert before != "" ==> path[i - 1] == before[i - 1];
    assert after != "" ==> path[i + 2] == after[0];
    assert ClimbsAt(path, i);
  }

  ghost predicate IsStep(path: string, before: string, after: string) {
    && path == before + ".." + after
    && (before == "" || before[|before| - 1] == '/') && (after == "" || after[0] == '/')
  }

  /** A name is the word and a hyphen with digits behind it. */
  lemma TrialIdMeans(id: string)
    ensures IsTrialId(id) <==>
      exists digits :: digits != "" && id == "trial-" + digits && forall c :: c in digits ==> '0' <= c <= '9'
  {
    if IsTrialId(id) {
      var digits := id[6..];
      assert id == "trial-" + digits;
      forall c | c in digits ensures '0' <= c <= '9' {
        var i :| 0 <= i < |digits| && digits[i] == c;
        assert id[6 + i] == c;
      }
    }
    if digits :| digits != "" && id == "trial-" + digits && forall c :: c in digits ==> '0' <= c <= '9' {
      forall i | 6 <= i < |id| ensures '0' <= id[i] <= '9' {
        assert id[i] == digits[i - 6] && digits[i - 6] in digits;
      }
    }
  }

  predicate FileIsFrozen(t: Tools, disk: map<string, string>, path: string, digest: string) {
    Contained(path) && path in disk && t.sha(disk[path]) == digest
  }

  ghost predicate InputsAreFrozen(t: Tools, e: Experiment) {
    && t.seal(e.manifest) == e.sealed
    && AGENTS in e.manifest.files && CASES in e.manifest.files && PREFIX in e.manifest.files
    && DEBUGGING in e.manifest.files && REVIEW in e.manifest.files && RUBRIC in e.manifest.files
    && forall path :: path in e.manifest.files ==> FileIsFrozen(t, e.disk, path, e.manifest.files[path])
  }

  /** The criteria of each case; of two cases with one id the later counts. */
  function CriteriaOf(cases: seq<Case>): map<string, set<string>> {
    if cases == [] then map[] else
    var last := cases[|cases| - 1];
    CriteriaOf(cases[..|cases| - 1])[last.id := last.criteria]
  }

  type Assignment = (string, Arm, int)

  function Assigned(trial: Trial): Assignment { (trial.case', trial.arm, trial.repeat) }

  function Assignments(trials: seq<Trial>): seq<Assignment> {
    seq(|trials|, i requires 0 <= i < |trials| => Assigned(trials[i]))
  }

  const ARMS: set<Arm> := {Baseline, Candidate}

  function Expected(cases: set<string>, repeats: int): set<Assignment> {
    set c, arm, r | c in cases && arm in ARMS && 1 <= r <= repeats :: (c, arm, r)
  }

  predicate NoDuplicates<T(==)>(s: seq<T>) { |Members(s)| == |s| }

  predicate AsExpected(assignments: seq<Assignment>, expected: set<Assignment>) {
    |assignments| == |expected| && Members(assignments) == expected
  }

  function TrialIds(trials: seq<Trial>): seq<string> { seq(|trials|, i requires 0 <= i < |trials| => trials[i].id) }

  function RowIds(rows: seq<Row>): seq<string> { seq(|rows|, i requires 0 <= i < |rows| => rows[i].id) }

  predicate TrialIsNamed(files: map<string, string>, trial: Trial) {
    IsTrialId(trial.id) && PromptPath(trial.id) in files
  }

  /** Every trial is named, has its frozen prompt, and stands for one assignment; every
      assignment has a trial, and every trial one grading row. */
  ghost predicate TrialsAreComplete(e: Experiment, criteria: map<string, set<string>>) {
    var trials := e.manifest.trials;
    && e.manifest.repeats > 0
    && (forall i :: 0 <= i < |trials| ==>
          IsTrialId(trials[i].id) && "prompts/" + trials[i].id + ".md" in e.manifest.files)
    && NoDuplicates(TrialIds(trials)) && AsExpected(Assignments(trials), Expected(criteria.Keys, e.manifest.repeats))
    && NoDuplicates(RowIds(e.rows)) && Members(RowIds(e.rows)) == Members(TrialIds(trials))
  }

  // ---------------------------------------------------------------- one trial

  datatype Judged = Rejected | NoResponse | NoGrade | Reviewed(passed: bool)

  predicate IsAt(text: string, i: int, part: string) { 0 <= i <= |text| - |part| && text[i..i + |part|] == part }

  predicate Contains(text: string, part: string) { exists i :: 0 <= i <= |text| && IsAt(text, i, part) }

  lemma ContainsMeans(text: string, part: string)
    ensures Contains(text, part) <==> exists before, after :: text == before + part + after
  {
    if Contains(text, part) {
      var i :| 0 <= i <= |text| && IsAt(text, i, part);
      assert text == text[..i] + part + text[i + |part|..];
    }
    if before, after :| text == before + part + after {
      assert IsAt(text, |before|, part);
    }
  }

  predicate Complete(t: Tools, row: Row) {
    && !t.blank(row.reviewer) && !t.blank(row.model) && !t.blank(row.responseSha)
    && forall k :: k in row.criteria ==>
      row.criteria[k].passed.Some? && !t.blank(row.criteria[k].evidence) && !t.blank(row.criteria[k].reason)
  }

  predicate Honest(t: Tools, model: string, response: string, row: Row) {
    && row.model == model && row.responseSha == t.sha(response)
    && forall k :: k in row.criteria ==> Contains(response, row.criteria[k].evidence)
  }

  predicate AllPassed(row: Row) { forall k :: k in row.criteria ==> row.criteria[k].passed == Some(true) }

  function Judge(t: Tools, e: Experiment, trial: Trial, row: Row, criteria: set<string>): Judged {
    var path := ResponsePath(trial.id);
    if row.case' != trial.case' || row.criteria.Keys != criteria then Rejected
    else if path !in e.disk || t.blank(e.disk[path]) then NoResponse
    else if !Complete(t, row) then NoGrade
    else if !Honest(t, e.manifest.model, e.disk[path], row) then Rejected
    else Reviewed(AllPassed(row))
  }

  /** A criterion passed, for a reason and by evidence that the response holds. */
  ghost predicate PassedByEvidence(t: Tools, response: string, grade: Grade) {
    && grade.passed == Some(true) && !t.blank(grade.evidence) && !t.blank(grade.reason)
    && exists before, after :: response == before + grade.evidence + after
  }

  ghost predicate FilledIn(t: Tools, e: Experiment, row: Row, response: string) {
    && !t.blank(row.reviewer) && !t.blank(row.model) && row.model == e.manifest.model
    && !t.blank(row.responseSha) && row.responseSha == t.sha(response)
  }

  /** A trial passes exactly if its response is there, its row is filled in for this
      response and this model, and every criterion passed by evidence. */
  lemma PassedMeans(t: Tools, e: Experiment, trial: Trial, row: Row, criteria: set<string>)
    ensures Judge(t, e, trial, row, criteria) == Reviewed(true) <==>
      var path := "responses/" + trial.id + ".txt";
      && row.case' == trial.case' && row.criteria.Keys == criteria && path in e.disk && !t.blank(e.disk[path])
      && FilledIn(t, e, row, e.disk[path])
      && forall k :: k in row.criteria ==> PassedByEvidence(t, e.disk[path], row.criteria[k])
  {
    var path := ResponsePath(trial.id);
    if path in e.disk {
      FilledInMeans(t, e, row, e.disk[path]);
    }
  }

  lemma FilledInMeans(t: Tools, e: Experiment, row: Row, response: string)
    ensures Complete(t, row) && Honest(t, e.manifest.model, response, row) && AllPassed(row) <==>
      FilledIn(t, e, row, response) && forall k :: k in row.criteria ==> PassedByEvidence(t, response, row.criteria[k])
  {
    if Complete(t, row) && Honest(t, e.manifest.model, response, row) && AllPassed(row) {
      forall k | k in row.criteria ensures PassedByEvidence(t, response, row.criteria[k]) {
        ContainsMeans(response, row.criteria[k].evidence);
      }
    }
    if FilledIn(t, e, row, response)
      && forall k :: k in row.criteria ==> PassedByEvidence(t, response, row.criteria[k])
    {
      forall k | k in row.criteria ensures Contains(response, row.criteria[k].evidence) {
        assert PassedByEvidence(t, response, row.criteria[k]);
        ContainsMeans(response, row.criteria[k].evidence);
      }
    }
  }

  /** It fails exactly if some criterion, of a row that is otherwise as good, was failed. */
  lemma FailedMeans(t: Tools, e: Experiment, trial: Trial, row: Row, criteria: set<string>)
    ensures Judge(t, e, trial, row, criteria) == Reviewed(false) <==>
      Judge(t, e, trial, row, criteria).Reviewed? && exists k :: k in criteria && row.criteria[k].passed == Some(false)
  {
    if Judge(t, e, trial, row, criteria) == Reviewed(false) {
      var k :| k in row.criteria && row.criteria[k].passed != Some(true);
      assert Complete(t, row) && row.criteria[k].passed.Some? && !row.criteria[k].passed.value;
    }
  }

  function Indexed(rows: seq<Row>): map<string, Row> {
    if rows == [] then map[] else
    var last := rows[|rows| - 1];
    Indexed(rows[..|rows| - 1])[last.id := last]
  }

  lemma {:induction false} IndexedHasIds(rows: seq<Row>)
    ensures Indexed(rows).Keys == Members(RowIds(rows))
  {
    if rows != [] {
      var before := rows[..|rows| - 1];
      IndexedHasIds(before);
      assert RowIds(rows) == RowIds(before) + [rows[|rows| - 1].id];
    }
  }

  /** What is said of the i-th trial. */
  ghost function JudgeAt(t: Tools, e: Experiment, criteria: map<string, set<string>>, i: nat): Judged
    requires i < |e.manifest.trials|
  {
    var trial := e.manifest.trials[i];
    if trial.id in Indexed(e.rows) && trial.case' in criteria
    then Judge(t, e, trial, Indexed(e.rows)[trial.id], criteria[trial.case']) else Rejected
  }

  ghost function Judgements(t: Tools, e: Experiment, criteria: map<string, set<string>>): (js: seq<Judged>)
    ensures |js| == |e.manifest.trials|
  {
    seq(|e.manifest.trials|, i requires 0 <= i < |e.manifest.trials| => JudgeAt(t, e, criteria, i))
  }

  /** Everything the report insists on. */
  ghost predicate Passes(t: Tools, e: Experiment) {
    && InputsAreFrozen(t, e) && CASES in e.disk && t.decode(e.disk[CASES]).Some?
    && var criteria := CriteriaOf(t.decode(e.disk[CASES]).value);
      TrialsAreComplete(e, criteria) && forall i :: 0 <= i < |e.manifest.trials| ==>
        JudgeAt(t, e, criteria, i) != Rejected
  }

  // ---------------------------------------------------------------- counting

  datatype Tally = Tally(passed: nat, total: nat)
  {
    function Plus(j: Judged): Tally {
      if j.Reviewed? then Tally(passed + if j.passed then 1 else 0, total + 1) else this
    }
  }

  /** The trials a tally is about: an arm's, or an arm's of one case. */
  datatype Group = OfArm(arm: Arm) | OfCase(case': string, arm: Arm)
  {
    predicate Has(trial: Trial) { trial.arm == arm && (OfCase? ==> trial.case' == case') }
  }

  ghost function TallyOf(trials: seq<Trial>, js: seq<Judged>, g: Group): Tally
    requires |trials| == |js|
  {
    if trials == [] then Tally(0, 0) else
    var n := |trials| - 1;
    var before := TallyOf(trials[..n], js[..n], g);
    if g.Has(trials[n]) then before.Plus(js[n]) else before
  }

  /** A reviewed trial of an arm, or of an arm and a case, that passed or not as asked. */
  predicate IsAmong(trial: Trial, j: Judged, g: Group, passed: set<bool>) {
    j.Reviewed? && j.passed in passed && trial.arm == g.arm && (g.OfArm? || trial.case' == g.case')
  }

  ghost function Among(trials: seq<Trial>, js: seq<Judged>, g: Group, passed: set<bool>): set<nat>
    requires |trials| == |js|
  {
    set i: nat | i < |js| && IsAmong(trials[i], js[i], g, passed)
  }

  /** A tally counts the trials of its group that were reviewed, and those that passed. */
  lemma {:induction false} TallyCounts(trials: seq<Trial>, js: seq<Judged>, g: Group)
    requires |trials| == |js|
    ensures TallyOf(trials, js, g).total == |Among(trials, js, g, {true, false})|
    ensures TallyOf(trials, js, g).passed == |Among(trials, js, g, {true})|
  {
    if trials != [] {
      var n := |trials| - 1;
      TallyCounts(trials[..n], js[..n], g);
      AmongOneMore(trials, js, g, {true, false});
      AmongOneMore(trials, js, g, {true});
    }
  }

  lemma AmongIsBefore(trials: seq<Trial>, js: seq<Judged>, g: Group, passed: set<bool>, i: nat)
    requires |trials| == |js| && trials != [] && i < |trials| - 1
    ensures i in Among(trials, js, g, passed) <==> i in Among(trials[..|trials| - 1], js[..|trials| - 1], g, passed)
  {
    assert trials[..|trials| - 1][i] == trials[i] && js[..|trials| - 1][i] == js[i];
  }

  lemma AmongOneMore(trials: seq<Trial>, js: seq<Judged>, g: Group, passed: set<bool>)
    requires |trials| == |js| && trials != []
    ensures var n := |trials| - 1;
      |Among(trials, js, g, passed)| ==
        |Among(trials[..n], js[..n], g, passed)| + if IsAmong(trials[n], js[n], g, passed) then 1 else 0
  {
    var n := |trials| - 1;
    var all, before := Among(trials, js, g, passed), Among(trials[..n], js[..n], g, passed);
    assert n !in before && (n in all <==> IsAmong(trials[n], js[n], g, passed));
    assert forall i :: i in before ==> i < n;
    assert forall i :: i in all ==> i <= n;
    forall i: nat | i < n ensures i in all <==> i in before {
      AmongIsBefore(trials, js, g, passed, i);
    }
    OneMoreInSet(before, all, n);
  }

  lemma OneMoreInSet(before: set<nat>, all: set<nat>, n: nat)
    requires n !in before && forall i :: i in all || i in before ==> i <= n
    requires forall i: nat :: i < n ==> (i in all <==> i in before)
    ensures |all| == |before| + if n in all then 1 else 0
  {
    if n in all {
      assert all == before + {n};
    } else {
      assert all == before;
    }
  }

  /** How many trials belong to a group. */
  function Size(trials: seq<Trial>, g: Group): nat {
    if trials == [] then 0 else
    var n := |trials| - 1;
    Size(trials[..n], g) + if g.Has(trials[n]) then 1 else 0
  }

  ghost function ReviewedOf(js: seq<Judged>): nat {
    if js == [] then 0 else ReviewedOf(js[..|js| - 1]) + if js[|js| - 1].Reviewed? then 1 else 0
  }

  // ---------------------------------------------------------------- the report

  datatype Missing = MissingResponse(id: string) | MissingGrading(id: string)

  datatype Result = Invalid | Summary(expected: nat, counts: Counts)
  {
    /** Every trial was reviewed. */
    predicate Complete() { Summary? && counts.reviewed == expected }
  }

  method CheckInputs(t: Tools, e: Experiment) returns (ok: bool)
    ensures ok <==> InputsAreFrozen(t, e)
  {
    var files := e.manifest.files;
    if t.seal(e.manifest) != e.sealed
      || AGENTS !in files || CASES !in files || PREFIX !in files || DEBUGGING !in files || REVIEW !in files
        || RUBRIC !in files {
      return false;
    }
    var left := files.Keys;
    while left != {}
      invariant left <= files.Keys
      invariant forall path :: path in files && path !in left ==> FileIsFrozen(t, e.disk, path, files[path])
      decreases |left|
    {
      var path :| path in left;
      if !FileIsFrozen(t, e.disk, path, files[path]) {
        return false;
      }
      left := left - {path};
    }
    return true;
  }

  method CheckTrials(e: Experiment, criteria: map<string, set<string>>) returns (ok: bool)
    ensures ok <==> TrialsAreComplete(e, criteria)
  {
    var trials := e.manifest.trials;
    if e.manifest.repeats <= 0 {
      return false;
    }
    var observed: seq<Assignment>, ids: seq<string>, named := [], [], true;
    for n := 0 to |trials|
      invariant observed == Assignments(trials)[..n] && ids == TrialIds(trials)[..n]
      invariant named <==> forall i :: 0 <= i < n ==> TrialIsNamed(e.manifest.files, trials[i])
    {
      observed, ids := observed + [Assigned(trials[n])], ids + [trials[n].id];
      named := named && TrialIsNamed(e.manifest.files, trials[n]);
    }
    assert observed == Assignments(trials) && ids == TrialIds(trials);
    ok := named && NoDuplicates(ids) && AsExpected(observed, Expected(criteria.Keys, e.manifest.repeats))
      && NoDuplicates(RowIds(e.rows)) && Members(RowIds(e.rows)) == Members(ids);
  }

  /** The tallies of a whole report. */
  ghost predicate Tallied(trials: seq<Trial>, js: seq<Judged>, cases: set<string>, comparison: map<Arm, Tally>,
    perCase: map<(string, Arm), Tally>)
    requires |trials| == |js|
  {
    && (forall arm :: arm in comparison && comparison[arm] == TallyOf(trials, js, OfArm(arm)))
    && (forall c, arm :: (c, arm) in perCase <==> c in cases)
    && (forall c, arm :: c in cases ==> perCase[(c, arm)] == TallyOf(trials, js, OfCase(c, arm)))
  }

  method EmptyTallies(cases: set<string>) returns (comparison: map<Arm, Tally>, perCase: map<(string, Arm), Tally>)
    ensures Tallied([], [], cases, comparison, perCase)
  {
    comparison := map arm | arm in ARMS :: Tally(0, 0);
    perCase := map c, arm | c in cases && arm in ARMS :: (c, arm) := Tally(0, 0);
    forall arm: Arm ensures arm in ARMS {
      match arm
      case Baseline =>
      case Candidate =>
    }
  }

  /** Adds what is said of one more trial. */
  lemma TallyOneMore(trials: seq<Trial>, js: seq<Judged>, trial: Trial, j: Judged, g: Group)
    requires |trials| == |js|
    ensures TallyOf(trials + [trial], js + [j], g) ==
      if g.Has(trial) then TallyOf(trials, js, g).Plus(j) else TallyOf(trials, js, g)
  {
    assert (trials + [trial])[..|trials|] == trials && (js + [j])[..|js|] == js;
  }

  method AddToTallies(ghost trials: seq<Trial>, ghost js: seq<Judged>, ghost cases: set<string>, trial: Trial,
    j: Judged,
                      comparison: map<Arm, Tally>, perCase: map<(string, Arm), Tally>)
    returns (comparison': map<Arm, Tally>, perCase': map<(string, Arm), Tally>)
    requires |trials| == |js| && Tallied(trials, js, cases, comparison, perCase) && trial.case' in cases
    ensures Tallied(trials + [trial], js + [j], cases, comparison', perCase')
  {
    var key := (trial.case', trial.arm);
    comparison' := comparison[trial.arm := comparison[trial.arm].Plus(j)];
    perCase' := perCase[key := perCase[key].Plus(j)];
    forall g
      ensures TallyOf(trials + [trial], js + [j], g) ==
        if g.Has(trial) then TallyOf(trials, js, g).Plus(j) else TallyOf(trials, js, g)
    {
      TallyOneMore(trials, js, trial, j, g);
    }
  }

  /** What is missing, trial by trial. */
  function MissingOf(trials: seq<Trial>, js: seq<Judged>): seq<Missing>
    requires |trials| == |js|
  {
    if js == [] then [] else
    var last := |js| - 1;
    MissingOf(trials[..last], js[..last]) +
      match js[last]
      case NoResponse => [MissingResponse(trials[last].id)]
      case NoGrade => [MissingGrading(trials[last].id)]
      case _ => []
  }

  ghost predicate IsMissing(trials: seq<Trial>, js: seq<Judged>, m: Missing, i: nat)
    requires |trials| == |js|
  {
    i < |js| && ((js[i].NoResponse? && m == MissingResponse(trials[i].id))
      || (js[i].NoGrade? && m == MissingGrading(trials[i].id)))
  }

  /** It names exactly the trials without a response and those without a grade. */
  lemma {:induction false} MissingIsExact(trials: seq<Trial>, js: seq<Judged>, m: Missing)
    requires |trials| == |js|
    ensures m in MissingOf(trials, js) <==> exists i: nat :: IsMissing(trials, js, m, i)
  {
    if js != [] {
      var last := |js| - 1;
      MissingIsExact(trials[..last], js[..last], m);
      forall i: nat | i < last
        ensures IsMissing(trials, js, m, i) <==> IsMissing(trials[..last], js[..last], m, i)
      {
      }
      assert m in MissingOf(trials, js) <==>
        m in MissingOf(trials[..last], js[..last]) || IsMissing(trials, js, m, last);
    }
  }

  datatype Counts = Counts(reviewed: nat, missing: seq<Missing>, comparison: map<Arm, Tally>,
    perCase: map<(string, Arm), Tally>)

  ghost predicate Counted(trials: seq<Trial>, js: seq<Judged>, cases: set<string>, counts: Counts)
    requires |trials| == |js|
  {
    && Tallied(trials, js, cases, counts.comparison, counts.perCase)
    && counts.reviewed == ReviewedOf(js) && counts.reviewed + |counts.missing| == |trials|
    && counts.missing == MissingOf(trials, js)
  }

  method CountOne(ghost trials: seq<Trial>, ghost js: seq<Judged>, ghost cases: set<string>, trial: Trial, j: Judged,
    counts: Counts)
    returns (counts': Counts)
    requires |trials| == |js| && Counted(trials, js, cases, counts) && trial.case' in cases && !j.Rejected?
    ensures Counted(trials + [trial], js + [j], cases, counts')
  {
    var comparison, perCase := AddToTallies(trials, js, cases, trial, j, counts.comparison, counts.perCase);
    counts' := counts.(comparison := comparison, perCase := perCase);
    assert (js + [j])[..|js|] == js && (trials + [trial])[..|js|] == trials;
    match j
    case NoResponse => counts' := counts'.(missing := counts.missing + [MissingResponse(trial.id)]);
    case NoGrade => counts' := counts'.(missing := counts.missing + [MissingGrading(trial.id)]);
    case Reviewed(_) => counts' := counts'.(reviewed := counts.reviewed + 1);
  }

  lemma TrialIsIndexed(e: Experiment, criteria: map<string, set<string>>, i: nat)
    requires TrialsAreComplete(e, criteria) && i < |e.manifest.trials|
    ensures e.manifest.trials[i].id in Indexed(e.rows) && e.manifest.trials[i].case' in criteria
  {
    var trials := e.manifest.trials;
    IndexedHasIds(e.rows);
    assert TrialIds(trials)[i] in Members(TrialIds(trials));
    assert Assignments(trials)[i] in Members(Assignments(trials));
  }

  /** Judges one trial and counts it; None when it breaks a rule. */
  method CountNext(t: Tools, e: Experiment, criteria: map<string, set<string>>, indexed: map<string, Row>, n: nat,
    counts: Counts,
                   ghost done: seq<Trial>, ghost judged: seq<Judged>)
    returns (counts': Option<Counts>)
    requires TrialsAreComplete(e, criteria) && indexed == Indexed(e.rows) && n < |e.manifest.trials|
    requires |done| == |judged| && Counted(done, judged, criteria.Keys, counts)
    ensures counts'.None? <==> JudgeAt(t, e, criteria, n).Rejected?
    ensures counts'.Some? ==>
      Counted(done + [e.manifest.trials[n]], judged + [JudgeAt(t, e, criteria, n)], criteria.Keys, counts'.value)
  {
    TrialIsIndexed(e, criteria, n);
    var trial := e.manifest.trials[n];
    var j := Judge(t, e, trial, indexed[trial.id], criteria[trial.case']);
    if j.Rejected? {
      return None;
    }
    var more := CountOne(done, judged, criteria.Keys, trial, j, counts);
    return Some(more);
  }

  lemma JudgementsAt(t: Tools, e: Experiment, criteria: map<string, set<string>>, n: nat)
    requires n < |e.manifest.trials|
    ensures Judgements(t, e, criteria)[n] == JudgeAt(t, e, criteria, n)
  {
  }

  /** Counts the trials one by one, unless one of them is not as it should be. */
  method CountTrials(t: Tools, e: Experiment, criteria: map<string, set<string>>) returns (counts: Option<Counts>)
    requires TrialsAreComplete(e, criteria)
    ensures counts.None? <==> Rejected in Judgements(t, e, criteria)
    ensures counts.Some? ==> Counted(e.manifest.trials, Judgements(t, e, criteria), criteria.Keys, counts.value)
  {
    var trials := e.manifest.trials;
    ghost var js := Judgements(t, e, criteria);
    var indexed := Indexed(e.rows);
    var comparison, perCase := EmptyTallies(criteria.Keys);
    counts := Some(Counts(0, [], comparison, perCase));
    var n := 0;
    while n < |trials|
      invariant 0 <= n <= |trials| && counts.Some? && |js| == |trials|
      invariant Counted(trials[..n], js[..n], criteria.Keys, counts.value) && Rejected !in js[..n]
    {
      counts := CountNext(t, e, criteria, indexed, n, counts.value, trials[..n], js[..n]);
      JudgementsAt(t, e, criteria, n);
      if counts.None? {
        return;
      }
      PrefixGrows(trials, n);
      PrefixGrows(js, n);
      n := n + 1;
    }
    assert trials[..n] == trials && js[..n] == js;
  }

  /** Refuses exactly what does not pass, and otherwise counts all of it. */
  method Report(t: Tools, e: Experiment) returns (r: Result)
    ensures r.Invalid? <==> !Passes(t, e)
    ensures r.Summary? ==> (r.Complete() <==> r.counts.missing == [])
    ensures r.Summary? ==> r.expected == |e.manifest.trials| && r.counts.reviewed + |r.counts.missing| == r.expected
    ensures r.Summary? ==>
      && CASES in e.disk && t.decode(e.disk[CASES]).Some?
      && var criteria := CriteriaOf(t.decode(e.disk[CASES]).value);
         Counted(e.manifest.trials, Judgements(t, e, criteria), criteria.Keys, r.counts)
  {
    var ok := CheckInputs(t, e);
    if !ok || t.decode(e.disk[CASES]).None? {
      return Invalid;
    }
    var criteria := CriteriaOf(t.decode(e.disk[CASES]).value);
    ok := CheckTrials(e, criteria);
    if !ok {
      return Invalid;
    }
    var counts := CountTrials(t, e, criteria);
    ghost var js := Judgements(t, e, criteria);
    assert forall i :: 0 <= i < |js| ==> js[i] == JudgeAt(t, e, criteria, i);
    r := if counts.None? then Invalid else Summary(|e.manifest.trials|, counts.value);
  }
}
