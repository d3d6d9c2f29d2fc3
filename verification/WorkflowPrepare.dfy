/** The preparation of an experiment: whatever the suite, the number of repeats and
    the shuffle, the report accepts what was prepared. */
module WorkflowPrepare {
  import opened Collections
  import opened WorkflowReport

  // ---------------------------------------------------------------- trial names

  function Digit(n: nat): char
    requires n < 10
  {
    "0123456789"[n]
  }

  function Decimal(n: nat): string { if n < 10 then [Digit(n)] else Decimal(n / 10) + [Digit(n % 10)] }

  function Zeros(n: nat): string { if n == 0 then "" else "0" + Zeros(n - 1) }

  /** At least four digits. */
  function Padded(n: nat): string {
    var d := Decimal(n);
    if |d| < 4 then Zeros(4 - |d|) + d else d
  }

  function TrialName(n: nat): string { "trial-" + Padded(n) }

  predicate AllDigits(s: string) { forall i :: 0 <= i < |s| ==> '0' <= s[i] <= '9' }

  /** The number that digits stand for. */
  function NumberOf(s: string): int
    requires AllDigits(s)
  {
    if s == "" then 0 else 10 * NumberOf(s[..|s| - 1]) + (s[|s| - 1] as int - '0' as int)
  }

  lemma DigitStands(n: nat)
    requires n < 10
    ensures '0' <= Digit(n) <= '9' && Digit(n) as int - '0' as int == n
  {
  }

  lemma OneMoreDigit(s: string, n: nat)
    requires AllDigits(s) && n < 10
    ensures AllDigits(s + [Digit(n)]) && NumberOf(s + [Digit(n)]) == 10 * NumberOf(s) + n
  {
    DigitStands(n);
    assert (s + [Digit(n)])[..|s|] == s;
  }

  lemma {:induction false} DecimalReads(n: nat)
    ensures AllDigits(Decimal(n)) && NumberOf(Decimal(n)) == n && Decimal(n) != ""
  {
    if n >= 10 {
      DecimalReads(n / 10);
      OneMoreDigit(Decimal(n / 10), n % 10);
    } else {
      OneMoreDigit("", n);
      assert "" + [Digit(n)] == Decimal(n);
    }
  }

  lemma {:induction false} ZerosRead(k: nat, s: string)
    requires AllDigits(s)
    ensures AllDigits(Zeros(k) + s) && NumberOf(Zeros(k) + s) == NumberOf(s)
    decreases |s|
  {
    ZerosAreZeros(k);
    if s != "" {
      var before := s[..|s| - 1];
      ZerosRead(k, before);
      assert (Zeros(k) + s)[..k + |before|] == Zeros(k) + before;
    } else {
      OnlyZeros(k);
      assert Zeros(k) + s == Zeros(k);
    }
  }

  lemma {:induction false} OnlyZeros(k: nat)
    ensures AllDigits(Zeros(k)) && NumberOf(Zeros(k)) == 0
  {
    ZerosAreZeros(k);
    if k > 0 {
      OnlyZeros(k - 1);
    }
  }

  lemma {:induction false} ZerosAreZeros(k: nat)
    ensures |Zeros(k)| == k && forall i :: 0 <= i < k ==> Zeros(k)[i] == '0'
    ensures k > 0 ==> Zeros(k)[..k - 1] == Zeros(k - 1)
  {
    if k > 0 {
      ZerosAreZeros(k - 1);
    }
  }

  lemma NameReads(n: nat)
    ensures AllDigits(Padded(n)) && NumberOf(Padded(n)) == n && Padded(n) != ""
    ensures IsTrialId(TrialName(n)) && TrialName(n)[6..] == Padded(n)
  {
    DecimalReads(n);
    ZerosRead(if |Decimal(n)| < 4 then 4 - |Decimal(n)| else 0, Decimal(n));
    assert TrialName(n)[..6] == "trial-";
  }

  lemma {:induction false} DecimalHasNoZero(n: nat)
    requires 0 < n
    ensures Decimal(n) != "" && Decimal(n)[0] != '0'
  {
    if n < 10 {
      DigitStands(n);
    } else {
      DecimalHasNoZero(n / 10);
    }
  }

  /** A number in at least four digits, with no more zeros in front than that takes. */
  lemma PaddedMeans(n: nat)
    ensures AllDigits(Padded(n)) && NumberOf(Padded(n)) == n && |Padded(n)| >= 4
    ensures |Padded(n)| > 4 ==> Padded(n)[0] != '0'
  {
    NameReads(n);
    if |Decimal(n)| < 4 {
      ZerosAreZeros(4 - |Decimal(n)|);
    } else {
      DecimalHasNoZero(n);
    }
  }

  /** No two trials have one name. */
  lemma NamesDiffer(m: nat, n: nat)
    requires TrialName(m) == TrialName(n)
    ensures m == n
  {
    NameReads(m);
    NameReads(n);
  }

  lemma PromptPathStays(n: nat)
    ensures Contained(PromptPath(TrialName(n))) && PromptPath(TrialName(n))[0] == 'p'
  {
    NameReads(n);
    var name, path := TrialName(n), PromptPath(TrialName(n));
    assert path[0] == 'p';
    forall i | 0 <= i < |path| ensures path[i] != '\\' && (path[i] == '.' ==> i == |path| - 3) {
      assert i < 8 ==> path[i] == "prompts/"[i];
      assert 8 <= i < |path| - 3 ==> path[i] == name[i - 8];
      assert 14 <= i < |path| - 3 ==> '0' <= path[i] <= '9';
      assert 8 <= i < 14 ==> path[i] == name[..6][i - 8];
    }
  }

  // ---------------------------------------------------------------- assignments

  lemma Append<T>(s: seq<T>, x: T)
    requires NoDuplicates(s) && x !in s
    ensures NoDuplicates(s + [x]) && Members(s + [x]) == Members(s) + {x}
  {
    assert Members(s + [x]) == Members(s) + {x};
  }

  /** Both arms of one repeat. */
  method AssignRepeat(list: seq<Assignment>, c: string, repeat: int) returns (more: seq<Assignment>)
    requires NoDuplicates(list) && (c, Baseline, repeat) !in list && (c, Candidate, repeat) !in list
    ensures NoDuplicates(more) && Members(more) == Members(list) + {(c, Baseline, repeat), (c, Candidate, repeat)}
  {
    Append(list, (c, Baseline, repeat));
    Append(list + [(c, Baseline, repeat)], (c, Candidate, repeat));
    more := list + [(c, Baseline, repeat)] + [(c, Candidate, repeat)];
  }

  lemma ExpectedOneMore(c: string, r: int)
    requires 1 <= r
    ensures Expected({c}, r) == Expected({c}, r - 1) + {(c, Baseline, r), (c, Candidate, r)}
  {
    assert forall arm :: arm in ARMS ==> arm == Baseline || arm == Candidate;
  }

  lemma NotYetAssigned(list: seq<Assignment>, more: seq<Assignment>, c: string, r: int)
    requires Members(more) == Members(list) + Expected({c}, r) && forall a :: a in list ==> a.0 != c
    ensures (c, Baseline, r + 1) !in more && (c, Candidate, r + 1) !in more
  {
    assert forall a :: a in more ==> a in Members(more);
    assert forall a :: a in Expected({c}, r) ==> a.2 <= r;
  }

  /** Both arms of every repeat of one case. */
  lemma OneRepeatMore(list: seq<Assignment>, more: seq<Assignment>, later: seq<Assignment>, c: string, r: int)
    requires 0 <= r && Members(more) == Members(list) + Expected({c}, r)
    requires Members(later) == Members(more) + {(c, Baseline, r + 1), (c, Candidate, r + 1)}
    ensures Members(later) == Members(list) + Expected({c}, r + 1)
  {
    ExpectedOneMore(c, r + 1);
  }

  method AssignCase(list: seq<Assignment>, c: string, repeats: int) returns (more: seq<Assignment>)
    requires repeats > 0 && NoDuplicates(list) && forall a :: a in list ==> a.0 != c
    ensures NoDuplicates(more) && Members(more) == Members(list) + Expected({c}, repeats)
  {
    more := list;
    var r := 0;
    while r < repeats
      invariant 0 <= r <= repeats && NoDuplicates(more)
      invariant Members(more) == Members(list) + Expected({c}, r)
    {
      NotYetAssigned(list, more, c, r);
      var later := AssignRepeat(more, c, r + 1);
      OneRepeatMore(list, more, later, c, r);
      more := later;
      r := r + 1;
    }
  }

  method Assign(ids: seq<string>, repeats: int) returns (list: seq<Assignment>)
    requires repeats > 0 && forall i, j :: 0 <= i < j < |ids| ==> ids[i] != ids[j]
    ensures NoDuplicates(list) && Members(list) == Expected(Members(ids), repeats)
  {
    list := [];
    for n := 0 to |ids|
      invariant NoDuplicates(list) && Members(list) == Expected(Members(ids[..n]), repeats)
    {
      OfEarlierCases(list, ids, n, repeats);
      list := AssignCase(list, ids[n], repeats);
      ExpectedOfOneMoreCase(ids, n, repeats);
    }
    assert ids[..|ids|] == ids;
  }

  lemma OfEarlierCases(list: seq<Assignment>, ids: seq<string>, n: nat, repeats: int)
    requires n < |ids| && forall i, j :: 0 <= i < j < |ids| ==> ids[i] != ids[j]
    requires Members(list) == Expected(Members(ids[..n]), repeats)
    ensures forall a :: a in list ==> a.0 != ids[n]
  {
    forall a | a in list ensures a.0 != ids[n] {
      assert a in Members(list);
    }
  }

  lemma ExpectedOfOneMoreCase(ids: seq<string>, n: nat, repeats: int)
    requires n < |ids|
    ensures Expected(Members(ids[..n + 1]), repeats) ==
      Expected(Members(ids[..n]), repeats) + Expected({ids[n]}, repeats)
  {
    assert ids[..n + 1] == ids[..n] + [ids[n]];
  }

  function Swap<T>(s: seq<T>, i: nat, j: nat): seq<T>
    requires i < |s| && j < |s|
  {
    s[i := s[j]][j := s[i]]
  }

  /** The places from i on exchanged, the last first, each with one at most as far: the
      one that chance says. */
  function ShuffledFrom<T>(s: seq<T>, i: nat, chance: nat -> nat): (r: seq<T>)
    requires i < |s|
    ensures |r| == |s|
    decreases i
  {
    if i == 0 then s else ShuffledFrom(Swap(s, i, chance(i) % (i + 1)), i - 1, chance)
  }

  function Shuffled<T>(s: seq<T>, chance: nat -> nat): seq<T> {
    if s == [] then s else ShuffledFrom(s, |s| - 1, chance)
  }

  lemma SwapKeeps<T>(s: seq<T>, i: nat, j: nat)
    requires i < |s| && j < |s|
    ensures multiset(Swap(s, i, j)) == multiset(s)
  {
  }

  method Shuffle<T>(s: seq<T>, chance: nat -> nat) returns (shuffled: seq<T>)
    ensures shuffled == Shuffled(s, chance) && |shuffled| == |s| && multiset(shuffled) == multiset(s)
  {
    shuffled := s;
    var i := |s|;
    while i > 1
      invariant |shuffled| == |s| && multiset(shuffled) == multiset(s) && 0 <= i <= |s|
      invariant Shuffled(s, chance) == if i == 0 then shuffled else ShuffledFrom(shuffled, i - 1, chance)
    {
      i := i - 1;
      var j := chance(i) % (i + 1);
      SwapKeeps(shuffled, i, j);
      shuffled := shuffled[i := shuffled[j]][j := shuffled[i]];
    }
  }

  /** Only the chances up to i are asked for. */
  lemma {:induction false} SameChances<T>(s: seq<T>, i: nat, a: nat -> nat, b: nat -> nat)
    requires i < |s| && forall k :: 0 < k <= i ==> a(k) == b(k)
    ensures ShuffledFrom(s, i, a) == ShuffledFrom(s, i, b)
    decreases i
  {
    if 0 < i {
      SameChances(Swap(s, i, a(i) % (i + 1)), i - 1, a, b);
    }
  }

  lemma FrontsAgree<T>(s: seq<T>, order: seq<T>, i: nat)
    requires i < |s| == |order| && s[i + 1..] == order[i + 1..] && multiset(s) == multiset(order)
    ensures multiset(s[..i + 1]) == multiset(order[..i + 1]) && order[i] in s[..i + 1]
  {
    var front, front', back := s[..i + 1], order[..i + 1], s[i + 1..];
    assert s == front + back && order == front' + back;
    assert multiset(front) + multiset(back) == multiset(front') + multiset(back);
    assert multiset(front) == multiset(front') by {
      forall x ensures multiset(front)[x] == multiset(front')[x] {
        assert (multiset(front) + multiset(back))[x] == (multiset(front') + multiset(back))[x];
      }
    }
    assert front'[i] == order[i] && order[i] in multiset(front');
  }

  /** What is to stand at i is brought there from at most as far. */
  lemma BringThere<T>(s: seq<T>, order: seq<T>, i: nat) returns (j: nat)
    requires i < |s| == |order| && s[i + 1..] == order[i + 1..] && multiset(s) == multiset(order)
    ensures j <= i && Swap(s, i, j)[i..] == order[i..] && multiset(Swap(s, i, j)) == multiset(order)
  {
    FrontsAgree(s, order, i);
    j :| 0 <= j < i + 1 && s[..i + 1][j] == order[i];
    SwapKeeps(s, i, j);
    var next := Swap(s, i, j);
    assert next[i..] == [next[i]] + next[i + 1..] && order[i..] == [order[i]] + order[i + 1..];
    assert next[i + 1..] == s[i + 1..];
  }

  function ChanceAt(i: nat, j: nat, later: nat -> nat): nat -> nat { n => if n == i then j else later(n) }

  lemma FirstChance<T>(s: seq<T>, i: nat, j: nat, later: nat -> nat)
    requires 0 < i < |s| && j <= i
    ensures ShuffledFrom(s, i, ChanceAt(i, j, later)) == ShuffledFrom(Swap(s, i, j), i - 1, later)
  {
    var chance := ChanceAt(i, j, later);
    assert chance(i) % (i + 1) == j;
    SameChances(Swap(s, i, j), i - 1, chance, later);
  }

  lemma OneLeft<T>(s: seq<T>, order: seq<T>)
    requires |s| == |order| > 0 && s[1..] == order[1..] && multiset(s) == multiset(order)
    ensures s == order
  {
    FrontsAgree(s, order, 0);
    assert s[..1][0] == order[0];
    assert s == s[..1] + s[1..] && order == order[..1] + order[1..];
  }

  lemma {:induction false} AnyOrderFrom<T>(s: seq<T>, i: nat, order: seq<T>) returns (chance: nat -> nat)
    requires i < |s| == |order| && s[i + 1..] == order[i + 1..] && multiset(s) == multiset(order)
    ensures ShuffledFrom(s, i, chance) == order
    decreases i
  {
    if i == 0 {
      chance := n => 0;
      OneLeft(s, order);
    } else {
      var j := BringThere(s, order, i);
      var later := AnyOrderFrom(Swap(s, i, j), i - 1, order);
      chance := ChanceAt(i, j, later);
      FirstChance(s, i, j, later);
    }
  }

  /** Every order can come out. */
  lemma AnyOrderCanCome<T>(s: seq<T>, order: seq<T>)
    requires multiset(s) == multiset(order)
    ensures exists chance: nat -> nat :: Shuffled(s, chance) == order
  {
    assert |s| == |multiset(s)| && |order| == |multiset(order)|;
    if s == [] {
      assert Shuffled(s, n => 0) == order;
    } else {
      assert s[|s|..] == order[|s|..];
      var chance := AnyOrderFrom(s, |s| - 1, order);
      assert Shuffled(s, chance) == order;
    }
  }

  lemma ShuffledKeeps<T>(s: seq<T>, shuffled: seq<T>)
    requires |shuffled| == |s| && multiset(shuffled) == multiset(s)
    ensures Members(shuffled) == Members(s)
  {
    forall x ensures x in shuffled <==> x in s {
      assert x in multiset(shuffled) <==> x in multiset(s);
    }
  }

  // ---------------------------------------------------------------- frozen files

  /** The files an experiment is prepared from, and how its texts are made of them. */
  datatype Inputs = Inputs(agents: string, cases: string, prefix: string, debugging: string, review: string)
  datatype Writer = Writer(context: string -> string, strip: string -> string, rubric: seq<Case> -> string)

  // ---------------------------------------------------------------- prompts

  /** What stands in a prompt before and after the instructions that are on trial. */
  ghost function Boundary(w: Writer, inputs: Inputs): string {
    "# Existing repository instructions\n\n" + inputs.agents
    + ("\n\n# Scenario boundary\n\n" + w.context(inputs.cases))
  }

  ghost function Asked(case': Case): string {
    "\n\n# Request\n\n" + case'.request + ("\n\n# Supplied artifacts\n\n" + case'.artifacts + "\n")
  }

  /** The instructions on trial: the prefix and both skills. */
  ghost function OnTrial(w: Writer, inputs: Inputs): string {
    "\n\n# Machine integration instructions\n\n" + w.strip(inputs.prefix)
    + ("\n\n" + w.strip(inputs.debugging)) + ("\n\n" + w.strip(inputs.review))
  }

  ghost function PromptText(w: Writer, inputs: Inputs, case': Case, arm: Arm): string {
    match arm
    case Baseline => Boundary(w, inputs) + Asked(case')
    case Candidate => Boundary(w, inputs) + OnTrial(w, inputs) + Asked(case')
  }

  method BuildPrompt(w: Writer, inputs: Inputs, case': Case, arm: Arm) returns (prompt: string)
    ensures prompt == PromptText(w, inputs, case', arm)
  {
    prompt := "# Existing repository instructions\n\n" + inputs.agents;
    prompt := prompt + ("\n\n# Scenario boundary\n\n" + w.context(inputs.cases));
    if arm.Candidate? {
      var added := "\n\n# Machine integration instructions\n\n" + w.strip(inputs.prefix);
      added := added + ("\n\n" + w.strip(inputs.debugging));
      added := added + ("\n\n" + w.strip(inputs.review));
      prompt := prompt + added;
    }
    var asked := "\n\n# Request\n\n" + case'.request;
    prompt := prompt + (asked + ("\n\n# Supplied artifacts\n\n" + case'.artifacts + "\n"));
  }

  /** The two arms of a case differ in one insertion, the instructions on trial; and
      nothing of those shows in the baseline. */
  lemma ArmsDifferInTheInstructions(w: Writer, inputs: Inputs, other: Inputs, case': Case)
    ensures var baseline := PromptText(w, inputs, case', Baseline);
      exists k ::
        && 0 <= k <= |baseline|
        && PromptText(w, inputs, case', Candidate) == baseline[..k] + OnTrial(w, inputs) + baseline[k..]
    ensures other.agents == inputs.agents && other.cases == inputs.cases ==>
      PromptText(w, other, case', Baseline) == PromptText(w, inputs, case', Baseline)
  {
    var before, asked := Boundary(w, inputs), Asked(case');
    var baseline := PromptText(w, inputs, case', Baseline);
    assert baseline[..|before|] == before && baseline[|before|..] == asked;
  }

  predicate NotAResponse(path: string) { |path| > 1 && (path[0] != 'r' || path[1] != 'e') }

  /** Every listed file is on disk as listed, and nothing on disk is a response. */
  ghost predicate Frozen(t: Tools, disk: map<string, string>, files: map<string, string>, inputs: Inputs) {
    && (forall path :: path in files ==> FileIsFrozen(t, disk, path, files[path]))
    && (forall path :: path in disk ==> NotAResponse(path))
    && AGENTS in files && CASES in files && PREFIX in files && DEBUGGING in files && REVIEW in files
    && HoldSources(disk, inputs)
  }

  ghost predicate HoldSources(disk: map<string, string>, inputs: Inputs) {
    && AGENTS in disk && disk[AGENTS] == inputs.agents && CASES in disk && disk[CASES] == inputs.cases
    && PREFIX in disk && disk[PREFIX] == inputs.prefix && DEBUGGING in disk && disk[DEBUGGING] == inputs.debugging
    && REVIEW in disk && disk[REVIEW] == inputs.review
  }

  /** The five sources are five files, and none of the files that are made. */
  predicate IsSource(path: string) { path != "" && path[0] == 's' }

  lemma SourcesDiffer()
    ensures IsSource(AGENTS) && IsSource(CASES) && IsSource(PREFIX) && IsSource(DEBUGGING) && IsSource(REVIEW)
    ensures AGENTS != CASES && AGENTS != PREFIX && AGENTS != DEBUGGING && AGENTS != REVIEW
    ensures CASES != PREFIX && CASES != DEBUGGING && CASES != REVIEW
    ensures PREFIX != DEBUGGING && PREFIX != REVIEW && DEBUGGING != REVIEW
  {
    assert AGENTS[8] == 'A' && CASES[8] == 'c' && PREFIX[8] == 'w' && DEBUGGING[8] == REVIEW[8] == 'e';
    assert DEBUGGING[17] == 'd' && REVIEW[17] == 'r';
  }

  lemma SourcesStay()
    ensures Contained(AGENTS) && Contained(CASES) && Contained(PREFIX)
    ensures NotAResponse(AGENTS) && NotAResponse(CASES) && NotAResponse(PREFIX)
  {
  }

  lemma DebuggingStays()
    ensures Contained(DEBUGGING) && NotAResponse(DEBUGGING)
  {
  }

  lemma ReviewStays()
    ensures Contained(REVIEW) && NotAResponse(REVIEW)
  {
    forall i | 0 <= i < |REVIEW| ensures REVIEW[i] != '\\' && (REVIEW[i] == '.' ==> i == 29) {
    }
  }

  lemma RubricStays()
    ensures Contained(RUBRIC) && NotAResponse(RUBRIC) && !IsSource(RUBRIC)
  {
  }

  method WriteFile(t: Tools, ghost inputs: Inputs, disk: map<string, string>, files: map<string, string>, path: string,
    text: string)
    returns (disk': map<string, string>, files': map<string, string>)
    requires Frozen(t, disk, files, inputs) && Contained(path) && NotAResponse(path) && !IsSource(path)
    ensures Frozen(t, disk', files', inputs) && files'.Keys == files.Keys + {path} && disk' == disk[path := text]
  {
    SourcesDiffer();
    disk', files' := disk[path := text], files[path := t.sha(text)];
  }

  method WriteSources(t: Tools, inputs: Inputs) returns (disk: map<string, string>, files: map<string, string>)
    ensures Frozen(t, disk, files, inputs)
  {
    SourcesStay();
    DebuggingStays();
    ReviewStays();
    SourcesDiffer();
    disk := map[AGENTS := inputs.agents, PREFIX := inputs.prefix, DEBUGGING := inputs.debugging,
      REVIEW := inputs.review,
      CASES := inputs.cases];
    files := map path | path in disk :: t.sha(disk[path]);
  }

  // ---------------------------------------------------------------- trials and rows

  function MakeTrial(n: nat, a: Assignment): Trial { Trial(TrialName(n + 1), a.0, a.1, a.2) }

  function FreshRow(trial: Trial, criteria: set<string>): Row {
    Row(trial.id, trial.case', "", "", "", map k | k in criteria :: Grade(None, "", ""))
  }

  function ById(cases: seq<Case>): map<string, Case> {
    if cases == [] then map[] else ById(cases[..|cases| - 1])[cases[|cases| - 1].id := cases[|cases| - 1]]
  }

  function Ids(cases: seq<Case>): seq<string> { seq(|cases|, i requires 0 <= i < |cases| => cases[i].id) }

  lemma {:induction false} ByIdHasCriteria(cases: seq<Case>)
    ensures ById(cases).Keys == CriteriaOf(cases).Keys == Members(Ids(cases))
    ensures forall c :: c in ById(cases) ==> ById(cases)[c].criteria == CriteriaOf(cases)[c]
  {
    if cases != [] {
      var before := cases[..|cases| - 1];
      ByIdHasCriteria(before);
      assert Ids(cases) == Ids(before) + [cases[|cases| - 1].id];
    }
  }

  /** The trial, the row and the prompt of the i-th assignment. */
  ghost predicate PreparedAt(i: nat, a: Assignment, criteria: map<string, set<string>>, trial: Trial, row: Row,
    files: map<string, string>) {
    && trial == MakeTrial(i, a) && PromptPath(trial.id) in files
    && a.0 in criteria && row == FreshRow(trial, criteria[a.0])
  }

  ghost predicate Prepared(list: seq<Assignment>, criteria: map<string, set<string>>, trials: seq<Trial>,
    rows: seq<Row>, files: map<string, string>) {
    && |trials| == |rows| == |list|
    && forall i :: 0 <= i < |list| ==> PreparedAt(i, list[i], criteria, trials[i], rows[i], files)
  }

  // ---------------------------------------------------------------- every prompt on disk

  /** The trial's prompt is that of its own case and its own arm. */
  ghost predicate HasPrompt(w: Writer, inputs: Inputs, cases: seq<Case>, trial: Trial, disk: map<string, string>) {
    && "prompts/" + trial.id + ".md" in disk
    && exists k ::
      && 0 <= k < |cases| && cases[k].id == trial.case'
      && disk["prompts/" + trial.id + ".md"] == PromptText(w, inputs, cases[k], trial.arm)
  }

  ghost predicate Prompted(w: Writer, inputs: Inputs, cases: seq<Case>, trials: seq<Trial>, disk: map<string, string>) {
    forall i :: 0 <= i < |trials| ==> HasPrompt(w, inputs, cases, trials[i], disk)
  }

  lemma PathsDiffer(a: string, b: string)
    requires PromptPath(a) == PromptPath(b)
    ensures a == b
  {
    assert PromptPath(a)[8..|PromptPath(a)| - 3] == a;
    assert PromptPath(b)[8..|PromptPath(b)| - 3] == b;
  }

  lemma {:induction false} ByIdIsCase(cases: seq<Case>, id: string)
    requires id in ById(cases)
    ensures ById(cases)[id].id == id && ById(cases)[id] in cases
  {
    var last := |cases| - 1;
    if cases[last].id != id {
      ByIdIsCase(cases[..last], id);
    }
  }

  lemma NumberedInOrder(list: seq<Assignment>, criteria: map<string, set<string>>, trials: seq<Trial>, rows: seq<Row>,
    files: map<string, string>)
    requires Prepared(list, criteria, trials, rows, files)
    ensures forall i :: 0 <= i < |trials| ==> trials[i].id != TrialName(|trials| + 1)
  {
    PreparedNumbers(list, criteria, trials, rows, files);
    forall i | 0 <= i < |trials| ensures trials[i].id != TrialName(|trials| + 1) {
      if TrialName(i + 1) == TrialName(|trials| + 1) {
        NamesDiffer(i + 1, |trials| + 1);
      }
    }
  }

  /** A further prompt is written beside the earlier ones. */
  lemma PromptedOneMore(w: Writer, inputs: Inputs, cases: seq<Case>, trials: seq<Trial>, disk: map<string, string>,
    trial: Trial, case': Case)
    requires Prompted(w, inputs, cases, trials, disk) && case' in cases && case'.id == trial.case'
    requires forall i :: 0 <= i < |trials| ==> trials[i].id != trial.id
    ensures Prompted(w, inputs, cases, trials + [trial],
      disk[PromptPath(trial.id) := PromptText(w, inputs, case', trial.arm)])
  {
    var more := disk[PromptPath(trial.id) := PromptText(w, inputs, case', trial.arm)];
    forall i | 0 <= i < |trials| ensures HasPrompt(w, inputs, cases, trials[i], more) {
      assert HasPrompt(w, inputs, cases, trials[i], disk);
      if PromptPath(trials[i].id) == PromptPath(trial.id) {
        PathsDiffer(trials[i].id, trial.id);
      }
    }
    assert HasPrompt(w, inputs, cases, trial, more);
  }

  /** So is a file that is no prompt. */
  lemma PromptedBeside(w: Writer, inputs: Inputs, cases: seq<Case>, trials: seq<Trial>, disk: map<string, string>,
    path: string, text: string)
    requires Prompted(w, inputs, cases, trials, disk) && path != "" && path[0] != 'p'
    ensures Prompted(w, inputs, cases, trials, disk[path := text])
  {
    forall i | 0 <= i < |trials| ensures HasPrompt(w, inputs, cases, trials[i], disk[path := text]) {
      assert HasPrompt(w, inputs, cases, trials[i], disk);
      assert PromptPath(trials[i].id)[0] == 'p';
    }
  }

  /** A row to be filled in: nothing is graded, and every criterion is there. */
  ghost predicate Ungraded(trial: Trial, row: Row, criteria: set<string>) {
    && row.id == trial.id && row.case' == trial.case' && row.reviewer == row.model == row.responseSha == ""
    && row.criteria.Keys == criteria && forall k :: k in row.criteria ==> row.criteria[k] == Grade(None, "", "")
  }

  ghost predicate AllUngraded(trials: seq<Trial>, rows: seq<Row>, criteria: map<string, set<string>>) {
    |trials| == |rows| && forall i :: 0 <= i < |trials| ==>
      trials[i].case' in criteria && Ungraded(trials[i], rows[i], criteria[trials[i].case'])
  }

  lemma PreparedIsUngraded(list: seq<Assignment>, criteria: map<string, set<string>>, trials: seq<Trial>,
    rows: seq<Row>, files: map<string, string>)
    requires Prepared(list, criteria, trials, rows, files)
    ensures AllUngraded(trials, rows, criteria)
  {
    forall i | 0 <= i < |trials|
      ensures trials[i].case' in criteria && Ungraded(trials[i], rows[i], criteria[trials[i].case'])
    {
      assert PreparedAt(i, list[i], criteria, trials[i], rows[i], files);
    }
  }

  /** The trials are numbered in order and stand for these assignments, in this order. */
  ghost predicate Numbers(trials: seq<Trial>, list: seq<Assignment>) {
    Assignments(trials) == list && forall i :: 0 <= i < |trials| ==> trials[i].id == TrialName(i + 1)
  }

  lemma PreparedNumbers(list: seq<Assignment>, criteria: map<string, set<string>>, trials: seq<Trial>,
    rows: seq<Row>, files: map<string, string>)
    requires Prepared(list, criteria, trials, rows, files)
    ensures Numbers(trials, list)
  {
    forall i | 0 <= i < |trials| ensures Assigned(trials[i]) == list[i] && trials[i].id == TrialName(i + 1) {
      assert PreparedAt(i, list[i], criteria, trials[i], rows[i], files);
    }
  }

  /** Every assignment once, in the order that chance makes of some list of them. */
  ghost predicate InChanceOrder(trials: seq<Trial>, cases: seq<Case>, repeats: int, chance: nat -> nat) {
    exists list :: Numbers(trials, Shuffled(list, chance)) && NoDuplicates(list)
      && Members(list) == Expected(Members(Ids(cases)), repeats)
  }

  lemma PreparedOneMore(list: seq<Assignment>, criteria: map<string, set<string>>, trials: seq<Trial>, rows: seq<Row>,
                        files: map<string, string>, a: Assignment, files': map<string, string>)
    requires Prepared(list, criteria, trials, rows, files) && a.0 in criteria && files.Keys <= files'.Keys
    requires PromptPath(TrialName(|list| + 1)) in files'
    ensures var trial := MakeTrial(|list|, a);
      Prepared(list + [a], criteria, trials + [trial], rows + [FreshRow(trial, criteria[a.0])], files')
  {
    var trial := MakeTrial(|list|, a);
    var row := FreshRow(trial, criteria[a.0]);
    forall i | 0 <= i < |list| + 1
      ensures PreparedAt(i, (list + [a])[i], criteria, (trials + [trial])[i], (rows + [row])[i], files')
    {
      if i < |list| {
        assert PreparedAt(i, list[i], criteria, trials[i], rows[i], files);
      }
    }
  }

  /** Writes the next trial: its prompt, and a row to be filled in. */
  method WriteTrial(t: Tools, w: Writer, inputs: Inputs, cases: seq<Case>, byId: map<string, Case>,
    ghost done: seq<Assignment>, a: Assignment, trials: seq<Trial>, rows: seq<Row>,
    disk: map<string, string>, files: map<string, string>)
    returns (trials': seq<Trial>, rows': seq<Row>, disk': map<string, string>, files': map<string, string>)
    requires Frozen(t, disk, files, inputs) && Prepared(done, CriteriaOf(cases), trials, rows, files)
    requires Prompted(w, inputs, cases, trials, disk) && byId == ById(cases) && a.0 in byId
    ensures Frozen(t, disk', files', inputs) && Prepared(done + [a], CriteriaOf(cases), trials', rows', files')
    ensures Prompted(w, inputs, cases, trials', disk')
  {
    ByIdHasCriteria(cases);
    ByIdIsCase(cases, a.0);
    var case' := byId[a.0];
    var trial := MakeTrial(|trials|, a);
    disk', files' := WritePrompt(t, w, inputs, case', trial, |trials| + 1, disk, files);
    NumberedInOrder(done, CriteriaOf(cases), trials, rows, files);
    PromptedOneMore(w, inputs, cases, trials, disk, trial, case');
    PreparedOneMore(done, CriteriaOf(cases), trials, rows, files, a, files');
    trials', rows' := trials + [trial], rows + [FreshRow(trial, case'.criteria)];
  }

  method WriteTrials(t: Tools, w: Writer, inputs: Inputs, cases: seq<Case>, list: seq<Assignment>,
    disk: map<string, string>, files: map<string, string>)
    returns (trials: seq<Trial>, rows: seq<Row>, disk': map<string, string>, files': map<string, string>)
    requires Frozen(t, disk, files, inputs) && forall i :: 0 <= i < |list| ==> list[i].0 in Members(Ids(cases))
    ensures Frozen(t, disk', files', inputs) && Prepared(list, CriteriaOf(cases), trials, rows, files')
    ensures Prompted(w, inputs, cases, trials, disk')
  {
    ByIdHasCriteria(cases);
    var byId := ById(cases);
    trials, rows, disk', files' := [], [], disk, files;
    for n := 0 to |list|
      invariant Frozen(t, disk', files', inputs) && Prepared(list[..n], CriteriaOf(cases), trials, rows, files')
      invariant Prompted(w, inputs, cases, trials, disk')
    {
      trials, rows, disk', files' :=
        WriteTrial(t, w, inputs, cases, byId, list[..n], list[n], trials, rows, disk', files');
      PrefixGrows(list, n);
    }
    assert list[..|list|] == list;
  }

  method WritePrompt(t: Tools, w: Writer, inputs: Inputs, case': Case, trial: Trial, ghost n: nat,
    disk: map<string, string>, files: map<string, string>)
    returns (disk': map<string, string>, files': map<string, string>)
    requires Frozen(t, disk, files, inputs) && trial.id == TrialName(n)
    ensures Frozen(t, disk', files', inputs) && files'.Keys == files.Keys + {PromptPath(trial.id)}
    ensures disk' == disk[PromptPath(trial.id) := PromptText(w, inputs, case', trial.arm)]
  {
    PromptPathStays(n);
    var prompt := BuildPrompt(w, inputs, case', trial.arm);
    disk', files' := WriteFile(t, inputs, disk, files, PromptPath(trial.id), prompt);
  }

  // ---------------------------------------------------------------- the report accepts it

  lemma {:induction false} IndexedAt(rows: seq<Row>, i: nat)
    requires i < |rows| && Distinct(RowIds(rows))
    ensures rows[i].id in Indexed(rows) && Indexed(rows)[rows[i].id] == rows[i]
  {
    var last := |rows| - 1;
    if i < last {
      var before := rows[..last];
      assert RowIds(before) == RowIds(rows)[..last];
      assert RowIds(rows)[i] != RowIds(rows)[last];
      IndexedAt(before, i);
    }
  }

  lemma PreparedIsNamed(i: nat, a: Assignment, criteria: map<string, set<string>>, trial: Trial, row: Row,
    files: map<string, string>)
    requires PreparedAt(i, a, criteria, trial, row, files)
    ensures trial.id == row.id == TrialName(i + 1) && TrialIsNamed(files, trial)
  {
    NameReads(i + 1);
  }

  lemma NumberedIdsDiffer(ids: seq<string>)
    requires forall i :: 0 <= i < |ids| ==> ids[i] == TrialName(i + 1)
    ensures Distinct(ids) && NoDuplicates(ids)
  {
    forall i, j | 0 <= i < j < |ids| ensures ids[i] != ids[j] {
      if ids[i] == ids[j] {
        NamesDiffer(i + 1, j + 1);
      }
    }
    Pigeonhole(ids);
  }

  lemma PreparedIds(list: seq<Assignment>, criteria: map<string, set<string>>, trials: seq<Trial>, rows: seq<Row>,
    files: map<string, string>)
    requires Prepared(list, criteria, trials, rows, files)
    ensures NoDuplicates(TrialIds(trials)) && RowIds(rows) == TrialIds(trials) && Distinct(RowIds(rows))
    ensures forall i :: 0 <= i < |trials| ==> TrialIsNamed(files, trials[i])
  {
    var ids := TrialIds(trials);
    forall i | 0 <= i < |ids| ensures ids[i] == rows[i].id == TrialName(i + 1) && TrialIsNamed(files, trials[i]) {
      PreparedIsNamed(i, list[i], criteria, trials[i], rows[i], files);
    }
    NumberedIdsDiffer(ids);
    assert RowIds(rows) == ids;
  }

  lemma PreparedIsComplete(e: Experiment, criteria: map<string, set<string>>, list: seq<Assignment>)
    requires Prepared(list, criteria, e.manifest.trials, e.rows, e.manifest.files) && e.manifest.repeats > 0
    requires NoDuplicates(list) && Members(list) == Expected(criteria.Keys, e.manifest.repeats)
    ensures TrialsAreComplete(e, criteria)
  {
    var trials := e.manifest.trials;
    PreparedIds(list, criteria, trials, e.rows, e.manifest.files);
    forall i | 0 <= i < |list| ensures Assigned(trials[i]) == list[i] {
      assert PreparedAt(i, list[i], criteria, trials[i], e.rows[i], e.manifest.files);
    }
    assert Assignments(trials) == list;
  }

  lemma NoResponseYet(t: Tools, disk: map<string, string>, files: map<string, string>, inputs: Inputs, id: string)
    requires Frozen(t, disk, files, inputs)
    ensures ResponsePath(id) !in disk
  {
    var path := ResponsePath(id);
    assert path[0] == 'r' && path[1] == 'e';
    assert !NotAResponse(path);
  }

  lemma FreshIsNotRejected(t: Tools, e: Experiment, trial: Trial, criteria: set<string>)
    requires ResponsePath(trial.id) !in e.disk
    ensures Judge(t, e, trial, FreshRow(trial, criteria), criteria) == NoResponse
  {
    assert FreshRow(trial, criteria).criteria.Keys == criteria;
  }

  lemma PreparedHasNoResponse(t: Tools, e: Experiment, inputs: Inputs, criteria: map<string, set<string>>,
    list: seq<Assignment>, i: nat)
    requires Prepared(list, criteria, e.manifest.trials, e.rows, e.manifest.files) && i < |list|
    requires Frozen(t, e.disk, e.manifest.files, inputs)
    ensures JudgeAt(t, e, criteria, i) == NoResponse
  {
    var trial := e.manifest.trials[i];
    PreparedIds(list, criteria, e.manifest.trials, e.rows, e.manifest.files);
    IndexedAt(e.rows, i);
    NoResponseYet(t, e.disk, e.manifest.files, inputs, trial.id);
    assert PreparedAt(i, list[i], criteria, trial, e.rows[i], e.manifest.files);
    FreshIsNotRejected(t, e, trial, criteria[trial.case']);
  }

  /** A small letter, and small letters, digits and hyphens behind it. */
  predicate IsName(s: string) { s != "" && 'a' <= s[0] <= 'z' && InName(s) }

  predicate InName(s: string) {
    s == "" || (('a' <= s[0] <= 'z' || '0' <= s[0] <= '9' || s[0] == '-') && InName(s[1..]))
  }

  lemma {:induction false} InNameMeans(s: string)
    ensures InName(s) <==> forall c :: c in s ==> NameChar(c as int)
  {
    if s != "" {
      InNameMeans(s[1..]);
      forall c ensures c in s <==> c == s[0] || c in s[1..] {
        assert s == [s[0]] + s[1..];
      }
      assert s[0] in s;
      assert NameChar(s[0] as int) <==> 'a' <= s[0] <= 'z' || '0' <= s[0] <= '9' || s[0] == '-';
    }
  }

  lemma NameMeans(s: string)
    ensures IsName(s) <==> s != "" && 97 <= s[0] as int <= 122 && forall c :: c in s ==> NameChar(c as int)
  {
    InNameMeans(s);
  }

  predicate NameChar(n: int) { 97 <= n <= 122 || 48 <= n <= 57 || n == 45 }

  /** A suite that is fit for an experiment: there are cases, of different names, and
      each asks for something, supplies something, and is judged by named criteria. */
  ghost predicate GoodSuite(t: Tools, cases: seq<Case>) {
    && |cases| > 0
    && (forall i :: 0 <= i < |cases| ==> GoodCase(t, cases[i]))
    && Distinct(Ids(cases))
  }

  ghost predicate GoodCase(t: Tools, c: Case) {
    && IsName(c.id) && !t.blank(c.request) && !t.blank(c.artifacts)
    && (exists k :: k in c.criteria) && forall k :: k in c.criteria ==> IsName(k)
  }

  method CheckCase(t: Tools, c: Case) returns (good: bool)
    ensures good <==> GoodCase(t, c)
  {
    if !IsName(c.id) || t.blank(c.request) || t.blank(c.artifacts) || c.criteria == {} {
      return false;
    }
    var left := c.criteria;
    while left != {}
      invariant left <= c.criteria && forall k :: k in c.criteria - left ==> IsName(k)
      decreases |left|
    {
      var k :| k in left;
      if !IsName(k) {
        return false;
      }
      left := left - {k};
    }
    return true;
  }

  method CheckSuite(t: Tools, cases: seq<Case>) returns (good: bool)
    ensures good <==> GoodSuite(t, cases)
  {
    if |cases| == 0 {
      return false;
    }
    var seen: set<string> := {};
    for n := 0 to |cases|
      invariant forall i :: 0 <= i < n ==> GoodCase(t, cases[i])
      invariant forall id :: id in seen <==> id in Ids(cases)[..n]
      invariant Distinct(Ids(cases)[..n])
    {
      var good' := CheckCase(t, cases[n]);
      if !good' {
        return false;
      }
      SeenOrNew(Ids(cases), n);
      if cases[n].id in seen {
        return false;
      }
      seen := seen + {cases[n].id};
      PrefixGrows(Ids(cases), n);
    }
    assert Ids(cases)[..|cases|] == Ids(cases);
    return true;
  }

  lemma SeenOrNew(ids: seq<string>, n: nat)
    requires n < |ids| && Distinct(ids[..n])
    ensures ids[n] in ids[..n] ==> !Distinct(ids)
    ensures ids[n] !in ids[..n] ==> Distinct(ids[..n + 1])
  {
    if ids[n] in ids[..n] {
      var i :| 0 <= i < n && ids[i] == ids[n];
    }
  }

  ghost predicate Preparable(t: Tools, w: Writer, inputs: Inputs, repeats: int, model: string) {
    && 1 <= repeats && t.blank(model) == false
    && t.blank(w.context(inputs.cases)) == false
    && t.decode(inputs.cases).Some? && GoodSuite(t, t.decode(inputs.cases).value)
  }

  /** The suite, unless the experiment cannot be prepared. */
  method LoadSuite(t: Tools, w: Writer, inputs: Inputs, repeats: int, model: string) returns (suite: Option<seq<Case>>)
    ensures suite.Some? <==> Preparable(t, w, inputs, repeats, model)
    ensures suite.Some? ==> suite == t.decode(inputs.cases)
  {
    if repeats <= 0 || t.blank(model) {
      return None;
    }
    suite := t.decode(inputs.cases);
    if suite.None? || t.blank(w.context(inputs.cases)) {
      return None;
    }
    var good := CheckSuite(t, suite.value);
    if !good {
      return None;
    }
  }

  method Prepare(t: Tools, w: Writer, inputs: Inputs, repeats: int, model: string, chance: nat -> nat)
    returns (e: Option<Experiment>)
    ensures e.Some? <==> Preparable(t, w, inputs, repeats, model)
    ensures e.Some? ==> Passes(t, e.value) && e.value.manifest.repeats == repeats && e.value.manifest.model == model
    ensures e.Some? ==> var criteria := CriteriaOf(t.decode(inputs.cases).value);
      && CASES in e.value.disk && e.value.disk[CASES] == inputs.cases
      && forall i :: 0 <= i < |e.value.manifest.trials| ==> JudgeAt(t, e.value, criteria, i) == NoResponse
    ensures e.Some? ==> var cases := t.decode(inputs.cases).value;
      && Prompted(w, inputs, cases, e.value.manifest.trials, e.value.disk) && HoldSources(e.value.disk, inputs)
      && RUBRIC in e.value.disk && e.value.disk[RUBRIC] == w.rubric(cases)
      && AllUngraded(e.value.manifest.trials, e.value.rows, CriteriaOf(cases))
      && InChanceOrder(e.value.manifest.trials, cases, repeats, chance)
  {
    var suite := LoadSuite(t, w, inputs, repeats, model);
    if suite.None? {
      return None;
    }
    var cases := suite.value;
    var disk, files := WriteSources(t, inputs);
    var list := Assign(Ids(cases), repeats);
    var shuffled := Shuffle(list, chance);
    ShuffledKeeps(list, shuffled);
    ShuffledIsOfCases(cases, shuffled, repeats);
    var trials, rows;
    trials, rows, disk, files := WriteTrials(t, w, inputs, cases, shuffled, disk, files);
    ghost var before := files;
    RubricStays();
    PromptedBeside(w, inputs, cases, trials, disk, RUBRIC, w.rubric(cases));
    disk, files := WriteFile(t, inputs, disk, files, RUBRIC, w.rubric(cases));
    StillPrepared(shuffled, CriteriaOf(cases), trials, rows, before, files);
    PreparedIsUngraded(shuffled, CriteriaOf(cases), trials, rows, files);
    PreparedNumbers(shuffled, CriteriaOf(cases), trials, rows, files);
    assert InChanceOrder(trials, cases, repeats, chance);
    e := Finish(t, inputs, cases, shuffled, model, repeats, trials, rows, disk, files);
  }

  lemma ShuffledIsOfCases(cases: seq<Case>, list: seq<Assignment>, repeats: int)
    requires Members(list) == Expected(Members(Ids(cases)), repeats)
    ensures forall i :: 0 <= i < |list| ==> list[i].0 in Members(Ids(cases))
  {
    forall i | 0 <= i < |list| ensures list[i].0 in Members(Ids(cases)) {
      assert list[i] in Members(list);
    }
  }

  lemma StillPrepared(list: seq<Assignment>, criteria: map<string, set<string>>, trials: seq<Trial>, rows: seq<Row>,
                      files: map<string, string>, files': map<string, string>)
    requires Prepared(list, criteria, trials, rows, files) && files.Keys <= files'.Keys
    ensures Prepared(list, criteria, trials, rows, files')
  {
    forall i | 0 <= i < |list| ensures PreparedAt(i, list[i], criteria, trials[i], rows[i], files') {
      assert PreparedAt(i, list[i], criteria, trials[i], rows[i], files);
    }
  }

  /** The manifest last, with its digest. */
  method Finish(t: Tools, inputs: Inputs, cases: seq<Case>, ghost list: seq<Assignment>, model: string, repeats: int,
                trials: seq<Trial>, rows: seq<Row>, disk: map<string, string>, files: map<string, string>)
    returns (e: Option<Experiment>)
    requires repeats > 0 && t.decode(inputs.cases) == Some(cases) && Frozen(t, disk, files, inputs) && RUBRIC in files
    requires Prepared(list, CriteriaOf(cases), trials, rows, files)
    requires NoDuplicates(list) && Members(list) == Expected(Members(Ids(cases)), repeats)
    ensures e.Some? && Passes(t, e.value) && e.value.manifest.repeats == repeats && e.value.manifest.model == model
    ensures e.value.disk == disk && e.value.manifest.trials == trials && e.value.rows == rows
    ensures forall i :: 0 <= i < |e.value.manifest.trials| ==> JudgeAt(t, e.value, CriteriaOf(cases), i) == NoResponse
  {
    var manifest := Manifest(model, repeats, trials, files);
    var made := Experiment(manifest, t.seal(manifest), rows, disk);
    ByIdHasCriteria(cases);
    PreparedIsComplete(made, CriteriaOf(cases), list);
    forall i | 0 <= i < |trials| ensures JudgeAt(t, made, CriteriaOf(cases), i) == NoResponse {
      PreparedHasNoResponse(t, made, inputs, CriteriaOf(cases), list, i);
    }
    e := Some(made);
  }

  /** What is prepared is reported as incomplete, with every response missing. */
  method PrepareThenReport(t: Tools, w: Writer, inputs: Inputs, repeats: int, model: string, chance: nat -> nat)
    returns (r: Result)
    requires Preparable(t, w, inputs, repeats, model)
    ensures r.Summary? && r.counts.reviewed == 0 && |r.counts.missing| == r.expected
  {
    var e := Prepare(t, w, inputs, repeats, model, chance);
    r := Report(t, e.value);
    var js := Judgements(t, e.value, CriteriaOf(t.decode(inputs.cases).value));
    NoneReviewed(js);
  }

  lemma {:induction false} NoneReviewed(js: seq<Judged>)
    requires forall i :: 0 <= i < |js| ==> js[i] == NoResponse
    ensures ReviewedOf(js) == 0
  {
    if js != [] {
      NoneReviewed(js[..|js| - 1]);
    }
  }
}
