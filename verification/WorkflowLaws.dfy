/** What the numbers of a complete report mean. */
module WorkflowLaws {
  import opened Collections
  import opened WorkflowReport

  // ---------------------------------------------------------------- each assignment once

  ghost function InGroup(all: set<Assignment>, c: string, arm: Arm): set<Assignment> {
    set a | a in all && a.0 == c && a.1 == arm
  }

  lemma GroupOneMore(all: set<Assignment>, a: Assignment, c: string, arm: Arm)
    requires a !in all
    ensures |InGroup(all + {a}, c, arm)| == |InGroup(all, c, arm)| + if a.0 == c && a.1 == arm then 1 else 0
  {
    assert InGroup(all + {a}, c, arm) ==
      if a.0 == c && a.1 == arm then InGroup(all, c, arm) + {a} else InGroup(all, c, arm);
  }

  lemma MembersOneMore(s: seq<Assignment>)
    requires s != [] && Distinct(s)
    ensures var before, last := s[..|s| - 1], s[|s| - 1];
      Distinct(before) && last !in Members(before) && Members(s) == Members(before) + {last}
  {
    var before, last := s[..|s| - 1], s[|s| - 1];
    assert s == before + [last];
    assert forall i :: 0 <= i < |before| ==> before[i] == s[i];
  }

  lemma {:induction false} SizeIsCount(trials: seq<Trial>, c: string, arm: Arm)
    requires Distinct(Assignments(trials))
    ensures Size(trials, OfCase(c, arm)) == |InGroup(Members(Assignments(trials)), c, arm)|
  {
    if trials == [] {
      assert InGroup(Members(Assignments(trials)), c, arm) == {};
    } else {
      var before, last := trials[..|trials| - 1], trials[|trials| - 1];
      var all := Assignments(trials);
      assert all[..|all| - 1] == Assignments(before) && all[|all| - 1] == Assigned(last);
      MembersOneMore(all);
      GroupOneMore(Members(Assignments(before)), Assigned(last), c, arm);
      SizeIsCount(before, c, arm);
    }
  }

  lemma {:induction false} GroupOfExpected(cases: set<string>, repeats: nat, c: string, arm: Arm)
    requires c in cases
    ensures |InGroup(Expected(cases, repeats), c, arm)| == repeats
  {
    assert arm in ARMS by {
      match arm
      case Baseline =>
      case Candidate =>
    }
    if repeats == 0 {
      assert InGroup(Expected(cases, repeats), c, arm) == {};
    } else {
      GroupOfExpected(cases, repeats - 1, c, arm);
      assert InGroup(Expected(cases, repeats), c, arm) ==
        InGroup(Expected(cases, repeats - 1), c, arm) + {(c, arm, repeats)};
    }
  }

  // ---------------------------------------------------------------- sums

  function Both(a: Tally, b: Tally): Tally { Tally(a.passed + b.passed, a.total + b.total) }

  /** An arm's tallies of these cases together. */
  ghost function SumOf(ids: seq<string>, trials: seq<Trial>, js: seq<Judged>, arm: Arm): Tally
    requires |trials| == |js|
  {
    if ids == [] then Tally(0, 0) else Both(TallyOf(trials, js, OfCase(ids[0], arm)), SumOf(ids[1..], trials, js, arm))
  }

  lemma {:induction false} SumOneMore(ids: seq<string>, trials: seq<Trial>, js: seq<Judged>, trial: Trial, j: Judged,
    arm: Arm)
    requires |trials| == |js| && Distinct(ids)
    ensures SumOf(ids, trials + [trial], js + [j], arm) ==
      if trial.arm == arm && trial.case' in ids then SumOf(ids, trials, js, arm).Plus(j)
      else SumOf(ids, trials, js, arm)
  {
    if ids != [] {
      TallyOneMore(trials, js, trial, j, OfCase(ids[0], arm));
      SumOneMore(ids[1..], trials, js, trial, j, arm);
    }
  }

  lemma {:induction false} SumOfNothing(ids: seq<string>, arm: Arm)
    ensures SumOf(ids, [], [], arm) == Tally(0, 0)
  {
    if ids != [] {
      SumOfNothing(ids[1..], arm);
    }
  }

  lemma {:induction false} CasesAddUp(ids: seq<string>, trials: seq<Trial>, js: seq<Judged>, arm: Arm)
    requires |trials| == |js| && Distinct(ids) && forall i :: 0 <= i < |trials| ==> trials[i].case' in ids
    ensures SumOf(ids, trials, js, arm) == TallyOf(trials, js, OfArm(arm))
  {
    if trials == [] {
      SumOfNothing(ids, arm);
    } else {
      var n := |trials| - 1;
      CasesAddUp(ids, trials[..n], js[..n], arm);
      SumOneMore(ids, trials[..n], js[..n], trials[n], js[n], arm);
      assert trials == trials[..n] + [trials[n]] && js == js[..n] + [js[n]];
    }
  }

  lemma {:induction false} AllReviewedCountsAll(trials: seq<Trial>, js: seq<Judged>, g: Group)
    requires |trials| == |js| && forall i :: 0 <= i < |js| ==> js[i].Reviewed?
    ensures TallyOf(trials, js, g).total == Size(trials, g)
  {
    if trials != [] {
      AllReviewedCountsAll(trials[..|trials| - 1], js[..|js| - 1], g);
    }
  }

  lemma {:induction false} FullCountIsAll(js: seq<Judged>)
    ensures ReviewedOf(js) <= |js| && (ReviewedOf(js) == |js| ==> forall i :: 0 <= i < |js| ==> js[i].Reviewed?)
  {
    if js != [] {
      FullCountIsAll(js[..|js| - 1]);
    }
  }

  /** When every trial was reviewed, every case and arm has as many as there are repeats. */
  lemma TotalIsRepeats(trials: seq<Trial>, js: seq<Judged>, cases: set<string>, repeats: nat, c: string, arm: Arm)
    requires |trials| == |js| && forall i :: 0 <= i < |js| ==> js[i].Reviewed?
    requires AsExpected(Assignments(trials), Expected(cases, repeats)) && c in cases
    ensures TallyOf(trials, js, OfCase(c, arm)).total == repeats
  {
    Pigeonhole(Assignments(trials));
    AllReviewedCountsAll(trials, js, OfCase(c, arm));
    SizeIsCount(trials, c, arm);
    GroupOfExpected(cases, repeats, c, arm);
  }

  lemma CasesAreExpected(trials: seq<Trial>, cases: set<string>, repeats: int, i: nat)
    requires AsExpected(Assignments(trials), Expected(cases, repeats)) && i < |trials|
    ensures trials[i].case' in cases
  {
    assert Assignments(trials)[i] in Members(Assignments(trials));
  }

  /** In a complete report every case and arm has as many trials as there are repeats,
      and the cases' passes add up to the arm's. */
  lemma CompleteReportAddsUp(e: Experiment, criteria: map<string, set<string>>, js: seq<Judged>, counts: Counts,
    ids: seq<string>)
    requires TrialsAreComplete(e, criteria) && |js| == |e.manifest.trials|
    requires Counted(e.manifest.trials, js, criteria.Keys, counts) && counts.reviewed == |e.manifest.trials|
    requires Distinct(ids) && Members(ids) == criteria.Keys
    ensures forall c, arm :: c in ids ==>
      (c, arm) in counts.perCase && counts.perCase[(c, arm)].total == e.manifest.repeats
    ensures forall arm :: arm in counts.comparison && counts.comparison[arm] == SumOf(ids, e.manifest.trials, js, arm)
  {
    var trials := e.manifest.trials;
    FullCountIsAll(js);
    forall c, arm | c in ids
      ensures (c, arm) in counts.perCase && counts.perCase[(c, arm)].total == e.manifest.repeats
    {
      assert c in Members(ids);
      TotalIsRepeats(trials, js, criteria.Keys, e.manifest.repeats, c, arm);
    }
    forall i | 0 <= i < |trials| ensures trials[i].case' in ids {
      CasesAreExpected(trials, criteria.Keys, e.manifest.repeats, i);
      assert trials[i].case' in Members(ids);
    }
    forall arm ensures arm in counts.comparison && counts.comparison[arm] == SumOf(ids, trials, js, arm) {
      CasesAddUp(ids, trials, js, arm);
    }
  }
}
