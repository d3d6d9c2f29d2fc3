/** A translated guide brought up to date: parts whose pins no longer match are
    shown in English and named in a notice. */
module GuideMerge {
  import opened Guide

  /** Which source and which translation were current together. */
  datatype Pin = Pin(source: string, translation: string)

  datatype Result = NoParts | Merged(text: string, pending: seq<string>)

  /** The two guides, the section table's names, the pins, a digest and the words
      of the notice. A name without a pin has an empty one. */
  datatype Edition = Edition(
    english: string, translated: string, names: seq<string>, pins: map<string, Pin>, digest: string -> string,
      words: string)
  {
    predicate Pinned(name: string, source: string, translation: string) {
      var pin := if name in pins then pins[name] else Pin("", "");
      pin.source == digest(source) && pin.translation == digest(translation)
    }

    predicate IntroIsCurrent() { Pinned("intro", Preamble(english), Preamble(translated)) }

    function Intro(): string { if IntroIsCurrent() then Preamble(translated) else Preamble(english) }

    predicate Complete() { |Parts(english)| == |names| }

    predicate IsCurrent(i: nat)
      requires Complete() && i < |names|
    {
      |Parts(translated)| == |Parts(english)| && Pinned(names[i], Parts(english)[i], Parts(translated)[i])
    }

    function Chosen(i: nat): string
      requires Complete() && i < |names|
    {
      if IsCurrent(i) then Parts(translated)[i] else Parts(english)[i]
    }

    function ChosenParts(): seq<string>
      requires Complete()
    {
      seq(|names|, i requires 0 <= i < |names| => Chosen(i))
    }

    /** The English pieces among the introduction and the first k parts, in order. */
    function Pending(k: nat): seq<string>
      requires Complete() && k <= |names|
    {
      if k == 0 then (if IntroIsCurrent() then [] else ["intro"])
      else Pending(k - 1) + if IsCurrent(k - 1) then [] else [names[k - 1]]
    }

    function Notice(pending: seq<string>): string { "> " + words + ": " + CommaJoin(pending) + ".\n\n" }

    /** What is shown before the first part. */
    function Opening(): string
      requires Complete()
    {
      var pending := Pending(|names|);
      if pending == [] then Intro() else Intro() + Notice(pending)
    }
  }

  function CommaJoin(names: seq<string>): string {
    if names == [] then "" else if |names| == 1 then names[0] else names[0] + ", " + CommaJoin(names[1..])
  }

  lemma {:induction false} CommaJoinGrows(names: seq<string>, last: string)
    requires names != []
    ensures CommaJoin(names + [last]) == CommaJoin(names) + ", " + last
  {
    var more := names + [last];
    assert more[1..] == names[1..] + [last] && more[0] == names[0];
    if 1 < |names| {
      CommaJoinGrows(names[1..], last);
      assert CommaJoin(more) == names[0] + ", " + (CommaJoin(names[1..]) + ", " + last);
    }
  }

  lemma Regroup(before: string, a: string, b: string, c: string, end: string)
    ensures before + (a + b + c) + end == before + a + b + c + end
  {
  }

  /** The notice names what is pending, one name after the other. */
  lemma NoticeReads(e: Edition, pending: seq<string>, last: string)
    ensures CommaJoin([last]) == last && e.Notice(pending) == "> " + e.words + ": " + CommaJoin(pending) + ".\n\n"
    ensures pending != [] ==>
      e.Notice(pending + [last]) == "> " + e.words + ": " + CommaJoin(pending) + ", " + last + ".\n\n"
  {
    if pending != [] {
      CommaJoinGrows(pending, last);
      Regroup("> " + e.words + ": ", CommaJoin(pending), ", ", last, ".\n\n");
    }
  }

  /** Where "\n## " stands first at or after k, if anywhere. */
  function FirstMarked(text: string, k: nat): (r: int)
    requires k <= |text|
    ensures r == -1 || (k <= r < |text| && text[r] == '\n' && TwoMarks(text, r + 1))
    ensures forall j :: k <= j < (if r == -1 then |text| else r) ==> !(text[j] == '\n' && TwoMarks(text, j + 1))
    decreases |text| - k
  {
    if k == |text| then -1 else if text[k] == '\n' && TwoMarks(text, k + 1) then k else FirstMarked(text, k + 1)
  }

  /** The notice put in front of the first `## ` that starts a later line. */
  function PutIn(body: string, notice: string): string
    requires 0 <= FirstMarked(body, 0)
  {
    var k := FirstMarked(body, 0) + 1;
    body[..k] + notice + body[k..]
  }

  /** The merged guide: the notice, when there is one, goes in front of the first
      `## ` that starts a later line. */
  function Merge(e: Edition): Result {
    if !e.Complete() then NoParts else
    var pending, text := e.Pending(|e.names|), e.Intro() + Concat(e.ChosenParts());
    if pending == [] then Merged(text, []) else
    var first := FirstMarked(text, 0);
    if first < 0 then NoParts else Merged(PutIn(text, e.Notice(pending)), pending)
  }

  lemma OnePartMore(chosen: seq<string>, i: nat, out: string, intro: string)
    requires i < |chosen| && out == intro + Concat(chosen[..i])
    ensures out + chosen[i] == intro + Concat(chosen[..i + 1])
  {
    assert chosen[..i + 1] == chosen[..i] + [chosen[i]] && [chosen[i]][1..] == [];
    ConcatAppend(chosen[..i], [chosen[i]]);
  }

  // ---------------------------------------------------------------- what may be shown

  /** The digests of both texts of a piece are the ones recorded together. */
  ghost predicate Fresh(e: Edition, name: string, source: string, translation: string) {
    && (name in e.pins ==> e.pins[name] == Pin(e.digest(source), e.digest(translation)))
    && (name !in e.pins ==> e.digest(source) == e.digest(translation) == "")
  }

  ghost predicate IntroIsFresh(e: Edition) { Fresh(e, "intro", Preamble(e.english), Preamble(e.translated)) }

  ghost predicate PartIsFresh(e: Edition, i: nat)
    requires |Parts(e.english)| == |e.names| && i < |e.names|
  {
    && |Parts(e.translated)| == |Parts(e.english)|
    && Fresh(e, e.names[i], Parts(e.english)[i], Parts(e.translated)[i])
  }

  /** The pieces shown: each is the translated one exactly if it is fresh, and otherwise
      the English one. */
  ghost predicate ShowsFresh(e: Edition, intro: string, parts: seq<string>) {
    && |parts| == |Parts(e.english)| == |e.names|
    && intro == (if IntroIsFresh(e) then Preamble(e.translated) else Preamble(e.english))
    && forall i :: 0 <= i < |parts| ==>
      parts[i] == if PartIsFresh(e, i) then Parts(e.translated)[i] else Parts(e.english)[i]
  }

  /** The names of the pieces that are not fresh, and no others. */
  ghost predicate NamesStale(e: Edition, pending: seq<string>)
    requires |Parts(e.english)| == |e.names|
  {
    && (!IntroIsFresh(e) ==> "intro" in pending)
    && (forall i :: 0 <= i < |e.names| && !PartIsFresh(e, i) ==> e.names[i] in pending)
    && forall name :: name in pending ==>
      (name == "intro" && !IntroIsFresh(e)) || exists i :: 0 <= i < |e.names| && IsStale(e, i, name)
  }

  ghost predicate IsStale(e: Edition, i: nat, name: string)
    requires |Parts(e.english)| == |e.names| && i < |e.names|
  {
    e.names[i] == name && !PartIsFresh(e, i)
  }

  lemma ChosenIsFresh(e: Edition)
    requires e.Complete()
    ensures ShowsFresh(e, e.Intro(), e.ChosenParts()) && (IntroIsFresh(e) <==> e.IntroIsCurrent())
    ensures forall i :: 0 <= i < |e.names| ==> (PartIsFresh(e, i) <==> e.IsCurrent(i))
  {
  }

  lemma {:induction false} StaleIntroIsPending(e: Edition, k: nat)
    requires e.Complete() && k <= |e.names| && !IntroIsFresh(e)
    ensures "intro" in e.Pending(k)
  {
    if 0 < k {
      StaleIntroIsPending(e, k - 1);
    } else {
      ChosenIsFresh(e);
    }
  }

  lemma {:induction false} StaleIsPending(e: Edition, k: nat, i: nat)
    requires e.Complete() && i < k <= |e.names| && !PartIsFresh(e, i)
    ensures e.names[i] in e.Pending(k)
  {
    if i < k - 1 {
      StaleIsPending(e, k - 1, i);
    } else {
      ChosenIsFresh(e);
    }
  }

  lemma {:induction false} PendingIsStale(e: Edition, k: nat, name: string)
    requires e.Complete() && k <= |e.names| && name in e.Pending(k)
    ensures (name == "intro" && !IntroIsFresh(e)) || exists i :: 0 <= i < |e.names| && IsStale(e, i, name)
  {
    ChosenIsFresh(e);
    if 0 < k {
      if name in e.Pending(k - 1) {
        PendingIsStale(e, k - 1, name);
      } else {
        assert IsStale(e, k - 1, name);
      }
    }
  }

  lemma PendingNamesStale(e: Edition)
    requires e.Complete()
    ensures NamesStale(e, e.Pending(|e.names|))
  {
    if !IntroIsFresh(e) {
      StaleIntroIsPending(e, |e.names|);
    }
    forall i: nat | i < |e.names| && !PartIsFresh(e, i) ensures e.names[i] in e.Pending(|e.names|) {
      StaleIsPending(e, |e.names|, i);
    }
    forall name | name in e.Pending(|e.names|)
      ensures (name == "intro" && !IntroIsFresh(e)) || exists i :: 0 <= i < |e.names| && IsStale(e, i, name)
    {
      PendingIsStale(e, |e.names|, name);
    }
  }

  /** The pieces in order, and the notice, if anything is pending, somewhere among them. */
  ghost predicate Assembled(e: Edition, intro: string, parts: seq<string>, text: string, pending: seq<string>) {
    var body := intro + Concat(parts);
    if pending == [] then text == body
    else exists k :: 0 <= k <= |body| && text == body[..k] + e.Notice(pending) + body[k..]
  }

  lemma MergeShowsFresh(e: Edition)
    requires Merge(e).Merged?
    ensures NamesStale(e, Merge(e).pending)
    ensures exists intro, parts ::
      ShowsFresh(e, intro, parts) && Assembled(e, intro, parts, Merge(e).text, Merge(e).pending)
  {
    ChosenIsFresh(e);
    PendingNamesStale(e);
    var pending, body := e.Pending(|e.names|), e.Intro() + Concat(e.ChosenParts());
    if pending != [] {
      var k := FirstMarked(body, 0) + 1;
      assert Merge(e).text == body[..k] + e.Notice(pending) + body[k..];
    }
    assert Assembled(e, e.Intro(), e.ChosenParts(), Merge(e).text, pending);
  }

  /** The pieces one after the other, each as its pin says, and the names of those that
      are shown in English. */
  method MergePieces(e: Edition, ep: string, es: seq<string>, tp: string, ts: seq<string>)
    returns (out: string, pending: seq<string>)
    requires e.Complete() && ep == Preamble(e.english) && es == Parts(e.english)
    requires tp == Preamble(e.translated) && ts == Parts(e.translated)
    ensures out == e.Intro() + Concat(e.ChosenParts()) && pending == e.Pending(|e.names|)
  {
    pending, out := [], "";
    if e.Pinned("intro", ep, tp) {
      out := out + tp;
    } else {
      out := out + ep;
      pending := pending + ["intro"];
    }
    ghost var chosen := e.ChosenParts();
    for i := 0 to |e.names|
      invariant pending == e.Pending(i)
      invariant out == e.Intro() + Concat(chosen[..i])
    {
      OnePartMore(chosen, i, out, e.Intro());
      var part;
      if i < |ts| && |ts| == |es| && e.Pinned(e.names[i], es[i], ts[i]) {
        part := ts[i];
      } else {
        part := es[i];
        pending := pending + [e.names[i]];
      }
      out := out + part;
    }
    assert chosen[..|e.names|] == chosen;
  }

  method MergeGuide(e: Edition) returns (r: Result)
    ensures r == Merge(e)
    ensures |Parts(e.english)| != |e.names| ==> r.NoParts?
    ensures r.Merged? ==>
      && |Parts(e.english)| == |e.names| && NamesStale(e, r.pending)
      && exists intro, parts :: ShowsFresh(e, intro, parts) && Assembled(e, intro, parts, r.text, r.pending)
  {
    if Merge(e).Merged? {
      MergeShowsFresh(e);
    }
    var ep, es := Split(e.english);
    var tp, ts := Split(e.translated);
    if |es| != |e.names| {
      return NoParts;
    }
    var out, pending := MergePieces(e, ep, es, tp, ts);
    if pending == [] {
      return Merged(out, pending);
    }
    var first := FirstMarked(out, 0);
    if first < 0 {
      return NoParts;
    }
    r := Merged(out[..first + 1] + e.Notice(pending) + out[first + 1..], pending);
  }

  // ---------------------------------------------------------------- cut, merge, cut

  /** When the merged guide can be cut back into what was chosen: its opening ends a
      line, and, when there is a notice to place, there is an introduction to place
      it behind and the first chosen part opens with `## `. */
  predicate CanBeCutAgain(e: Edition)
    requires e.Complete()
  {
    && EndsLine(e.Intro())
    && (e.Pending(|e.names|) != [] ==> e.Intro() != "" && e.names != [] && TwoMarks(e.Chosen(0), 0))
  }

  predicate OneLine(text: string) { '\n' !in text }

  lemma {:induction false} PartsAreIndexed(parts: seq<string>, i: nat)
    requires AreParts(parts) && i < |parts|
    ensures IsPart(parts[i]) && (i < |parts| - 1 ==> EndsLine(parts[i]))
  {
    if 0 < i {
      PartsAreIndexed(parts[1..], i - 1);
    }
  }

  lemma {:induction false} IndexedAreParts(parts: seq<string>)
    requires forall i :: 0 <= i < |parts| ==> IsPart(parts[i]) && (i < |parts| - 1 ==> EndsLine(parts[i]))
    ensures AreParts(parts)
  {
    if parts != [] {
      IndexedAreParts(parts[1..]);
    }
  }

  /** Any choice between two guides of the same shape is again a row of parts. */
  lemma ChosenAreParts(e: Edition)
    requires e.Complete()
    ensures AreParts(e.ChosenParts())
  {
    CutIsCut(e.english);
    CutIsCut(e.translated);
    forall i | 0 <= i < |e.names|
      ensures IsPart(e.Chosen(i)) && (i < |e.names| - 1 ==> EndsLine(e.Chosen(i)))
    {
      PartsAreIndexed(Parts(e.english), i);
      if e.IsCurrent(i) {
        PartsAreIndexed(Parts(e.translated), i);
      }
    }
    IndexedAreParts(e.ChosenParts());
  }

  lemma IntroIsPreamble(e: Edition)
    ensures Whole(e.Intro()) && !OpensHeading(e.Intro())
    ensures Parts(e.english) != [] && (e.IntroIsCurrent() ==> Parts(e.translated) != []) ==> EndsLine(e.Intro())
  {
    CutIsCut(e.english);
    CutIsCut(e.translated);
  }

  lemma {:induction false} NamesOnOneLine(names: seq<string>)
    requires forall i :: 0 <= i < |names| ==> OneLine(names[i])
    ensures OneLine(CommaJoin(names))
  {
    if 1 < |names| {
      NamesOnOneLine(names[1..]);
    }
  }

  lemma {:induction false} PendingOnOneLine(e: Edition, k: nat)
    requires e.Complete() && k <= |e.names| && forall i :: 0 <= i < |e.names| ==> OneLine(e.names[i])
    ensures forall i :: 0 <= i < |e.Pending(k)| ==> OneLine(e.Pending(k)[i])
  {
    if 0 < k {
      PendingOnOneLine(e, k - 1);
    }
  }

  /** The notice is text that opens no heading, and ends its line. */
  lemma NoticeIsText(e: Edition, pending: seq<string>)
    requires OneLine(e.words) && OneLine(CommaJoin(pending))
    ensures var n := e.Notice(pending); n != "" && n[0] == '>' && Whole(n) && EndsLine(n)
  {
    var n := e.Notice(pending);
    var line := "> " + e.words + ": " + CommaJoin(pending) + ".";
    assert n == line + "\n\n";
    assert OneLine(line);
    forall k: nat | 0 < k < |n|
      ensures !HeadingAt(n, k)
    {
      if k < |line| {
        assert n[k - 1] == line[k - 1] && line[k - 1] in line;
      } else {
        assert n[k] == '\n';
      }
    }
  }

  /** The opening and the parts, put together, are cut back into themselves. */
  lemma TogetherIsCut(opening: string, parts: seq<string>)
    requires Whole(opening) && !OpensHeading(opening) && EndsLine(opening) && AreParts(parts)
    ensures Preamble(opening + Concat(parts)) == opening && Parts(opening + Concat(parts)) == parts
  {
    CutIsUnique(opening + Concat(parts), opening, parts);
  }

  /** Behind an introduction that ends its line, a `## ` part is where the notice goes. */
  lemma NoticeGoesBehindIntro(intro: string, rest: string)
    requires intro != "" && EndsLine(intro) && Whole(intro) && TwoMarks(rest, 0)
    ensures FirstMarked(intro + rest, 0) == |intro| - 1
  {
    var text := intro + rest;
    var r := FirstMarked(text, 0);
    assert text[|intro| - 1] == '\n' && TwoMarks(text, |intro|);
    if r < |intro| - 1 {
      HeadingBefore(intro, rest, r + 1);
      assert false;
    }
  }

  /** A text with the notice put in is the introduction, the notice and the parts
      only when the notice was put in at the end of the introduction. */
  lemma NoticeIsInPlace(intro: string, notice: string, rest: string, left: string, right: string)
    requires notice != "" && notice[0] == '>' && rest != "" && rest[0] == '#' && right != "" && right[0] == '#'
    requires left + right == intro + rest
    ensures left + notice + right == intro + notice + rest ==> left == intro && right == rest
  {
    var body, put, meant := intro + rest, left + notice + right, intro + notice + rest;
    if |left| < |intro| {
      assert put[|left|] == '>' && meant[|left|] == body[|left|] == (left + right)[|left|];
    } else if |intro| < |left| {
      assert meant[|intro|] == '>' && put[|intro|] == (left + right)[|intro|] == body[|intro|];
    } else {
      assert left == body[..|left|] && right == body[|left|..];
    }
  }

  /** If the notice comes back behind the introduction, that is where it was put. */
  lemma NoticeCameBack(intro: string, notice: string, parts: seq<string>, left: string, right: string)
    requires AreParts(parts) && parts != [] && notice != "" && notice[0] == '>'
    requires left + right == intro + Concat(parts) && left != "" && EndsLine(left) && TwoMarks(right, 0)
    requires Preamble(left + notice + right) == intro + notice && Parts(left + notice + right) == parts
    ensures intro != "" && EndsLine(intro) && TwoMarks(parts[0], 0)
  {
    CutIsCut(left + notice + right);
    FirstPartShows(parts);
    NoticeIsInPlace(intro, notice, Concat(parts), left, right);
  }

  lemma FirstPartShows(parts: seq<string>)
    requires AreParts(parts) && parts != []
    ensures Concat(parts) != "" && Concat(parts)[0] == '#' && (TwoMarks(Concat(parts), 0) <==> TwoMarks(parts[0], 0))
  {
  }

  /** Merging and cutting again gives back exactly the chosen introduction with the
      notice, and exactly the chosen parts, if and only if the choice can be cut
      again. */
  lemma MergeThenCut(e: Edition)
    requires e.Complete() && e.names != [] && OneLine(e.words)
    requires forall i :: 0 <= i < |e.names| ==> OneLine(e.names[i])
    ensures CanBeCutAgain(e) <==>
      Merge(e).Merged? && Preamble(Merge(e).text) == e.Opening() && Parts(Merge(e).text) == e.ChosenParts()
    ensures Merge(e).Merged? ==> Merge(e).pending == e.Pending(|e.names|)
  {
    ChosenAreParts(e);
    IntroIsPreamble(e);
    if e.Pending(|e.names|) == [] {
      CutWithoutNotice(e);
    } else {
      CutWithNotice(e);
    }
  }

  lemma CutWithoutNotice(e: Edition)
    requires e.Complete() && e.names != [] && e.Pending(|e.names|) == [] && AreParts(e.ChosenParts())
    requires Whole(e.Intro()) && !OpensHeading(e.Intro())
    ensures EndsLine(e.Intro()) <==> Preamble(Merge(e).text) == e.Intro() && Parts(Merge(e).text) == e.ChosenParts()
  {
    if EndsLine(e.Intro()) {
      TogetherIsCut(e.Intro(), e.ChosenParts());
    } else {
      CutIsCut(Merge(e).text);
    }
  }

  predicate HasPlace(intro: string, parts: seq<string>) {
    intro != "" && EndsLine(intro) && parts != [] && TwoMarks(parts[0], 0)
  }

  lemma PlaceIsUsed(intro: string, notice: string, parts: seq<string>)
    requires AreParts(parts) && Whole(intro) && !OpensHeading(intro) && HasPlace(intro, parts)
    requires notice != "" && notice[0] == '>' && Whole(notice) && EndsLine(notice)
    ensures var body := intro + Concat(parts);
      0 <= FirstMarked(body, 0) && Preamble(PutIn(body, notice)) == intro + notice
        && Parts(PutIn(body, notice)) == parts
  {
    var rest := Concat(parts);
    FirstPartShows(parts);
    NoticeGoesBehindIntro(intro, rest);
    assert (intro + rest)[..|intro|] == intro && (intro + rest)[|intro|..] == rest;
    WholeJoins(intro, notice);
    TogetherIsCut(intro + notice, parts);
  }

  lemma UsedIsPlace(intro: string, notice: string, parts: seq<string>)
    requires AreParts(parts) && parts != [] && notice != "" && notice[0] == '>'
    requires var body := intro + Concat(parts);
      0 <= FirstMarked(body, 0) && Preamble(PutIn(body, notice)) == intro + notice
        && Parts(PutIn(body, notice)) == parts
    ensures HasPlace(intro, parts)
  {
    var body, k := intro + Concat(parts), FirstMarked(intro + Concat(parts), 0) + 1;
    var left, right := body[..k], body[k..];
    assert left + right == body && left[|left| - 1] == body[k - 1] && right[0] == body[k];
    NoticeCameBack(intro, notice, parts, left, right);
  }

  lemma CutWithNotice(e: Edition)
    requires e.Complete() && e.names != [] && e.Pending(|e.names|) != [] && AreParts(e.ChosenParts())
      && OneLine(e.words)
    requires forall i :: 0 <= i < |e.names| ==> OneLine(e.names[i])
    requires Whole(e.Intro()) && !OpensHeading(e.Intro())
    ensures CanBeCutAgain(e) <==>
      Merge(e).Merged? && Preamble(Merge(e).text) == e.Opening() && Parts(Merge(e).text) == e.ChosenParts()
  {
    var pending, intro, parts := e.Pending(|e.names|), e.Intro(), e.ChosenParts();
    var notice, body := e.Notice(pending), intro + Concat(parts);
    PendingOnOneLine(e, |e.names|);
    NamesOnOneLine(pending);
    NoticeIsText(e, pending);
    assert CanBeCutAgain(e) <==> HasPlace(intro, parts);
    if HasPlace(intro, parts) {
      PlaceIsUsed(intro, notice, parts);
    } else if 0 <= FirstMarked(body, 0) {
      if Preamble(PutIn(body, notice)) == intro + notice && Parts(PutIn(body, notice)) == parts {
        UsedIsPlace(intro, notice, parts);
      }
    }
  }

  /** A part is named as pending exactly when it is shown in English. */
  lemma {:induction false} PendingIsExact(e: Edition, k: nat)
    requires e.Complete() && k <= |e.names|
    requires "intro" !in e.names && forall i, j :: 0 <= i < j < |e.names| ==> e.names[i] != e.names[j]
    ensures forall i :: 0 <= i < |e.names| ==> (e.names[i] in e.Pending(k) <==> i < k && !e.IsCurrent(i))
    ensures "intro" in e.Pending(k) <==> !e.IntroIsCurrent()
  {
    if 0 < k {
      PendingIsExact(e, k - 1);
    }
  }

  lemma {:induction false} NothingPendingIsCurrent(e: Edition, k: nat, i: nat)
    requires e.Complete() && i < k <= |e.names| && e.Pending(k) == []
    ensures e.IsCurrent(i) && e.IntroIsCurrent()
  {
    if i < k - 1 {
      NothingPendingIsCurrent(e, k - 1, i);
    } else {
      NothingPendingLeavesIntro(e, k);
    }
  }

  lemma {:induction false} NothingPendingLeavesIntro(e: Edition, k: nat)
    requires e.Complete() && k <= |e.names| && e.Pending(k) == []
    ensures e.IntroIsCurrent()
  {
    if 0 < k {
      NothingPendingLeavesIntro(e, k - 1);
    }
  }

  /** A translation whose every piece is current is shown byte for byte. */
  lemma FreshTranslationIsKept(e: Edition)
    requires e.Complete() && e.names != [] && e.Pending(|e.names|) == []
    ensures Merge(e) == Merged(e.translated, [])
  {
    forall i | 0 <= i < |e.names|
      ensures e.IsCurrent(i) && e.IntroIsCurrent()
    {
      NothingPendingIsCurrent(e, |e.names|, i);
    }
    assert e.IsCurrent(0);
    assert e.ChosenParts() == Parts(e.translated);
    CutIsCut(e.translated);
  }

  /** A merged guide that can be cut again is made of fresh translations and of English
      pieces that are named, piece by piece. */
  lemma CutShowsFresh(e: Edition)
    requires e.Complete() && e.names != [] && OneLine(e.words)
    requires forall i :: 0 <= i < |e.names| ==> OneLine(e.names[i])
    requires CanBeCutAgain(e)
    ensures Merge(e).Merged? && NamesStale(e, Merge(e).pending)
    ensures var intro := if IntroIsFresh(e) then Preamble(e.translated) else Preamble(e.english);
      && Preamble(Merge(e).text) == (if Merge(e).pending == [] then intro else intro + e.Notice(Merge(e).pending))
      && ShowsFresh(e, intro, Parts(Merge(e).text))
  {
    ChosenIsFresh(e);
    MergeThenCut(e);
    PendingNamesStale(e);
  }

  /** A part whose source was edited after its translation was pinned, or whose
      translation is no longer the pinned one, is shown in English and named. */
  lemma StaleIsEnglish(e: Edition, i: nat)
    requires e.Complete() && OneLine(e.words) && CanBeCutAgain(e)
    requires forall k :: 0 <= k < |e.names| ==> OneLine(e.names[k])
    requires i < |e.names| && e.names[i] in e.pins
    requires || e.pins[e.names[i]].source != e.digest(Parts(e.english)[i])
             || |Parts(e.translated)| != |e.names|
             || e.pins[e.names[i]].translation != e.digest(Parts(e.translated)[i])
    ensures Merge(e).Merged? && |Parts(Merge(e).text)| == |e.names|
    ensures Parts(Merge(e).text)[i] == Parts(e.english)[i] && e.names[i] in Merge(e).pending
  {
    CutShowsFresh(e);
    assert !PartIsFresh(e, i);
  }

  /** The same for the introduction, behind which the notice stands. */
  lemma StaleIntroIsEnglish(e: Edition)
    requires e.Complete() && e.names != [] && OneLine(e.words) && CanBeCutAgain(e)
    requires forall k :: 0 <= k < |e.names| ==> OneLine(e.names[k])
    requires "intro" in e.pins
    requires || e.pins["intro"].source != e.digest(Preamble(e.english))
             || e.pins["intro"].translation != e.digest(Preamble(e.translated))
    ensures Merge(e).Merged? && "intro" in Merge(e).pending
    ensures Preamble(Merge(e).text) == Preamble(e.english) + e.Notice(Merge(e).pending)
  {
    CutShowsFresh(e);
    assert !IntroIsFresh(e);
  }
}
