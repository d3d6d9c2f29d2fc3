/** The agent guide: cut into parts at its headings, merged part by part from a
    translation and English, given a notice, and cut again. Texts are sequences of
    bytes; the bytes that matter are ASCII. */
module Guide {

  /** `## ` stands at k. */
  predicate TwoMarks(text: string, k: nat) {
    k + 3 <= |text| && text[k] == '#' && text[k + 1] == '#' && text[k + 2] == ' '
  }

  /** `### ` stands at k. */
  predicate ThreeMarks(text: string, k: nat) {
    k + 4 <= |text| && text[k] == '#' && text[k + 1] == '#' && text[k + 2] == '#' && text[k + 3] == ' '
  }

  /** A heading starts a line at k. */
  predicate HeadingAt(text: string, k: nat)
    requires k <= |text|
  {
    (k == 0 || text[k - 1] == '\n') && (TwoMarks(text, k) || ThreeMarks(text, k))
  }

  /** A heading is two or three marks and a space at the start of a line. */
  lemma HeadingMeans(text: string, k: nat)
    requires k <= |text|
    ensures TwoMarks(text, k) <==> "## " <= text[k..]
    ensures ThreeMarks(text, k) <==> "### " <= text[k..]
    ensures HeadingAt(text, k) <==>
      ("## " <= text[k..] || "### " <= text[k..]) && (0 < k ==> text[k - 1] == '\n')
  {
  }

  predicate OpensHeading(text: string) { TwoMarks(text, 0) || ThreeMarks(text, 0) }

  predicate EndsLine(text: string) { text == "" || text[|text| - 1] == '\n' }

  /** No heading after the start. */
  predicate Whole(text: string) {
    forall k: nat :: 0 < k < |text| ==> !HeadingAt(text, k)
  }

  function Concat(parts: seq<string>): string {
    if parts == [] then "" else parts[0] + Concat(parts[1..])
  }

  // ---------------------------------------------------------------- what a cut is

  /** The preamble and the parts put together are the text; each part opens with its
      own heading and holds no other; and each piece but the last ends its line. */
  predicate IsCut(text: string, preamble: string, parts: seq<string>) {
    && text == preamble + Concat(parts)
    && Whole(preamble) && !OpensHeading(preamble) && (parts != [] ==> EndsLine(preamble))
    && AreParts(parts)
  }

  predicate AreParts(parts: seq<string>) {
    parts == [] ||
    (IsPart(parts[0]) && (1 < |parts| ==> EndsLine(parts[0])) && AreParts(parts[1..]))
  }

  predicate IsPart(text: string) { OpensHeading(text) && Whole(text) }

  /** The first heading at or after k, or the end of the text. */
  function NextHeading(text: string, k: nat): (n: nat)
    requires k <= |text|
    ensures k <= n <= |text|
    ensures n < |text| ==> HeadingAt(text, n)
    ensures forall j :: k <= j < n ==> !HeadingAt(text, j)
    decreases |text| - k
  {
    if k == |text| || HeadingAt(text, k) then k else NextHeading(text, k + 1)
  }

  function Preamble(text: string): string { text[..NextHeading(text, 0)] }

  function Parts(text: string): seq<string> { PartsFrom(text, NextHeading(text, 0)) }

  function PartsFrom(text: string, k: nat): seq<string>
    requires k <= |text|
    decreases |text| - k
  {
    if k == |text| then [] else
    var n := NextHeading(text, k + 1);
    [text[k..n]] + PartsFrom(text, n)
  }

  // ---------------------------------------------------------------- headings and joints

  /** A heading lies on one line, so it never straddles the end of a line. */
  lemma HeadingBefore(a: string, b: string, k: nat)
    requires a != "" && EndsLine(a) && k < |a|
    ensures HeadingAt(a + b, k) <==> HeadingAt(a, k)
  {
    assert (a + b)[|a| - 1] == '\n';
  }

  lemma HeadingAfter(a: string, b: string, k: nat)
    requires 0 < k <= |b| || (k == 0 && EndsLine(a))
    ensures HeadingAt(a + b, |a| + k) <==> HeadingAt(b, k)
  {
  }

  /** Two pieces join into one when the first ends its line and the second opens no heading. */
  lemma WholeJoins(a: string, b: string)
    requires a != "" && EndsLine(a) && Whole(a) && Whole(b) && !OpensHeading(b)
    ensures Whole(a + b) && (OpensHeading(a + b) <==> OpensHeading(a))
  {
    HeadingBefore(a, b, 0);
    forall k | 0 < k < |a + b|
      ensures !HeadingAt(a + b, k)
    {
      if k < |a| {
        HeadingBefore(a, b, k);
      } else {
        HeadingAfter(a, b, k - |a|);
      }
    }
  }

  /** One line holds no heading after its start. */
  lemma LineIsWhole(line: string)
    requires forall j :: 0 <= j < |line| - 1 ==> line[j] != '\n'
    ensures Whole(line)
  {
  }

  // ---------------------------------------------------------------- there is exactly one cut

  /** Between a heading and the next lies one whole part. */
  lemma PieceIsPart(before: string, part: string, rest: string)
    requires part != "" && HeadingAt(before + part + rest, |before|)
    requires rest != "" ==> HeadingAt(before + part + rest, |before + part|)
    requires forall j :: |before| < j < |before + part| ==> !HeadingAt(before + part + rest, j)
    ensures IsPart(part) && (rest != "" ==> EndsLine(part) && OpensHeading(rest))
  {
    var text, front := before + part + rest, before + part;
    if rest == "" {
      assert text == front;
    } else {
      assert front[|front| - 1] == text[|front| - 1];
      HeadingAfter(front, rest, 0);
    }
    forall j | 0 <= j < |part|
      ensures HeadingAt(front, |before| + j) <==> HeadingAt(text, |before| + j)
      ensures 0 < j ==> !HeadingAt(part, j)
    {
      if rest != "" {
        HeadingBefore(front, rest, |before| + j);
      }
      if 0 < j {
        HeadingAfter(before, part, j);
      }
    }
  }

  lemma {:induction false} PartsFromArePieces(text: string, k: nat)
    requires k <= |text| && (k < |text| ==> HeadingAt(text, k))
    ensures AreParts(PartsFrom(text, k)) && Concat(PartsFrom(text, k)) == text[k..]
    decreases |text| - k
  {
    if k < |text| {
      var n := NextHeading(text, k + 1);
      var before, part, rest := text[..k], text[k..n], text[n..];
      assert before + part + rest == text && part + rest == text[k..];
      PieceIsPart(before, part, rest);
      PartsFromArePieces(text, n);
      var others := PartsFrom(text, n);
      assert PartsFrom(text, k) == [part] + others && ([part] + others)[1..] == others;
    }
  }

  /** Up to the first heading there is none. */
  lemma NoneBeforeFirst(text: string, n: nat, j: nat)
    requires n == NextHeading(text, 0) && j < n <= |text|
    ensures !HeadingAt(text[..n], j)
  {
    var before, after := text[..n], text[n..];
    assert text == before + after;
    assert !HeadingAt(text, j);
    if after != "" {
      HeadingBefore(before, after, j);
    } else {
      assert before == text;
    }
  }

  /** The cut that reads headings off the text is one. */
  lemma CutIsCut(text: string)
    ensures IsCut(text, Preamble(text), Parts(text))
  {
    var n := NextHeading(text, 0);
    PartsFromArePieces(text, n);
    assert text == text[..n] + text[n..];
    forall j | 0 <= j < n
      ensures !HeadingAt(text[..n], j)
    {
      NoneBeforeFirst(text, n, j);
    }
  }

  /** The first joint of a cut is the next heading. */
  lemma JointIsHeading(a: string, b: string, k: nat)
    requires k <= |a| && (b != "" ==> EndsLine(a) && (a != "" || k == 0) && OpensHeading(b))
    requires forall j :: k <= j < |a| ==> !HeadingAt(a, j)
    ensures NextHeading(a + b, k) == |a|
  {
    var n := NextHeading(a + b, k);
    assert b == "" ==> a + b == a;
    if n < |a| {
      if b != "" {
        HeadingBefore(a, b, n);
      }
      assert false;
    }
    if b != "" {
      HeadingAfter(a, b, 0);
    }
  }

  lemma NoHeadingInside(before: string, part: string)
    requires Whole(part)
    ensures forall j :: |before| < j < |before + part| ==> !HeadingAt(before + part, j)
  {
    forall j | |before| < j < |before + part|
      ensures !HeadingAt(before + part, j)
    {
      HeadingAfter(before, part, j - |before|);
    }
  }

  /** A part is read up to the next part's heading. */
  lemma PartIsRead(before: string, part: string, rest: string)
    requires IsPart(part) && (rest != "" ==> EndsLine(part) && OpensHeading(rest))
    ensures NextHeading(before + part + rest, |before| + 1) == |before + part|
    ensures (before + part + rest)[|before|..|before + part|] == part
  {
    NoHeadingInside(before, part);
    JointIsHeading(before + part, rest, |before| + 1);
  }

  lemma PartsFromStep(text: string, k: nat, n: nat, part: string, rest: seq<string>)
    requires k < n <= |text| && NextHeading(text, k + 1) == n && text[k..n] == part
    requires PartsFrom(text, n) == rest
    ensures PartsFrom(text, k) == [part] + rest
  {
  }

  lemma {:induction false} PartsAreRead(before: string, parts: seq<string>, text: string)
    requires AreParts(parts) && text == before + Concat(parts)
    ensures PartsFrom(text, |before|) == parts
    decreases |parts|
  {
    if parts != [] {
      var part, others := parts[0], parts[1..];
      var rest := Concat(others);
      assert rest != "" ==> 1 < |parts| && OpensHeading(rest);
      assert text == before + part + rest;
      PartIsRead(before, part, rest);
      PartsAreRead(before + part, others, text);
      PartsFromStep(text, |before|, |before + part|, part, others);
      assert parts == [part] + others;
    }
  }

  /** A text has no other cut. */
  lemma CutIsUnique(text: string, preamble: string, parts: seq<string>)
    requires IsCut(text, preamble, parts)
    ensures preamble == Preamble(text) && parts == Parts(text)
  {
    var rest := Concat(parts);
    assert parts != [] ==> rest == parts[0] + Concat(parts[1..]);
    JointIsHeading(preamble, rest, 0);
    assert text[..|preamble|] == preamble;
    PartsAreRead(preamble, parts, text);
  }

  // ---------------------------------------------------------------- cutting line by line

  /** The end of the line that starts at k, behind its newline when it has one. */
  function LineEnd(text: string, k: nat): (n: nat)
    requires k <= |text|
    ensures k <= n <= |text| && (k < |text| ==> k < n)
    ensures forall j :: k <= j < n - 1 ==> text[j] != '\n'
    ensures n < |text| ==> 0 < n && text[n - 1] == '\n'
    decreases |text| - k
  {
    if k == |text| then k else if text[k] == '\n' then k + 1 else LineEnd(text, k + 1)
  }

  /** The lines with their newlines; a text that ends its last line has one more,
      empty, line behind it. */
  function Lines(text: string): seq<string> {
    var n := LineEnd(text, 0);
    if n == 0 || text[n - 1] != '\n' then [text] else [text[..n]] + Lines(text[n..])
  }

  predicate IsLine(line: string, last: bool) {
    && (forall j :: 0 <= j < |line| - 1 ==> line[j] != '\n')
    && (last || (line != "" && EndsLine(line)))
  }

  predicate AreLines(lines: seq<string>) {
    && lines != [] && IsLine(lines[0], |lines| == 1)
    && (1 < |lines| ==> AreLines(lines[1..]))
  }

  lemma {:induction false} LinesAreTheText(text: string)
    ensures AreLines(Lines(text)) && Concat(Lines(text)) == text
  {
    var n := LineEnd(text, 0);
    if n == 0 || text[n - 1] != '\n' {
      assert [text][1..] == [];
      assert n == |text|;
    } else {
      var line, rest := text[..n], text[n..];
      assert text == line + rest;
      assert IsLine(line, false);
      LinesAreTheText(rest);
      assert ([line] + Lines(rest))[1..] == Lines(rest);
    }
  }

  lemma {:induction false} ConcatAppend(a: seq<string>, b: seq<string>)
    ensures Concat(a + b) == Concat(a) + Concat(b)
  {
    if a == [] {
      assert a + b == b;
    } else {
      assert (a + b)[1..] == a[1..] + b;
      ConcatAppend(a[1..], b);
    }
  }

  predicate ClosedParts(parts: seq<string>) {
    forall i :: 0 <= i < |parts| ==> IsPart(parts[i]) && EndsLine(parts[i])
  }

  lemma {:induction false} ClosedPartsAndLast(parts: seq<string>, last: string)
    requires ClosedParts(parts) && IsPart(last)
    ensures AreParts(parts + [last]) && Concat(parts + [last]) == Concat(parts) + last
  {
    if parts == [] {
      assert parts + [last] == [last] && [last][1..] == [];
    } else {
      assert (parts + [last])[1..] == parts[1..] + [last];
      ClosedPartsAndLast(parts[1..], last);
    }
  }

  lemma LineJoins(cur: string, line: string, last: bool)
    requires Whole(cur) && EndsLine(cur) && IsLine(line, last) && (cur == "" || !OpensHeading(line))
    ensures Whole(cur + line) && (!last ==> EndsLine(cur + line))
    ensures OpensHeading(cur + line) <==> OpensHeading(if cur == "" then line else cur)
  {
    LineIsWhole(line);
    if cur == "" {
      assert cur + line == line;
    } else {
      WholeJoins(cur, line);
    }
  }

  /** Half-way through: what was read so far is the pieces put aside and the piece
      being read. */
  predicate Cutting(read: string, preamble: string, parts: seq<string>, cur: string, started: bool) {
    && read == preamble + Concat(parts) + cur && Whole(cur) && ClosedParts(parts)
    && (started ==> OpensHeading(cur) && Whole(preamble) && EndsLine(preamble) && !OpensHeading(preamble))
    && (!started ==> preamble == "" && parts == [] && !OpensHeading(cur))
  }

  lemma ReadMore(read: string, preamble: string, parts: seq<string>, cur: string, started: bool, line: string,
    last: bool)
    requires Cutting(read, preamble, parts, cur, started) && EndsLine(cur) && IsLine(line, last) && !OpensHeading(line)
    ensures Cutting(read + line, preamble, parts, cur + line, started) && (!last ==> EndsLine(cur + line))
  {
    LineJoins(cur, line, last);
  }

  lemma ReadHeading(read: string, preamble: string, parts: seq<string>, cur: string, started: bool, line: string,
    last: bool)
    requires Cutting(read, preamble, parts, cur, started) && EndsLine(cur) && IsLine(line, last) && OpensHeading(line)
    ensures if started then Cutting(read + line, preamble, parts + [cur], line, true)
            else Cutting(read + line, cur, [], line, true)
  {
    LineIsWhole(line);
    if started {
      ConcatAppend(parts, [cur]);
      assert [cur][1..] == [];
    }
  }

  lemma NextLine(lines: seq<string>, i: nat, read: string, text: string)
    requires i < |lines| && AreLines(lines[i..]) && text == read + Concat(lines[i..])
    ensures text == read + lines[i] + Concat(lines[i + 1..])
    ensures IsLine(lines[i], i == |lines| - 1) && (i + 1 < |lines| ==> AreLines(lines[i + 1..]))
  {
    assert lines[i..][1..] == lines[i + 1..];
  }

  lemma Finished(text: string, lines: seq<string>, read: string, preamble: string, parts: seq<string>, cur: string,
    started: bool)
    requires text == read + Concat(lines[|lines|..]) && Cutting(read, preamble, parts, cur, started)
    ensures Preamble(text) == if started then preamble else cur
    ensures Parts(text) == if started then parts + [cur] else parts
  {
    assert text == read;
    if started {
      ClosedPartsAndLast(parts, cur);
      CutIsUnique(text, preamble, parts + [cur]);
    } else {
      CutIsUnique(text, cur, []);
    }
  }

  method Split(text: string) returns (preamble: string, parts: seq<string>)
    ensures preamble == Preamble(text) && parts == Parts(text)
  {
    var lines := Lines(text);
    LinesAreTheText(text);
    assert lines[0..] == lines;
    var cur, started := "", false;
    preamble, parts := "", [];
    ghost var read := "";
    for i := 0 to |lines|
      invariant text == read + Concat(lines[i..])
      invariant i < |lines| ==> AreLines(lines[i..]) && EndsLine(cur)
      invariant Cutting(read, preamble, parts, cur, started)
    {
      var line := lines[i];
      NextLine(lines, i, read, text);
      preamble, parts, cur, started := Feed(read, preamble, parts, cur, started, line, i == |lines| - 1);
      read := read + line;
    }
    Finished(text, lines, read, preamble, parts, cur, started);
    if started {
      parts := parts + [cur];
    } else {
      preamble := cur;
    }
  }

  /** One line: a heading puts the piece being read aside and starts the next. */
  method Feed(ghost read: string, preamble: string, parts: seq<string>, cur: string, started: bool, line: string,
    ghost last: bool)
      returns (preamble': string, parts': seq<string>, cur': string, started': bool)
    requires Cutting(read, preamble, parts, cur, started) && EndsLine(cur) && IsLine(line, last)
    ensures Cutting(read + line, preamble', parts', cur', started') && (!last ==> EndsLine(cur'))
  {
    preamble', parts', cur', started' := preamble, parts, cur, started;
    if TwoMarks(line, 0) || ThreeMarks(line, 0) {
      ReadHeading(read, preamble, parts, cur, started, line, last);
      if started {
        parts' := parts + [cur];
      } else {
        preamble', started' := cur, true;
      }
      cur' := "";
    } else {
      ReadMore(read, preamble, parts, cur, started, line, last);
    }
    cur' := cur' + line;
    assert "" + line == line;
  }
}
