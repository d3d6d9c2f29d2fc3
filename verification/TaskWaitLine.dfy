/** The command line of a wait: which tasks it follows and for how long. */
module TaskWaitLine {
  import opened Collections
  import opened Flags
  import opened TaskWait
  import Catalog

  const ID_LIMIT: nat := 32
  const TIMEOUT_LIMIT: int := 7200 * SECOND
  const DEFAULT_TIMEOUT: int := 540 * SECOND

  function TrimLeft(s: string): string { if s != "" && Catalog.Space(s[0]) then TrimLeft(s[1..]) else s }

  function TrimRight(s: string): string {
    if s != "" && Catalog.Space(s[|s| - 1]) then TrimRight(s[..|s| - 1]) else s
  }

  function TrimSpace(s: string): string { TrimRight(TrimLeft(s)) }

  predicate AllSpace(s: string) { forall i :: 0 <= i < |s| ==> Catalog.Space(s[i]) }

  lemma {:induction false} LeftIsTrimmed(s: string) returns (a: string)
    ensures AllSpace(a) && s == a + TrimLeft(s) && (TrimLeft(s) == "" || !Catalog.Space(TrimLeft(s)[0]))
  {
    a := "";
    if s != "" && Catalog.Space(s[0]) {
      var rest := LeftIsTrimmed(s[1..]);
      a := [s[0]] + rest;
    }
  }

  lemma {:induction false} RightIsTrimmed(s: string) returns (b: string)
    ensures AllSpace(b) && s == TrimRight(s) + b
    ensures TrimRight(s) == "" || !Catalog.Space(TrimRight(s)[|TrimRight(s)| - 1])
  {
    b := "";
    if s != "" && Catalog.Space(s[|s| - 1]) {
      var rest := RightIsTrimmed(s[..|s| - 1]);
      b := rest + [s[|s| - 1]];
    }
  }

  /** What is trimmed off is white space, and none is left at either end. */
  lemma TrimMeans(s: string) returns (a: string, b: string)
    ensures s == a + TrimSpace(s) + b && AllSpace(a) && AllSpace(b)
    ensures var m := TrimSpace(s); m == "" || (!Catalog.Space(m[0]) && !Catalog.Space(m[|m| - 1]))
  {
    a := LeftIsTrimmed(s);
    b := RightIsTrimmed(TrimLeft(s));
  }

  lemma {:induction false} RestIsNotLonger(spec: Spec, args: seq<string>)
    ensures ParseFlags(spec, args).Parsed? ==> |ParseFlags(spec, args).rest| <= |args|
    decreases |args|
  {
    if args != [] {
      RestIsNotLonger(spec, args[1..]);
      if |args| > 1 {
        RestIsNotLonger(spec, args[2..]);
      }
    }
  }

  /** What was read earlier on the line, put before what is read later. */
  function Before(values: map<string, string>, words: seq<string>, later: Option<(map<string, string>, seq<string>)>):
    Option<(map<string, string>, seq<string>)>
  {
    if later.None? then None else Some((values + later.value.0, words + later.value.1))
  }

  lemma BeforeNothing(later: Option<(map<string, string>, seq<string>)>)
    ensures Before(map[], [], later) == later
  {
    if later.Some? {
      assert map[] + later.value.0 == later.value.0 && [] + later.value.1 == later.value.1;
    }
  }

  lemma BeforeAgain(a: map<string, string>, v: seq<string>, b: map<string, string>, w: seq<string>,
                    later: Option<(map<string, string>, seq<string>)>)
    ensures Before(a, v, Before(b, w, later)) == Before(a + b, v + w, later)
  {
    if later.Some? {
      PlusAssociates(a, b, later.value.0);
      assert v + (w + later.value.1) == v + w + later.value.1;
    }
  }

  /** Flags are read up to a word that is none, which is taken, and on from there. */
  function ReadLine(spec: Spec, args: seq<string>): Option<(map<string, string>, seq<string>)>
    decreases |args|
  {
    RestIsNotLonger(spec, args);
    var parsed := ParseFlags(spec, args);
    if parsed.Failed? then None
    else if parsed.rest == [] then Some((parsed.values, []))
    else Before(parsed.values, [parsed.rest[0]], ReadLine(spec, parsed.rest[1..]))
  }

  /** The first of each, in order, without the empty ones. */
  function Firsts(words: seq<string>): seq<string> {
    if words == [] then [] else
    var (before, id) := (Firsts(words[..|words| - 1]), TrimSpace(words[|words| - 1]));
    if id == "" || id in before then before else before + [id]
  }

  /** Some word, trimmed, is this id. */
  ghost predicate Mentioned(words: seq<string>, id: string) { exists i :: 0 <= i < |words| && TrimSpace(words[i]) == id }

  lemma MentionedLater(words: seq<string>, id: string)
    requires words != []
    ensures Mentioned(words, id) <==>
      Mentioned(words[..|words| - 1], id) || TrimSpace(words[|words| - 1]) == id
  {
    var before := words[..|words| - 1];
    if Mentioned(before, id) {
      var i :| 0 <= i < |before| && TrimSpace(before[i]) == id;
      assert TrimSpace(words[i]) == id;
    }
    if Mentioned(words, id) {
      var i :| 0 <= i < |words| && TrimSpace(words[i]) == id;
      assert i < |before| ==> TrimSpace(before[i]) == id;
    }
  }

  lemma {:induction false} FirstsAreMentioned(words: seq<string>, id: string)
    ensures id in Firsts(words) <==> id != "" && Mentioned(words, id)
  {
    if words != [] {
      FirstsAreMentioned(words[..|words| - 1], id);
      MentionedLater(words, id);
    }
  }

  lemma {:induction false} FirstsAreDistinct(words: seq<string>)
    ensures Distinct(Firsts(words)) && "" !in Firsts(words)
    ensures forall id :: id in Firsts(words) <==> id != "" && Mentioned(words, id)
  {
    if words != [] {
      FirstsAreDistinct(words[..|words| - 1]);
    }
    forall id ensures id in Firsts(words) <==> id != "" && Mentioned(words, id) {
      FirstsAreMentioned(words, id);
    }
  }

  datatype WaitOptions = WaitOptions(ids: seq<string>, timeout: int, anyOne: bool)

  function TimeoutOf(duration: string -> int, values: map<string, string>): int {
    if "timeout" in values then duration(values["timeout"]) else DEFAULT_TIMEOUT
  }

  /** Reads the line; what it accepts is what a wait may be asked to do. */
  method WaitArgs(spec: Spec, duration: string -> int, truth: string -> bool, args: seq<string>)
    returns (opts: Option<WaitOptions>)
    ensures opts.Some? <==>
      && ReadLine(spec, args).Some?
      && 1 <= |Firsts(ReadLine(spec, args).value.1)| <= ID_LIMIT
      && 0 < TimeoutOf(duration, ReadLine(spec, args).value.0) <= TIMEOUT_LIMIT
    ensures opts.Some? ==>
      && opts.value.ids == Firsts(ReadLine(spec, args).value.1)
      && opts.value.timeout == TimeoutOf(duration, ReadLine(spec, args).value.0)
      && opts.value.anyOne == ("any" in ReadLine(spec, args).value.0 && truth(ReadLine(spec, args).value.0["any"]))
    ensures opts.Some? ==> Distinct(opts.value.ids) && opts.value.ids != []
  {
    var values: map<string, string>, words: seq<string>, rest, reading := map[], [], args, true;
    var ids: seq<string> := [];
    BeforeNothing(ReadLine(spec, args));
    while reading
      invariant ids == Firsts(words)
      invariant ReadLine(spec, args) ==
        if reading then Before(values, words, ReadLine(spec, rest)) else Some((values, words))
      decreases reading, |rest|
    {
      var parsed := ParseFlags(spec, rest);
      RestIsNotLonger(spec, rest);
      if parsed.Failed? {
        return None;
      }
      if parsed.rest == [] {
        assert words + [] == words;
        reading := false;
      } else {
        var id := TrimSpace(parsed.rest[0]);
        if id != "" && id !in ids {
          ids := ids + [id];
        }
        assert (words + [parsed.rest[0]])[..|words|] == words;
        BeforeAgain(values, words, parsed.values, [parsed.rest[0]], ReadLine(spec, parsed.rest[1..]));
        words := words + [parsed.rest[0]];
        rest := parsed.rest[1..];
      }
      values := values + parsed.values;
    }
    FirstsAreDistinct(words);
    var timeout := TimeoutOf(duration, values);
    if |ids| == 0 || |ids| > ID_LIMIT || timeout <= 0 || timeout > TIMEOUT_LIMIT {
      return None;
    }
    return Some(WaitOptions(ids, timeout, "any" in values && truth(values["any"])));
  }

  // ---------------------------------------------------------------- any order

  /** A word of the line: a flag, or a task id, which does not look like a flag. */
  datatype Word = Flagged(setting: Setting) | Id(id: string)
  {
    ghost predicate Fits(spec: Spec) { if Flagged? then setting.Fits(spec) else |id| >= 2 ==> id[0] != '-' }

    function Words(): seq<string> { if Flagged? then setting.Words() else [id] }
  }

  function LineWords(line: seq<Word>): seq<string> { if line == [] then [] else line[0].Words() + LineWords(line[1..]) }

  function LineIds(line: seq<Word>): seq<string> {
    if line == [] then [] else (if line[0].Id? then [line[0].id] else []) + LineIds(line[1..])
  }

  function LineSettings(line: seq<Word>): seq<Setting> {
    if line == [] then [] else (if line[0].Flagged? then [line[0].setting] else []) + LineSettings(line[1..])
  }

  /** Wherever the flags stand among the ids, the line means the same. */
  lemma {:induction false} AnyOrder(spec: Spec, line: seq<Word>)
    requires forall i :: 0 <= i < |line| ==> line[i].Fits(spec)
    ensures ReadLine(spec, LineWords(line)) == Some((Meaning(LineSettings(line)), LineIds(line)))
  {
    if line != [] {
      var rest := LineWords(line[1..]);
      AnyOrder(spec, line[1..]);
      LineMeans(line);
      if line[0].Flagged? {
        FlagThenRest(spec, line[0].setting, rest);
      } else {
        IdThenRest(spec, line[0].id, rest);
      }
    }
  }

  lemma LineMeans(line: seq<Word>)
    requires line != []
    ensures Some((Meaning(LineSettings(line)), LineIds(line))) ==
      var later := Some((Meaning(LineSettings(line[1..])), LineIds(line[1..])));
      if line[0].Flagged? then Before(map[line[0].setting.name := line[0].setting.Value()], [], later)
      else Before(map[], [line[0].id], later)
  {
    if line[0].Flagged? {
      var settings := LineSettings(line);
      assert settings[0] == line[0].setting && settings[1..] == LineSettings(line[1..]);
    } else {
      assert LineSettings(line) == LineSettings(line[1..]);
      var tail := Meaning(LineSettings(line[1..]));
      assert map[] + tail == tail;
    }
  }

  lemma IdThenRest(spec: Spec, id: string, rest: seq<string>)
    requires |id| >= 2 ==> id[0] != '-'
    ensures ReadLine(spec, [id] + rest) == Before(map[], [id], ReadLine(spec, rest))
  {
    assert ([id] + rest)[1..] == rest;
  }

  lemma FlagThenRest(spec: Spec, setting: Setting, rest: seq<string>)
    requires setting.Fits(spec)
    ensures ReadLine(spec, setting.Words() + rest) == Before(map[setting.name := setting.Value()], [],
      ReadLine(spec, rest))
  {
    ParseOne(spec, setting, rest);
    var parsed, first := ParseFlags(spec, rest), map[setting.name := setting.Value()];
    var none: seq<string> := [];
    assert none + none == none;
    if parsed.Parsed? && parsed.rest != [] {
      BeforeAgain(first, [], parsed.values, [parsed.rest[0]], ReadLine(spec, parsed.rest[1..]));
      assert [] + [parsed.rest[0]] == [parsed.rest[0]];
    }
  }
}
