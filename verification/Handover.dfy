/** Handing a wait to a callback: the command line `heavy` and `coordination run`
    build, and what the other end reads from it. */
module Handover {
  import opened Collections
  import opened LeaseWorld
  import opened Flags
  import Catalog

  /** A float64 that was read. */
  datatype Float = Finite(value: real) | Infinite(below: bool) | NotANumber
  {
    predicate Negative() { (Finite? && value < 0.0) || (Infinite? && below) }
  }

  /** How Go prints and reads durations, integers, floats and paths; `tidy` trims and
      raises to upper case, and `outOfRange` is what becomes of a float too large for
      an int64, which Go leaves to the machine. */
  datatype Texts = Texts(
    showDuration: int -> string, readDuration: string -> Option<int>,
    showInt: int -> string, readInt: string -> Option<int>,
    tidy: string -> string, readFloat: string -> Option<Float>, outOfRange: (Float, int) -> int,
    abs: string -> string)

  const INT64_END: int := 0x8000_0000_0000_0000

  predicate IsInt64(n: int) { -INT64_END <= n < INT64_END }

  lemma Int64Means(n: int)
    ensures IsInt64(n) <==> -9_223_372_036_854_775_808 <= n <= 9_223_372_036_854_775_807
  {
  }

  // ---------------------------------------------------------------- sizes

  predicate Ends(s: string, suffix: string) { |suffix| <= |s| && s[|s| - |suffix|..] == suffix }

  function TrimSuffix(s: string, suffix: string): string { if Ends(s, suffix) then s[..|s| - |suffix|] else s }

  /** How many bytes the unit at the end stands for, and the text before it. */
  function Unit(s: string): (int, string) {
    if Ends(s, "G") then (0x4000_0000, TrimSuffix(s, "G"))
    else if Ends(s, "M") then (0x10_0000, TrimSuffix(s, "M"))
    else if Ends(s, "K") then (0x400, TrimSuffix(s, "K"))
    else (1, s)
  }

  function Int64Of(t: Texts, f: Float, mult: int): int {
    if f.Finite? && f.value * mult as real < INT64_END as real then (f.value * mult as real).Floor
    else t.outOfRange(f, mult)
  }

  /** A size such as 1500M; None is the usage error. */
  function ParseBytes(t: Texts, text: string): Option<int> {
    var s := t.tidy(text);
    if s == "" then Some(0)
    else
      var (mult, number) := Unit(TrimSuffix(TrimSuffix(s, "IB"), "B"));
      var f := t.readFloat(number);
      if f.None? || f.value.Negative() then None else Some(Int64Of(t, f.value, mult))
  }

  predicate EndsWithDigit(s: string) { s != "" && '0' <= s[|s| - 1] <= '9' }

  /** Durations and integers that are printed are read back. */
  ghost predicate ReadsNumbers(t: Texts) {
    && (forall d :: IsInt64(d) ==> t.readDuration(t.showDuration(d)) == Some(d))
    && (forall n :: IsInt64(n) ==> t.readInt(t.showInt(n)) == Some(n))
  }

  /** So is, as a float, the whole part of a float scaled by a power of two: it is a
      float itself. A result out of range is printed as an int64 like any other and, if
      positive, is out of range again. */
  ghost predicate ReadsSizes(t: Texts) {
    && t.tidy("") == ""
    && (forall n :: IsInt64(n) ==> t.tidy(t.showInt(n)) == t.showInt(n) && EndsWithDigit(t.showInt(n)))
    && (forall n :: IsInt64(n) && n < 0 ==>
      t.readFloat(t.showInt(n)).Some? && t.readFloat(t.showInt(n)).value.Negative())
    && (forall s :: t.readFloat(s).Some? ==>
          forall mult :: mult in [1, 0x400, 0x10_0000, 0x4000_0000] ==> ReadsAgain(t, t.readFloat(s).value, mult))
  }

  ghost predicate Faithful(t: Texts) { ReadsNumbers(t) && ReadsSizes(t) }

  ghost predicate ReadsAgain(t: Texts, f: Float, mult: int) {
    var n := Int64Of(t, f, mult);
    !f.Negative() ==>
      && IsInt64(n)
      && (n > 0 ==> t.readFloat(t.showInt(n)).Some? && var g := t.readFloat(t.showInt(n)).value;
            !g.Negative() && Int64Of(t, g, 1) == n)
  }

  lemma DigitIsNoSuffix(s: string, suffix: string)
    requires EndsWithDigit(s) && suffix != "" && !EndsWithDigit(suffix)
    ensures !Ends(s, suffix)
  {
    if |suffix| <= |s| {
      assert s[|s| - |suffix|..][|suffix| - 1] == s[|s| - 1];
    }
  }

  lemma DigitsHaveNoUnit(s: string)
    requires EndsWithDigit(s)
    ensures TrimSuffix(TrimSuffix(s, "IB"), "B") == s && Unit(s) == (1, s)
  {
    DigitIsNoSuffix(s, "IB");
    DigitIsNoSuffix(s, "B");
    DigitIsNoSuffix(s, "G");
    DigitIsNoSuffix(s, "M");
    DigitIsNoSuffix(s, "K");
  }

  lemma EndsBehind(s: string, suffix: string)
    ensures Ends(s + suffix, suffix) && TrimSuffix(s + suffix, suffix) == s
  {
    assert (s + suffix)[|s|..] == suffix && (s + suffix)[..|s|] == s;
  }

  lemma LastIsNoSuffix(s: string, suffix: string)
    requires s != "" && suffix != "" && suffix[|suffix| - 1] != s[|s| - 1]
    ensures !Ends(s, suffix)
  {
    if |suffix| <= |s| {
      assert s[|s| - |suffix|..][|suffix| - 1] == s[|s| - 1];
    }
  }

  lemma BehindNoI(s: string)
    requires s != "" && s[|s| - 1] != 'I'
    ensures !Ends(s + "B", "IB")
  {
    var text := s + "B";
    assert text[|text| - 2..] == [s[|s| - 1], 'B'];
  }

  /** A B or an iB behind it is cut off. */
  lemma TailIsTrimmed(s: string, tail: string)
    requires s != "" && s[|s| - 1] != 'I' && s[|s| - 1] != 'B' && tail in ["", "B", "IB"]
    ensures TrimSuffix(TrimSuffix(s + tail, "IB"), "B") == s
  {
    LastIsNoSuffix(s, "B");
    LastIsNoSuffix(s, "IB");
    if tail == "" {
      assert s + tail == s;
    } else if tail == "B" {
      EndsBehind(s, "B");
      BehindNoI(s);
    } else {
      EndsBehind(s, "IB");
    }
  }

  lemma UnitIsRead(number: string, unit: string)
    requires EndsWithDigit(number) && unit in ["", "K", "M", "G"]
    ensures var s := number + unit;
      && s != "" && s[|s| - 1] != 'I' && s[|s| - 1] != 'B' && Unit(s).1 == number
      && Unit(s).0 ==
        if unit == "" then 1 else if unit == "K" then 1024 else if unit == "M" then 1_048_576 else 1_073_741_824
  {
    var s := number + unit;
    if unit == "" {
      assert s == number;
      DigitsHaveNoUnit(number);
    } else {
      assert s[|s| - 1] == unit[0];
      EndsBehind(number, unit);
      if unit != "G" {
        LastIsNoSuffix(s, "G");
        if unit != "M" {
          LastIsNoSuffix(s, "M");
        }
      }
    }
  }

  /** A number and one of four units, with or without a B or an iB behind it, however it is
      spaced and cased, is that many bytes, kibibytes, mebibytes or gibibytes, rounded down. */
  lemma SizesRead(t: Texts, text: string, number: string, value: real, unit: string, tail: string)
    requires EndsWithDigit(number) && t.readFloat(number) == Some(Finite(value)) && 0.0 <= value
    requires value * 1_073_741_824.0 < 9_223_372_036_854_775_808.0
    requires unit in ["", "K", "M", "G"] && tail in ["", "B", "IB"] && t.tidy(text) == number + unit + tail
    ensures ParseBytes(t, text) ==
      if unit == "" then Some(value.Floor)
      else if unit == "K" then Some((value * 1024.0).Floor)
      else if unit == "M" then Some((value * 1_048_576.0).Floor)
      else Some((value * 1_073_741_824.0).Floor)
  {
    UnitIsRead(number, unit);
    TailIsTrimmed(number + unit, tail);
    SizeOf(t, text, number + unit, value);
    InRange(t, value, Unit(number + unit).0);
    assert value * 1.0 == value;
  }

  lemma SizeOf(t: Texts, text: string, s: string, value: real)
    requires t.tidy(text) != "" && TrimSuffix(TrimSuffix(t.tidy(text), "IB"), "B") == s
    requires t.readFloat(Unit(s).1) == Some(Finite(value)) && 0.0 <= value
    ensures ParseBytes(t, text) == Some(Int64Of(t, Finite(value), Unit(s).0))
  {
  }

  /** A size below zero is refused; one that is no number, or too large a one, is what the
      machine makes of it. */
  lemma OtherSizes(t: Texts, text: string)
    requires t.tidy(text) != ""
    ensures var (mult, number) := Unit(TrimSuffix(TrimSuffix(t.tidy(text), "IB"), "B"));
      && (t.readFloat(number).None? || t.readFloat(number) == Some(Infinite(true)) ==> ParseBytes(t, text) == None)
      && (forall v :: t.readFloat(number) == Some(Finite(v)) && v < 0.0 ==> ParseBytes(t, text) == None)
      && (t.readFloat(number) in {Some(Infinite(false)), Some(NotANumber)} ==>
            ParseBytes(t, text) == Some(t.outOfRange(t.readFloat(number).value, mult)))
  {
  }

  lemma InRange(t: Texts, value: real, mult: int)
    requires 0.0 <= value && value * 1_073_741_824.0 < 9_223_372_036_854_775_808.0
    requires mult in [1, 1024, 1_048_576, 1_073_741_824]
    ensures Int64Of(t, Finite(value), mult) == (value * mult as real).Floor
  {
    assert value * mult as real <= value * 1_073_741_824.0;
  }

  /** A size that was read is refused when it is printed and read again exactly if it
      came out negative, which is what too large a size may do. */
  lemma SizeIsReadAgain(t: Texts, text: string, size: int)
    requires ReadsSizes(t) && ParseBytes(t, text) == Some(size)
    ensures IsInt64(size) && ParseBytes(t, "") == Some(0)
    ensures size != 0 ==> ParseBytes(t, t.showInt(size)) == if size < 0 then None else Some(size)
  {
    var s := t.tidy(text);
    if s != "" {
      var (mult, number) := Unit(TrimSuffix(TrimSuffix(s, "IB"), "B"));
      assert mult in [1, 0x400, 0x10_0000, 0x4000_0000];
      assert ReadsAgain(t, t.readFloat(number).value, mult);
      DigitsHaveNoUnit(t.showInt(size));
    }
  }

  // ---------------------------------------------------------------- clawdline callback

  datatype Intent = WaitIntent | HeavyIntent

  datatype Invocation = Invocation(
    port: int, title: string, intent: Intent, timeout: int, dir: string, argv: seq<string>)

  function ReadBool(s: string): Option<bool> {
    if s in ["1", "t", "T", "true", "TRUE", "True"] then Some(true)
    else if s in ["0", "f", "F", "false", "FALSE", "False"] then Some(false)
    else None
  }

  lemma BoolsAre(s: string)
    ensures ReadBool(s) == Some(true) <==> s in {"1", "T", "TRUE", "True", "t", "true"}
    ensures ReadBool(s) == Some(false) <==> s in {"0", "F", "FALSE", "False", "f", "false"}
  {
  }

  /** The flags of a callback: two take a number or a duration, six any text, and one
      stands alone. */
  lemma CallbackFlags(t: Texts, v: string)
    ensures CallbackSpec(t).Keys ==
      {"port", "title", "intent", "timeout", "work-id", "dir", "task-id", "conversation", "json"}
    ensures forall name :: name in {"title", "intent", "work-id", "dir", "task-id", "conversation"} ==>
      CallbackSpec(t)[name].Valued? && CallbackSpec(t)[name].accepts(v)
    ensures CallbackSpec(t)["port"].Valued? && CallbackSpec(t)["timeout"].Valued? && CallbackSpec(t)["json"].Switch?
    ensures CallbackSpec(t)["port"].accepts(v) <==> t.readInt(v).Some?
    ensures CallbackSpec(t)["timeout"].accepts(v) <==> t.readDuration(v).Some?
    ensures CallbackSpec(t)["json"].accepts(v) <==> ReadBool(v).Some?
  {
  }

  function CallbackSpec(t: Texts): Spec {
    map["port" := Valued(s => t.readInt(s).Some?),
        "title" := Valued(_ => true),
        "intent" := Valued(_ => true),
        "timeout" := Valued(s => t.readDuration(s).Some?),
        "work-id" := Valued(_ => true),
        "dir" := Valued(_ => true),
        "task-id" := Valued(_ => true),
        "conversation" := Valued(_ => true),
        "json" := Switch(s => ReadBool(s).Some?)]
  }

  function Get(values: map<string, string>, name: string, default: string): string {
    if name in values then values[name] else default
  }

  function GetInt(read: string -> Option<int>, values: map<string, string>, name: string, default: int): int {
    if name in values && read(values[name]).Some? then read(values[name]).value else default
  }

  /** The callback that the flags and the words behind them ask for; None is its
      refusal. A work item or task id that is given must be one, which `isTaskID`
      decides. */
  function Accept(t: Texts, isTaskID: string -> bool, values: map<string, string>, argv: seq<string>, cwd: string)
    : Option<Invocation>
  {
    var title, intent := Get(values, "title", ""), Get(values, "intent", "wait");
    var timeout := GetInt(t.readDuration, values, "timeout", 30 * MINUTE);
    var workID, taskID := Get(values, "work-id", ""), Get(values, "task-id", "");
    var dir := Get(values, "dir", "");
    if argv == [] || Catalog.Blank(title) || (intent != "wait" && intent != "heavy")
       || timeout < MINUTE || timeout > 240 * MINUTE
       || (workID != "" && !isTaskID(workID)) || (taskID != "" && !isTaskID(taskID))
    then None
    else Some(Invocation(GetInt(t.readInt, values, "port", 0), title,
                         if intent == "heavy" then HeavyIntent else WaitIntent,
                         timeout, t.abs(if dir == "" then cwd else dir), argv))
  }

  /** A callback is refused unless there is a command, a title that is not blank, one of
      two intents, between a minute and four hours, and ids that are ids. */
  lemma AcceptMeans(t: Texts, isTaskID: string -> bool, values: map<string, string>, argv: seq<string>, cwd: string)
    ensures Accept(t, isTaskID, values, argv, cwd).Some? <==>
      && 0 < |argv| && (exists c :: c in Get(values, "title", "") && !Catalog.Space(c))
      && ("intent" in values ==> values["intent"] in {"heavy", "wait"})
      && 60_000_000_000 <= GetInt(t.readDuration, values, "timeout", 1_800_000_000_000) <= 14_400_000_000_000
      && ("work-id" in values ==> values["work-id"] == "" || isTaskID(values["work-id"]))
      && ("task-id" in values ==> values["task-id"] == "" || isTaskID(values["task-id"]))
    ensures Accept(t, isTaskID, values, argv, cwd).Some? ==>
      var taken := Accept(t, isTaskID, values, argv, cwd).value;
      && taken.argv == argv && taken.title == Get(values, "title", "")
      && taken.port == GetInt(t.readInt, values, "port", 0)
      && (taken.intent.HeavyIntent? <==> "intent" in values && values["intent"] == "heavy")
      && taken.timeout == GetInt(t.readDuration, values, "timeout", 1_800_000_000_000)
      && taken.dir == t.abs(if "dir" in values && values["dir"] != "" then values["dir"] else cwd)
  {
  }

  function CallbackArgs(t: Texts, isTaskID: string -> bool, args: seq<string>, cwd: string): Option<Invocation> {
    match ParseFlags(CallbackSpec(t), args)
    case Failed => None
    case Parsed(values, argv) => Accept(t, isTaskID, values, argv, cwd)
  }

  // ---------------------------------------------------------------- clawdline heavy

  datatype HeavyLine = HeavyLine(
    reason: string, floor: int, wait: int, compile: bool, noSlot: bool, handoff: bool, port: int)

  function HeavySpec(t: Texts): Spec {
    map["reason" := Valued(_ => true),
        "min-available" := Valued(_ => true),
        "max-wait" := Valued(s => t.readDuration(s).Some?),
        "compile" := Switch(s => ReadBool(s).Some?),
        "no-slot" := Switch(s => ReadBool(s).Some?),
        "handoff" := Switch(s => ReadBool(s).Some?),
        "port" := Valued(s => t.readInt(s).Some?)]
  }

  lemma HeavyFlags(t: Texts, v: string)
    ensures HeavySpec(t).Keys == {"reason", "min-available", "max-wait", "compile", "no-slot", "handoff", "port"}
    ensures forall name :: name in {"reason", "min-available"} ==>
      HeavySpec(t)[name].Valued? && HeavySpec(t)[name].accepts(v)
    ensures forall name :: name in {"compile", "no-slot", "handoff"} ==>
      HeavySpec(t)[name].Switch? && (HeavySpec(t)[name].accepts(v) <==> ReadBool(v).Some?)
    ensures HeavySpec(t)["max-wait"].Valued? && HeavySpec(t)["port"].Valued?
    ensures HeavySpec(t)["max-wait"].accepts(v) <==> t.readDuration(v).Some?
    ensures HeavySpec(t)["port"].accepts(v) <==> t.readInt(v).Some?
  {
  }

  function GetBool(values: map<string, string>, name: string, default: bool): bool {
    if name in values && ReadBool(values[name]).Some? then ReadBool(values[name]).value else default
  }

  /** The words after `heavy`, as it reads them; None is its usage message. */
  function HeavyArgs(t: Texts, args: seq<string>): Option<(HeavyLine, seq<string>)> {
    match ParseFlags(HeavySpec(t), args)
    case Failed => None
    case Parsed(values, argv) =>
      var size := ParseBytes(t, Get(values, "min-available", ""));
      if argv == [] || size.None? then None else
      Some((HeavyLine(Get(values, "reason", ""), size.value, GetInt(t.readDuration, values, "max-wait", 30 * MINUTE),
                      GetBool(values, "compile", false), GetBool(values, "no-slot", false),
                      GetBool(values, "handoff", true), GetInt(t.readInt, values, "port", 0)), argv))
  }

  lemma NoFlags(spec: Spec, argv: seq<string>)
    ensures ParseFlags(spec, ["--"] + argv) == Parsed(map[], argv)
  {
    assert (["--"] + argv)[1..] == argv;
  }

  /** Without any flag: half an hour, a hand-over if there is a wait, and nothing else. */
  lemma HeavyDefaults(t: Texts, argv: seq<string>)
    requires argv != [] && t.tidy("") == ""
    ensures HeavyArgs(t, ["--"] + argv) ==
      Some((HeavyLine("", 0, 1_800_000_000_000, false, false, true, 0), argv))
    ensures HeavyArgs(t, ["--"]) == None
  {
    NoFlags(HeavySpec(t), argv);
    NoFlags(HeavySpec(t), []);
    assert ["--"] + [] == ["--"] && ParseBytes(t, "") == Some(0);
  }

  // ---------------------------------------------------------------- what heavy hands over

  /** The callback's time: the wait and an hour, in int64, within what a callback
      permits, rounded up to whole minutes. */
  function Timeout(wait: int): int {
    var timeout := Wrap64(wait + HOUR);
    var most := if timeout > 240 * MINUTE then 240 * MINUTE else timeout;
    var least := if most < MINUTE then MINUTE else most;
    (least + MINUTE - 1) / MINUTE * MINUTE
  }

  lemma TimeoutIsWholeMinutes(wait: int)
    ensures exists minutes :: 1 <= minutes <= 240 && Timeout(wait) == minutes * MINUTE
    ensures IsInt64(wait + HOUR) && MINUTE <= wait + HOUR <= 240 * MINUTE ==>
      wait + HOUR <= Timeout(wait) < wait + HOUR + MINUTE
  {
    var timeout := Wrap64(wait + HOUR);
    var most := if timeout > 240 * MINUTE then 240 * MINUTE else timeout;
    var least := if most < MINUTE then MINUTE else most;
    assert 1 <= (least + MINUTE - 1) / MINUTE <= 240;
  }

  const TITLE := "Queued heavy command finished"

  function CallbackPart(t: Texts, line: HeavyLine, cwd: string): seq<Entry> {
    [Entry(true, Pass("title", TITLE)),
     Entry(true, Pass("intent", "heavy")),
     Entry(true, Pass("timeout", t.showDuration(Timeout(line.wait)))),
     Entry(true, Pass("dir", cwd)),
     Entry(line.port != 0, Pass("port", t.showInt(line.port)))]
  }

  function HeavyPart(t: Texts, line: HeavyLine): seq<Entry> {
    [Entry(line.reason != "", Pass("reason", line.reason)),
     Entry(line.floor != 0, Pass("min-available", t.showInt(line.floor))),
     Entry(true, Pass("max-wait", t.showDuration(line.wait))),
     Entry(true, Assign("handoff", "false")),
     Entry(line.compile, On("compile")),
     Entry(line.noSlot, On("no-slot"))]
  }

  /** The words after the program and `heavy`: this command over again. */
  function InnerWords(t: Texts, line: HeavyLine, argv: seq<string>): seq<string> {
    Render(Said(HeavyPart(t, line))) + ["--"] + argv
  }

  function HandoverLine(t: Texts, line: HeavyLine, argv: seq<string>, executable: string, cwd: string): seq<string> {
    Render(Said(CallbackPart(t, line, cwd))) + ["--"] + ([executable, "heavy"] + InnerWords(t, line, argv))
  }

  /** Appends a flag's words when there is something to say. */
  method Add(cmd: seq<string>, ghost line: seq<Entry>, e: Entry) returns (more: seq<string>, ghost longer: seq<Entry>)
    requires cmd == Render(Said(line))
    ensures longer == line + [e] && more == Render(Said(longer))
  {
    more, longer := cmd, line + [e];
    assert [e][1..] == [];
    SaidAppend(line, [e]);
    RenderAppend(Said(line), Said([e]));
    if e.say {
      more := more + e.setting.Words();
      assert Said([e]) == [e.setting] && [e.setting][1..] == [];
    }
  }

  method CallbackWords(t: Texts, line: HeavyLine, cwd: string) returns (cmd: seq<string>)
    ensures cmd == Render(Said(CallbackPart(t, line, cwd)))
  {
    ghost var part;
    cmd, part := Add([], [], Entry(true, Pass("title", TITLE)));
    cmd, part := Add(cmd, part, Entry(true, Pass("intent", "heavy")));
    cmd, part := Add(cmd, part, Entry(true, Pass("timeout", t.showDuration(Timeout(line.wait)))));
    cmd, part := Add(cmd, part, Entry(true, Pass("dir", cwd)));
    cmd, part := Add(cmd, part, Entry(line.port != 0, Pass("port", t.showInt(line.port))));
    assert part == CallbackPart(t, line, cwd);
  }

  method HeavyWords(t: Texts, line: HeavyLine) returns (cmd: seq<string>)
    ensures cmd == Render(Said(HeavyPart(t, line)))
  {
    ghost var part;
    cmd, part := Add([], [], Entry(line.reason != "", Pass("reason", line.reason)));
    cmd, part := Add(cmd, part, Entry(line.floor != 0, Pass("min-available", t.showInt(line.floor))));
    cmd, part := Add(cmd, part, Entry(true, Pass("max-wait", t.showDuration(line.wait))));
    cmd, part := Add(cmd, part, Entry(true, Assign("handoff", "false")));
    cmd, part := Add(cmd, part, Entry(line.compile, On("compile")));
    cmd, part := Add(cmd, part, Entry(line.noSlot, On("no-slot")));
    assert part == HeavyPart(t, line);
  }

  /** The whole command line: a callback whose command is this one over again. */
  method BuildHandover(t: Texts, line: HeavyLine, argv: seq<string>, executable: string, cwd: string)
      returns (cmd: seq<string>)
    ensures cmd == HandoverLine(t, line, argv, executable, cwd)
  {
    cmd := CallbackWords(t, line, cwd);
    cmd := cmd + ["--", executable, "heavy"];
    var flags := HeavyWords(t, line);
    cmd := cmd + flags + ["--"];
    cmd := cmd + argv;
  }

  // ---------------------------------------------------------------- and the other end reads

  lemma TextFits(t: Texts, value: string)
    ensures Pass("title", value).Fits(CallbackSpec(t)) && Pass("intent", value).Fits(CallbackSpec(t))
    ensures Pass("dir", value).Fits(CallbackSpec(t)) && Pass("reason", value).Fits(HeavySpec(t))
    ensures Pass("min-available", value).Fits(HeavySpec(t))
  {
  }

  lemma NumberFits(t: Texts, n: int)
    requires ReadsNumbers(t) && IsInt64(n)
    ensures Pass("timeout", t.showDuration(n)).Fits(CallbackSpec(t)) && Pass("port", t.showInt(n)).Fits(CallbackSpec(t))
    ensures Pass("max-wait", t.showDuration(n)).Fits(HeavySpec(t))
  {
  }

  lemma SwitchFits(t: Texts)
    ensures Assign("handoff", "false").Fits(HeavySpec(t))
    ensures On("compile").Fits(HeavySpec(t)) && On("no-slot").Fits(HeavySpec(t))
  {
  }

  lemma CallbackEntryFits(t: Texts, line: HeavyLine, cwd: string, i: nat)
    requires ReadsNumbers(t) && IsInt64(line.port) && i < |CallbackPart(t, line, cwd)|
    ensures CallbackPart(t, line, cwd)[i].setting.Fits(CallbackSpec(t))
  {
    if i == 0 {
      TextFits(t, TITLE);
    } else if i == 1 {
      TextFits(t, "heavy");
    } else if i == 2 {
      TimeoutIsWholeMinutes(line.wait);
      NumberFits(t, Timeout(line.wait));
    } else if i == 3 {
      TextFits(t, cwd);
    } else {
      NumberFits(t, line.port);
    }
  }

  lemma CallbackPartFits(t: Texts, spec: Spec, line: HeavyLine, cwd: string)
    requires ReadsNumbers(t) && IsInt64(line.port) && spec == CallbackSpec(t)
    ensures AllFit(spec, Said(CallbackPart(t, line, cwd)))
  {
    var part := CallbackPart(t, line, cwd);
    forall i | 0 <= i < |part| ensures part[i].setting.Fits(spec) {
      CallbackEntryFits(t, line, cwd, i);
    }
    SaidFits(spec, part);
  }

  lemma HeavyPartFits(t: Texts, spec: Spec, line: HeavyLine)
    requires ReadsNumbers(t) && IsInt64(line.wait) && spec == HeavySpec(t)
    ensures AllFit(spec, Said(HeavyPart(t, line)))
  {
    TextFits(t, line.reason);
    TextFits(t, t.showInt(line.floor));
    NumberFits(t, line.wait);
    SwitchFits(t);
    SaidFits(spec, HeavyPart(t, line));
  }

  lemma PartsAreDistinct(t: Texts, line: HeavyLine, cwd: string)
    ensures NamedOnce(CallbackPart(t, line, cwd)) && NamedOnce(HeavyPart(t, line))
  {
  }

  lemma CallbackTextsRead(t: Texts, line: HeavyLine, cwd: string)
    ensures var values := Meaning(Said(CallbackPart(t, line, cwd)));
      && Get(values, "title", "") == TITLE && Get(values, "intent", "wait") == "heavy"
      && Get(values, "dir", "") == cwd && "work-id" !in values && "task-id" !in values
  {
    var part := CallbackPart(t, line, cwd);
    PartsAreDistinct(t, line, cwd);
    ReadBack(part, 0);
    ReadBack(part, 1);
    ReadBack(part, 3);
    NotRead(part, "work-id");
    NotRead(part, "task-id");
  }

  lemma CallbackNumbersRead(t: Texts, line: HeavyLine, cwd: string)
    requires ReadsNumbers(t) && IsInt64(line.port)
    ensures var values := Meaning(Said(CallbackPart(t, line, cwd)));
      && GetInt(t.readDuration, values, "timeout", 30 * MINUTE) == Timeout(line.wait)
      && GetInt(t.readInt, values, "port", 0) == line.port
  {
    var part := CallbackPart(t, line, cwd);
    TimeoutIsWholeMinutes(line.wait);
    PartsAreDistinct(t, line, cwd);
    ReadBack(part, 2);
    ReadBack(part, 4);
  }

  lemma HeavySizeReads(t: Texts, line: HeavyLine, size: string)
    requires ReadsSizes(t) && ParseBytes(t, size) == Some(line.floor)
    ensures ParseBytes(t, Get(Meaning(Said(HeavyPart(t, line))), "min-available", ""))
      == if line.floor < 0 then None else Some(line.floor)
  {
    SizeIsReadAgain(t, size, line.floor);
    PartsAreDistinct(t, line, "");
    ReadBack(HeavyPart(t, line), 1);
  }

  lemma HeavyValuesRead(t: Texts, line: HeavyLine)
    requires ReadsNumbers(t) && IsInt64(line.wait)
    ensures var values := Meaning(Said(HeavyPart(t, line)));
      && Get(values, "reason", "") == line.reason
      && GetInt(t.readDuration, values, "max-wait", 30 * MINUTE) == line.wait
      && "port" !in values
  {
    var part := HeavyPart(t, line);
    PartsAreDistinct(t, line, "");
    ReadBack(part, 0);
    ReadBack(part, 2);
    NotRead(part, "port");
  }

  lemma HeavySwitchesRead(t: Texts, line: HeavyLine)
    ensures var values := Meaning(Said(HeavyPart(t, line)));
      && GetBool(values, "compile", false) == line.compile && GetBool(values, "no-slot", false) == line.noSlot
      && !GetBool(values, "handoff", true)
  {
    var part := HeavyPart(t, line);
    PartsAreDistinct(t, line, "");
    ReadBack(part, 3);
    ReadBack(part, 4);
    ReadBack(part, 5);
    assert ReadBool("false") == Some(false) && ReadBool("true") == Some(true);
  }

  lemma TitleSaysSomething()
    ensures !Catalog.Blank(TITLE)
  {
    assert TITLE[0] == 'Q' && !Catalog.Space('Q');
  }

  lemma TimeoutIsPermitted(wait: int)
    ensures MINUTE <= Timeout(wait) <= 240 * MINUTE
  {
    TimeoutIsWholeMinutes(wait);
  }

  lemma IsAccepted(t: Texts, isTaskID: string -> bool, values: map<string, string>, words: seq<string>, title: string,
    timeout: int, port: int, cwd: string)
    requires Get(values, "title", "") == title && !Catalog.Blank(title) && Get(values, "intent", "wait") == "heavy"
    requires Get(values, "dir", "") == cwd && "work-id" !in values && "task-id" !in values
    requires GetInt(t.readDuration, values, "timeout", 30 * MINUTE) == timeout && MINUTE <= timeout <= 240 * MINUTE
    requires GetInt(t.readInt, values, "port", 0) == port
    requires words != [] && cwd != "" && t.abs(cwd) == cwd
    ensures Accept(t, isTaskID, values, words, cwd) == Some(Invocation(port, title, HeavyIntent, timeout, cwd, words))
  {
  }

  lemma HandoverIsAccepted(t: Texts, isTaskID: string -> bool, line: HeavyLine, values: map<string, string>,
    words: seq<string>, cwd: string)
    requires Get(values, "title", "") == TITLE && Get(values, "intent", "wait") == "heavy"
    requires Get(values, "dir", "") == cwd && "work-id" !in values && "task-id" !in values
    requires GetInt(t.readDuration, values, "timeout", 30 * MINUTE) == Timeout(line.wait)
    requires GetInt(t.readInt, values, "port", 0) == line.port
    requires words != [] && cwd != "" && t.abs(cwd) == cwd
    ensures Accept(t, isTaskID, values, words, cwd)
         == Some(Invocation(line.port, TITLE, HeavyIntent, Timeout(line.wait), cwd, words))
  {
    TimeoutIsPermitted(line.wait);
    TitleSaysSomething();
    IsAccepted(t, isTaskID, values, words, TITLE, Timeout(line.wait), line.port, cwd);
  }

  /** The callback is never refused for its command line, and it runs `heavy` with
      exactly the words handed over. */
  lemma CallbackTakesHandover(t: Texts, isTaskID: string -> bool, line: HeavyLine, argv: seq<string>,
    executable: string, cwd: string)
    requires ReadsNumbers(t) && IsInt64(line.port) && cwd != "" && t.abs(cwd) == cwd
    ensures CallbackArgs(t, isTaskID, HandoverLine(t, line, argv, executable, cwd), cwd)
         == Some(Invocation(line.port, TITLE, HeavyIntent, Timeout(line.wait), cwd,
                            [executable, "heavy"] + InnerWords(t, line, argv)))
  {
    var part, words := Said(CallbackPart(t, line, cwd)), [executable, "heavy"] + InnerWords(t, line, argv);
    CallbackPartFits(t, CallbackSpec(t), line, cwd);
    ParseRender(CallbackSpec(t), part, words);
    HandoverIsAccepted(t, isTaskID, line, Meaning(part), words, cwd) by {
      CallbackTextsRead(t, line, cwd);
      CallbackNumbersRead(t, line, cwd);
    }
  }

  /** And those words mean the same run again, with no further hand-over: the
      reason, the floor, the wait, the switches and the command itself, whatever
      the command's own words look like. That is so exactly when the floor, which was
      read from some text, did not come out negative; otherwise they are refused. */
  lemma HeavyReadsHandover(t: Texts, line: HeavyLine, argv: seq<string>, size: string)
    requires Faithful(t) && IsInt64(line.wait) && argv != [] && ParseBytes(t, size) == Some(line.floor)
    ensures HeavyArgs(t, InnerWords(t, line, argv)) ==
      if line.floor >= 0 then Some((line.(handoff := false, port := 0), argv)) else None
  {
    HeavyPartFits(t, HeavySpec(t), line);
    ParseRender(HeavySpec(t), Said(HeavyPart(t, line)), argv);
    HeavySizeReads(t, line, size);
    HeavyValuesRead(t, line);
    HeavySwitchesRead(t, line);
  }

  /** A floor of 1e20 bytes is accepted and, on a machine that makes the least int64 of
      it, handed over in words that are refused. */
  lemma LargeFloorIsNotHandedOver(t: Texts, line: HeavyLine, argv: seq<string>)
    requires Faithful(t) && IsInt64(line.wait) && argv != [] && t.tidy("1e20") == "1E20"
    requires t.readFloat("1E20") == Some(Finite(100_000_000_000_000_000_000.0))
    requires t.outOfRange(Finite(100_000_000_000_000_000_000.0), 1) == -INT64_END
    ensures ParseBytes(t, "1e20") == Some(-INT64_END)
    ensures HeavyArgs(t, InnerWords(t, line.(floor := -INT64_END), argv)) == None
  {
    DigitsHaveNoUnit("1E20");
    HeavyReadsHandover(t, line.(floor := -INT64_END), argv, "1e20");
  }

  // ---------------------------------------------------------------- coordination run

  /** Go's division of durations drops the remainder toward zero. */
  function WholeMinutes(d: int): int { if d < 0 then -(-d / MINUTE) else d / MINUTE }

  /** Cut to the minute nearer to nothing. */
  lemma WholeMinutesMeans(d: int)
    ensures 0 <= d ==> 0 <= d - WholeMinutes(d) * 60_000_000_000 < 60_000_000_000
    ensures d < 0 ==> -60_000_000_000 < d - WholeMinutes(d) * 60_000_000_000 <= 0
  {
  }

  /** The callback's time as `coordination run` asks for it: the wait and an hour,
      in int64, unclamped. */
  function CoordinatedTimeout(maxWait: int): int { WholeMinutes(Wrap64(maxWait + HOUR)) * MINUTE }

  /** Unlike heavy's, this hand-over is refused for a long wait: it is permitted
      exactly when the wait is under three hours and one minute. */
  lemma CoordinatedHandoverIsForShortWaits(maxWait: int)
    requires IsInt64(maxWait) && 0 < maxWait
    ensures MINUTE <= CoordinatedTimeout(maxWait) <= 240 * MINUTE <==> maxWait < 181 * MINUTE
  {
    var d := Wrap64(maxWait + HOUR);
    if maxWait + HOUR < 0x8000_0000_0000_0000 {
      assert d == maxWait + HOUR;
    } else {
      assert d == maxWait + HOUR - 0x1_0000_0000_0000_0000 && d < 0;
    }
  }
}
