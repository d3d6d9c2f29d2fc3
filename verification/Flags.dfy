/** Command lines as Go's `flag` package reads them: flags up to the first word
    that is none or up to `--`, each flag taking `true`, the text after its `=`,
    or the next word whatever that word is. */
module Flags {

  /** A flag that may stand alone, and one that needs a value. `accepts` says which
      texts it can be set to. */
  datatype Flag = Switch(accepts: string -> bool) | Valued(accepts: string -> bool)
  type Spec = map<string, Flag>

  datatype Parse = Failed | Parsed(values: map<string, string>, rest: seq<string>)

  /** The first `=` at or after i, or the length. */
  function EqualsAt(name: string, i: nat): (k: nat)
    requires i <= |name|
    ensures i <= k <= |name|
    ensures k < |name| ==> name[k] == '='
    ensures forall j :: i <= j < k ==> name[j] != '='
    decreases |name| - i
  {
    if i == |name| || name[i] == '=' then i else EqualsAt(name, i + 1)
  }

  /** A value set earlier on the line gives way to one set later. */
  function Set(name: string, value: string, tail: Parse): Parse {
    match tail
    case Failed => Failed
    case Parsed(values, rest) => Parsed(map[name := value] + values, rest)
  }

  function ParseFlags(spec: Spec, args: seq<string>): Parse
    decreases |args|
  {
    if args == [] then Parsed(map[], []) else
    var s := args[0];
    if |s| < 2 || s[0] != '-' then Parsed(map[], args)
    else if s == "--" then Parsed(map[], args[1..])
    else
      var text := if s[1] == '-' then s[2..] else s[1..];
      if text[0] == '-' || text[0] == '=' then Failed else
      var k := EqualsAt(text, 1);
      var name := text[..k];
      if name !in spec then Failed
      else if k < |text| then
        if spec[name].accepts(text[k + 1..]) then Set(name, text[k + 1..], ParseFlags(spec, args[1..])) else Failed
      else if spec[name].Switch? then
        if spec[name].accepts("true") then Set(name, "true", ParseFlags(spec, args[1..])) else Failed
      else if |args| > 1 && spec[name].accepts(args[1]) then Set(name, args[1], ParseFlags(spec, args[2..]))
      else Failed
  }

  /** One flag as a command writes it: `--name`, `--name=value`, or `--name value`. */
  datatype Setting = On(name: string) | Assign(name: string, value: string) | Pass(name: string, value: string)
  {
    function Words(): seq<string> {
      match this
      case On(name) => ["--" + name]
      case Assign(name, value) => ["--" + name + "=" + value]
      case Pass(name, value) => ["--" + name, value]
    }

    function Value(): string { if On? then "true" else value }

    /** The flag exists, can be written this way, and takes the value. */
    predicate Fits(spec: Spec) {
      && name != "" && name[0] != '-' && '=' !in name
      && name in spec && spec[name].accepts(Value())
      && (On? ==> spec[name].Switch?) && (Pass? ==> spec[name].Valued?)
    }
  }

  function Render(settings: seq<Setting>): seq<string> {
    if settings == [] then [] else settings[0].Words() + Render(settings[1..])
  }

  function Meaning(settings: seq<Setting>): map<string, string> {
    if settings == [] then map[] else map[settings[0].name := settings[0].Value()] + Meaning(settings[1..])
  }

  predicate AllFit(spec: Spec, settings: seq<Setting>) {
    forall i :: 0 <= i < |settings| ==> settings[i].Fits(spec)
  }

  lemma EqualsStops(name: string, value: string)
    requires name != "" && '=' !in name
    ensures EqualsAt(name, 1) == |name|
    ensures EqualsAt(name + "=" + value, 1) == |name|
  {
    var text := name + "=" + value;
    assert text[|name|] == '=';
    assert forall j :: 0 <= j < |name| ==> text[j] == name[j] && name[j] in name;
  }

  /** Reading one written flag sets it and reads on behind it. */
  lemma ParseOne(spec: Spec, setting: Setting, rest: seq<string>)
    requires setting.Fits(spec)
    ensures ParseFlags(spec, setting.Words() + rest)
         == Set(setting.name, setting.Value(), ParseFlags(spec, rest))
  {
    var name := setting.name;
    var args := setting.Words() + rest;
    match setting {
      case On(_) =>
        EqualsStops(name, "");
        assert args[1..] == rest && args[0][2..] == name && name[..|name|] == name;
      case Assign(_, value) =>
        EqualsStops(name, value);
        var text := name + "=" + value;
        assert args[1..] == rest && args[0][2..] == text;
        assert text[..|name|] == name && text[|name| + 1..] == value;
      case Pass(_, value) =>
        EqualsStops(name, "");
        assert args[2..] == rest && args[0][2..] == name && name[..|name|] == name;
    }
  }

  /** Whatever was written is read back, and the words behind `--` come through
      untouched, even when they look like flags or are `--` themselves. */
  lemma {:induction false} ParseRender(spec: Spec, settings: seq<Setting>, rest: seq<string>)
    requires AllFit(spec, settings)
    ensures ParseFlags(spec, Render(settings) + ["--"] + rest) == Parsed(Meaning(settings), rest)
  {
    if settings == [] {
      assert Render(settings) + ["--"] + rest == ["--"] + rest;
      assert (["--"] + rest)[1..] == rest;
    } else {
      assert Render(settings) + ["--"] + rest == settings[0].Words() + (Render(settings[1..]) + ["--"] + rest);
      ParseOne(spec, settings[0], Render(settings[1..]) + ["--"] + rest);
      ParseRender(spec, settings[1..], rest);
    }
  }

  // ---------------------------------------------------------------- what is accepted at all

  /** A flag as anyone may write it: with one dash or with two. */
  datatype Written = Written(setting: Setting, long: bool)
  {
    function Dash(): string { if long then "--" else "-" }

    function Words(): seq<string> {
      match setting
      case On(name) => [Dash() + name]
      case Assign(name, value) => [Dash() + name + "=" + value]
      case Pass(name, value) => [Dash() + name, value]
    }
  }

  function Row(row: seq<Written>): seq<string> { if row == [] then [] else row[0].Words() + Row(row[1..]) }

  function Settings(row: seq<Written>): seq<Setting> {
    if row == [] then [] else [row[0].setting] + Settings(row[1..])
  }

  predicate IsFlag(word: string) { |word| >= 2 && word[0] == '-' && word != "--" }

  /** The flags are over: at a `--`, which is dropped, or before a word that is no flag. */
  predicate Over(tail: seq<string>, rest: seq<string>) {
    tail == ["--"] + rest || (tail == rest && (rest == [] || (!IsFlag(rest[0]) && rest[0] != "--")))
  }

  ghost predicate IsWritten(spec: Spec, args: seq<string>, row: seq<Written>, tail: seq<string>,
    values: map<string, string>, rest: seq<string>) {
    && args == Row(row) + tail && Over(tail, rest) && values == Meaning(Settings(row))
    && forall i :: 0 <= i < |row| ==> row[i].setting.Fits(spec)
  }

  lemma ReadWritten(spec: Spec, w: Written, rest: seq<string>)
    requires w.setting.Fits(spec)
    ensures ParseFlags(spec, w.Words() + rest) == Set(w.setting.name, w.setting.Value(), ParseFlags(spec, rest))
  {
    if w.long {
      ParseOne(spec, w.setting, rest);
      assert w.Words() == w.setting.Words();
    } else {
      ReadShort(spec, w, rest);
    }
  }

  lemma ReadShort(spec: Spec, w: Written, rest: seq<string>)
    requires w.setting.Fits(spec) && !w.long
    ensures ParseFlags(spec, w.Words() + rest) == Set(w.setting.name, w.setting.Value(), ParseFlags(spec, rest))
  {
    var name, args := w.setting.name, w.Words() + rest;
    match w.setting {
      case On(_) =>
        EqualsStops(name, "");
        assert args[1..] == rest && args[0][1..] == name && name[..|name|] == name;
      case Assign(_, value) =>
        EqualsStops(name, value);
        var text := name + "=" + value;
        assert args[0] == "-" + text && args[1..] == rest && args[0][1..] == text;
        assert text[..|name|] == name && text[|name| + 1..] == value;
      case Pass(_, value) =>
        EqualsStops(name, "");
        assert args[2..] == rest && args[0][1..] == name && name[..|name|] == name;
    }
  }

  lemma {:induction false} ReadRow(spec: Spec, row: seq<Written>, tail: seq<string>, rest: seq<string>)
    requires Over(tail, rest) && forall i :: 0 <= i < |row| ==> row[i].setting.Fits(spec)
    ensures ParseFlags(spec, Row(row) + tail) == Parsed(Meaning(Settings(row)), rest)
  {
    if row == [] {
      assert Row(row) + tail == tail;
      if tail != rest {
        assert tail[1..] == rest;
      }
    } else {
      assert Row(row) + tail == row[0].Words() + (Row(row[1..]) + tail);
      ReadWritten(spec, row[0], Row(row[1..]) + tail);
      ReadRow(spec, row[1..], tail, rest);
      assert Settings(row)[1..] == Settings(row[1..]);
    }
  }

  /** The text of a flag behind its dashes. */
  function Undashed(s: string): string
    requires IsFlag(s)
  {
    if s[1] == '-' then s[2..] else s[1..]
  }

  function Dashes(s: string): string
    requires IsFlag(s)
  {
    if s[1] == '-' then "--" else "-"
  }

  lemma Dashed(s: string)
    requires IsFlag(s)
    ensures Undashed(s) != "" && s == Dashes(s) + Undashed(s)
  {
  }

  /** A flag that is read has a name that exists. */
  lemma ReadHasName(spec: Spec, args: seq<string>)
    requires args != [] && IsFlag(args[0]) && ParseFlags(spec, args).Parsed?
    ensures var text := Undashed(args[0]);
      var name := text[..EqualsAt(text, 1)];
      name != "" && name[0] != '-' && '=' !in name && name in spec
  {
    var text := Undashed(args[0]);
    var name := text[..EqualsAt(text, 1)];
    assert name[0] == text[0];
    forall j | 0 <= j < |name| ensures name[j] != '=' {
      assert name[j] == text[j];
    }
  }

  lemma JoinedText(dashes: string, text: string, k: nat, s: string)
    requires k < |text| && text[k] == '=' && s == dashes + text
    ensures s == dashes + text[..k] + "=" + text[k + 1..]
  {
    assert text == text[..k] + [text[k]] + text[k + 1..];
  }

  lemma AssignWritten(spec: Spec, args: seq<string>, k: nat) returns (w: Written)
    requires args != [] && IsFlag(args[0]) && ParseFlags(spec, args).Parsed?
    requires k == EqualsAt(Undashed(args[0]), 1) < |Undashed(args[0])|
    ensures w.setting.Fits(spec) && args == w.Words() + args[1..]
  {
    var text := Undashed(args[0]);
    ReadHasName(spec, args);
    Dashed(args[0]);
    w := Written(Assign(text[..k], text[k + 1..]), args[0][1] == '-');
    JoinedText(Dashes(args[0]), text, k, args[0]);
    assert w.Dash() == Dashes(args[0]) && w.Words() == [args[0]];
  }

  lemma BareWritten(spec: Spec, args: seq<string>) returns (w: Written, later: seq<string>)
    requires args != [] && IsFlag(args[0]) && ParseFlags(spec, args).Parsed?
    requires EqualsAt(Undashed(args[0]), 1) == |Undashed(args[0])|
    ensures w.setting.Fits(spec) && args == w.Words() + later && |later| < |args|
  {
    var text := Undashed(args[0]);
    ReadHasName(spec, args);
    Dashed(args[0]);
    assert text[..|text|] == text;
    var long := args[0][1] == '-';
    if spec[text].Switch? {
      w, later := Written(On(text), long), args[1..];
      assert w.Words() == [args[0]];
    } else {
      w, later := Written(Pass(text, args[1]), long), args[2..];
      assert w.Words() == [args[0], args[1]];
    }
  }

  lemma FirstWritten(spec: Spec, args: seq<string>) returns (w: Written, later: seq<string>)
    requires args != [] && IsFlag(args[0]) && ParseFlags(spec, args).Parsed?
    ensures w.setting.Fits(spec) && args == w.Words() + later && |later| < |args|
    ensures ParseFlags(spec, args) == Set(w.setting.name, w.setting.Value(), ParseFlags(spec, later))
  {
    var text := Undashed(args[0]);
    Dashed(args[0]);
    var k := EqualsAt(text, 1);
    if k < |text| {
      w := AssignWritten(spec, args, k);
      later := args[1..];
    } else {
      w, later := BareWritten(spec, args);
    }
    ReadWritten(spec, w, later);
  }

  lemma NothingWritten(spec: Spec, args: seq<string>)
    requires args == [] || !IsFlag(args[0])
    ensures ParseFlags(spec, args).Parsed?
    ensures IsWritten(spec, args, [], args, ParseFlags(spec, args).values, ParseFlags(spec, args).rest)
  {
    assert Row([]) + args == args;
    if args != [] && args[0] == "--" {
      assert args == ["--"] + args[1..];
    }
  }

  lemma WrittenBefore(spec: Spec, args: seq<string>, w: Written, later: seq<string>, others: seq<Written>,
    tail: seq<string>, values: map<string, string>, rest: seq<string>)
    requires w.setting.Fits(spec) && args == w.Words() + later && IsWritten(spec, later, others, tail, values, rest)
    ensures IsWritten(spec, args, [w] + others, tail, map[w.setting.name := w.setting.Value()] + values, rest)
  {
    var row := [w] + others;
    assert row[0] == w && row[1..] == others;
    assert Settings(row)[0] == w.setting && Settings(row)[1..] == Settings(others);
    assert args == Row(row) + tail;
  }

  lemma {:induction false} ParsedIsWritten(spec: Spec, args: seq<string>) returns (row: seq<Written>, tail: seq<string>)
    requires ParseFlags(spec, args).Parsed?
    ensures IsWritten(spec, args, row, tail, ParseFlags(spec, args).values, ParseFlags(spec, args).rest)
    decreases |args|
  {
    if args == [] || !IsFlag(args[0]) {
      row, tail := [], args;
      NothingWritten(spec, args);
    } else {
      var w, later := FirstWritten(spec, args);
      var others;
      others, tail := ParsedIsWritten(spec, later);
      row := [w] + others;
      var parsed := ParseFlags(spec, later);
      WrittenBefore(spec, args, w, later, others, tail, parsed.values, parsed.rest);
    }
  }

  /** Exactly the rows of flags that fit are accepted, each with one dash or two, up to
      `--` or a word that is none; and they are read as their meaning. */
  lemma AcceptsExactlyWritten(spec: Spec, args: seq<string>, values: map<string, string>, rest: seq<string>)
    ensures ParseFlags(spec, args) == Parsed(values, rest) <==>
      exists row, tail :: IsWritten(spec, args, row, tail, values, rest)
  {
    if ParseFlags(spec, args) == Parsed(values, rest) {
      var row, tail := ParsedIsWritten(spec, args);
    }
    if row, tail :| IsWritten(spec, args, row, tail, values, rest) {
      ReadRow(spec, row, tail, rest);
    }
  }

  lemma {:induction false} RenderAppend(a: seq<Setting>, b: seq<Setting>)
    ensures Render(a + b) == Render(a) + Render(b)
  {
    if a == [] {
      assert a + b == b;
    } else {
      assert (a + b)[0] == a[0] && (a + b)[1..] == a[1..] + b;
      RenderAppend(a[1..], b);
    }
  }

  lemma PlusAssociates(a: map<string, string>, b: map<string, string>, c: map<string, string>)
    ensures a + (b + c) == (a + b) + c
  {
  }

  lemma {:induction false} MeaningAppend(a: seq<Setting>, b: seq<Setting>)
    ensures Meaning(a + b) == Meaning(a) + Meaning(b)
  {
    if a == [] {
      assert a + b == b;
    } else {
      assert (a + b)[0] == a[0] && (a + b)[1..] == a[1..] + b;
      MeaningAppend(a[1..], b);
      PlusAssociates(map[a[0].name := a[0].Value()], Meaning(a[1..]), Meaning(b));
    }
  }

  // ---------------------------------------------------------------- flags written only when there is something to say

  datatype Entry = Entry(say: bool, setting: Setting)

  function Said(line: seq<Entry>): seq<Setting> {
    if line == [] then [] else (if line[0].say then [line[0].setting] else []) + Said(line[1..])
  }

  ghost predicate NamedOnce(line: seq<Entry>) {
    forall i, j :: 0 <= i < j < |line| ==> line[i].setting.name != line[j].setting.name
  }

  lemma {:induction false} SaidAppend(a: seq<Entry>, b: seq<Entry>)
    ensures Said(a + b) == Said(a) + Said(b)
  {
    if a == [] {
      assert a + b == b;
    } else {
      assert (a + b)[0] == a[0] && (a + b)[1..] == a[1..] + b;
      SaidAppend(a[1..], b);
    }
  }

  /** What is said fits when each entry fits. */
  lemma {:induction false} SaidFits(spec: Spec, line: seq<Entry>)
    requires forall i :: 0 <= i < |line| && line[i].say ==> line[i].setting.Fits(spec)
    ensures AllFit(spec, Said(line))
  {
    if line != [] {
      SaidFits(spec, line[1..]);
    }
  }

  lemma MeaningOfSaid(line: seq<Entry>)
    requires line != []
    ensures var s := line[0].setting;
      Meaning(Said(line)) == (if line[0].say then map[s.name := s.Value()] else map[]) + Meaning(Said(line[1..]))
  {
    var s := line[0].setting;
    if line[0].say {
      MeaningAppend([s], Said(line[1..]));
      assert [s][1..] == [];
    } else {
      assert [] + Said(line[1..]) == Said(line[1..]);
    }
  }

  /** A flag that was not written is not read. */
  lemma {:induction false} NotRead(line: seq<Entry>, name: string)
    requires forall i :: 0 <= i < |line| ==> line[i].setting.name != name
    ensures name !in Meaning(Said(line))
  {
    if line != [] {
      MeaningOfSaid(line);
      NotRead(line[1..], name);
    }
  }

  /** A flag is read as it was written, or not at all when it was not written. */
  lemma {:induction false} ReadBack(line: seq<Entry>, i: nat)
    requires NamedOnce(line) && i < |line|
    ensures var s, values := line[i].setting, Meaning(Said(line));
      if line[i].say then s.name in values && values[s.name] == s.Value() else s.name !in values
  {
    MeaningOfSaid(line);
    if i == 0 {
      forall j | 0 <= j < |line[1..]|
        ensures line[1..][j].setting.name != line[0].setting.name
      {
        assert line[1..][j] == line[j + 1];
      }
      NotRead(line[1..], line[0].setting.name);
    } else {
      ReadBack(line[1..], i - 1);
    }
  }
}
