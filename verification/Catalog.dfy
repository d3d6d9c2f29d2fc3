/** Translated command text: the scanner for format directives, the admission of a
    catalog, and the lookup. Text is a sequence of code points, as it is after
    JSON decoding. */
module Catalog {
  import opened Collections

  // ---------------------------------------------------------------- directives

  predicate Flag(c: char) { c in "[]#+- 0." || '1' <= c <= '9' }

  predicate Letter(c: char) { 'a' <= c <= 'z' || 'A' <= c <= 'Z' }

  /** Space, #, +, -, . and square brackets, with the ten digits, are what may stand
      before the 52 letters. */
  lemma AlphabetsAre(c: char)
    ensures Flag(c) <==> c as int in {0x20, 0x23, 0x2B, 0x2D, 0x2E, 0x5B, 0x5D} || 0x30 <= c as int <= 0x39
    ensures Letter(c) <==> 0x41 <= c as int <= 0x5A || 0x61 <= c as int <= 0x7A
  {
  }

  /** How text is made: a directive is a percent sign, its flags and a letter. */
  datatype Piece = Plain(c: char) | Percent | Directive(flags: string, verb: char)
  {
    predicate Proper() {
      match this
      case Plain(c) => c != '%'
      case Percent => true
      case Directive(flags, verb) => Letter(verb) && forall i :: 0 <= i < |flags| ==> Flag(flags[i])
    }

    function Text(): string {
      match this
      case Plain(c) => [c]
      case Percent => "%%"
      case Directive(flags, verb) => "%" + flags + [verb]
    }
  }

  ghost predicate Proper(pieces: seq<Piece>) { forall i :: 0 <= i < |pieces| ==> pieces[i].Proper() }

  function Spell(pieces: seq<Piece>): string {
    if pieces == [] then "" else pieces[0].Text() + Spell(pieces[1..])
  }

  function Directives(pieces: seq<Piece>): seq<string> {
    if pieces == [] then [] else
    (if pieces[0].Directive? then [pieces[0].Text()] else []) + Directives(pieces[1..])
  }

  /** How many of the first characters are flags. */
  function FlagRun(s: string): (n: nat)
    ensures n <= |s| && (forall i :: 0 <= i < n ==> Flag(s[i])) && (n < |s| ==> !Flag(s[n]))
  {
    if s == "" || !Flag(s[0]) then 0 else 1 + FlagRun(s[1..])
  }

  function Onto(verbs: seq<string>, rest: Option<seq<string>>): Option<seq<string>> {
    if rest.Some? && verbs != [] then Some(verbs + rest.value) else rest
  }

  lemma OntoAgain(a: seq<string>, b: seq<string>, rest: Option<seq<string>>)
    ensures Onto(a, Onto(b, rest)) == Onto(a + b, rest)
  {
    if a == [] {
      assert a + b == b;
    } else if b == [] {
      assert a + b == a;
    } else if rest.Some? {
      assert a + (b + rest.value) == a + b + rest.value;
    }
  }

  /** What a scan from the left finds: the directives, or that the text is malformed. */
  function Scan(s: string): Option<seq<string>> {
    if s == "" then Some([])
    else if s[0] != '%' then Scan(s[1..])
    else if |s| == 1 then None
    else if s[1] == '%' then Scan(s[2..])
    else
      var n := 1 + FlagRun(s[1..]);
      if n == |s| || !Letter(s[n]) then None else Onto([s[..n + 1]], Scan(s[n + 1..]))
  }

  lemma FlagRunStops(flags: string, rest: string)
    requires forall i :: 0 <= i < |flags| ==> Flag(flags[i])
    requires rest != "" && !Flag(rest[0])
    ensures FlagRun(flags + rest) == |flags|
  {
    if flags != "" {
      assert (flags + rest)[1..] == flags[1..] + rest;
    } else {
      assert flags + rest == rest;
    }
  }

  lemma ScanDirective(flags: string, verb: char, rest: string, s: string)
    requires Directive(flags, verb).Proper() && s == Directive(flags, verb).Text() + rest
    ensures Scan(s) == Onto([Directive(flags, verb).Text()], Scan(rest))
  {
    var text, n := Directive(flags, verb).Text(), 1 + |flags|;
    assert s[0] == '%' && s[1] != '%' && s[n] == verb;
    assert s[1..] == flags + ([verb] + rest);
    FlagRunStops(flags, [verb] + rest);
    assert s[..n + 1] == text && s[n + 1..] == rest;
  }

  lemma ScanPiece(p: Piece, rest: string)
    requires p.Proper()
    ensures Scan(p.Text() + rest) == Onto(if p.Directive? then [p.Text()] else [], Scan(rest))
  {
    var s := p.Text() + rest;
    match p
    case Plain(c) =>
      assert s[1..] == rest;
    case Percent =>
      assert s[2..] == rest;
    case Directive(flags, verb) =>
      ScanDirective(flags, verb, rest, s);
  }

  /** However the text is made up, the scan finds its directives in order. */
  lemma {:induction false} ScanSpell(pieces: seq<Piece>, rest: string)
    requires Proper(pieces)
    ensures Scan(Spell(pieces) + rest) == Onto(Directives(pieces), Scan(rest))
  {
    if pieces == [] {
      assert Spell(pieces) + rest == rest;
    } else {
      var first, tail := pieces[0], Spell(pieces[1..]);
      assert Spell(pieces) + rest == first.Text() + (tail + rest);
      ScanPiece(first, tail + rest);
      ScanSpell(pieces[1..], rest);
      OntoAgain(if first.Directive? then [first.Text()] else [], Directives(pieces[1..]), Scan(rest));
    }
  }

  lemma ScanSpelled(pieces: seq<Piece>)
    requires Proper(pieces)
    ensures Scan(Spell(pieces)) == Some(Directives(pieces))
  {
    ScanSpell(pieces, "");
    assert Spell(pieces) + "" == Spell(pieces);
    assert Directives(pieces) + [] == Directives(pieces);
  }

  lemma DirectiveText(s: string, n: nat)
    requires 0 < n < |s| && s[0] == '%'
    ensures s == Directive(s[1..n], s[n]).Text() + s[n + 1..]
  {
  }

  lemma FirstDirective(s: string) returns (n: nat)
    requires |s| > 1 && s[0] == '%' && s[1] != '%' && Scan(s).Some?
    ensures 0 < n < |s| && Directive(s[1..n], s[n]).Proper() && Scan(s[n + 1..]).Some?
  {
    n := 1 + FlagRun(s[1..]);
    assert forall i :: 0 <= i < n - 1 ==> s[1..n][i] == s[1..][i];
  }

  /** The piece that well-formed text begins with. */
  lemma FirstPiece(s: string) returns (first: Piece, rest: string)
    requires s != "" && Scan(s).Some?
    ensures first.Proper() && s == first.Text() + rest && Scan(rest).Some? && |rest| < |s|
  {
    if s[0] != '%' {
      first, rest := Plain(s[0]), s[1..];
    } else if s[1] == '%' {
      first, rest := Percent, s[2..];
    } else {
      var n := FirstDirective(s);
      DirectiveText(s, n);
      first, rest := Directive(s[1..n], s[n]), s[n + 1..];
    }
  }

  /** Text that is not malformed is made up of pieces. */
  lemma {:induction false} ScanIsSpelled(s: string) returns (pieces: seq<Piece>)
    requires Scan(s).Some?
    ensures Proper(pieces) && Spell(pieces) == s
    decreases |s|
  {
    if s == "" {
      pieces := [];
    } else {
      var first, rest := FirstPiece(s);
      var later := ScanIsSpelled(rest);
      pieces := [first] + later;
      assert pieces[1..] == later;
    }
  }

  /** A scan of joined text is the two scans joined. */
  lemma ScanJoins(a: string, b: string)
    requires Scan(a).Some?
    ensures Scan(a + b) == Onto(Scan(a).value, Scan(b))
    ensures Scan(a + b).Some? <==> Scan(b).Some?
  {
    var pieces := ScanIsSpelled(a);
    ScanSpell(pieces, b);
    ScanSpelled(pieces);
  }

  function Doubled(s: string): string {
    if s == "" then "" else (if s[0] == '%' then "%%" else [s[0]]) + Doubled(s[1..])
  }

  lemma {:induction false} DoubledJoins(a: string, b: string)
    ensures Doubled(a + b) == Doubled(a) + Doubled(b)
  {
    if a == "" {
      assert a + b == b;
    } else {
      var first := if a[0] == '%' then "%%" else [a[0]];
      DoubledJoins(a[1..], b);
      assert (a + b)[0] == a[0] && (a + b)[1..] == a[1..] + b;
      assert Doubled(a) == first + Doubled(a[1..]);
      assert Doubled(a + b) == first + Doubled(a[1..] + b);
    }
  }

  /** Doubling copies a plain character, doubles a percent sign, and goes along the text. */
  lemma DoubledMeans(s: string, c: char)
    ensures Doubled("") == "" && Doubled(s + [c]) == Doubled(s) + if c == '%' then ['%', '%'] else [c]
  {
    DoubledJoins(s, [c]);
    assert [c][1..] == "";
  }

  /** Every percent sign doubled, any text is free of directives. */
  lemma {:induction false} DoubledHasNoDirectives(s: string)
    ensures Scan(Doubled(s)) == Some([])
  {
    if s != "" {
      ScanPiece(if s[0] == '%' then Percent else Plain(s[0]), Doubled(s[1..]));
      DoubledHasNoDirectives(s[1..]);
    }
  }

  /** Finds exactly the directives of text made up of pieces, and refuses all other. */
  method CliFormatVerbs(value: string) returns (verbs: seq<string>, ok: bool)
    ensures Scan(value) == if ok then Some(verbs) else None
    ensures !ok ==> verbs == []
    ensures ok <==> exists pieces :: Proper(pieces) && Spell(pieces) == value
    ensures forall pieces :: Proper(pieces) && Spell(pieces) == value ==> verbs == Directives(pieces)
  {
    verbs, ok := [], true;
    var i := 0;
    while i < |value| && ok
      invariant 0 <= i <= |value|
      invariant Scan(value) == if ok then Onto(verbs, Scan(value[i..])) else None
      decreases ok, |value| - i
    {
      var verb;
      verb, i, ok := NextVerb(value, i);
      OntoAgain(verbs, verb, if ok then Scan(value[i..]) else None);
      verbs := verbs + verb;
    }
    assert verbs + [] == verbs;
    verbs := if ok then verbs else [];
    MadeUpOfPieces(value);
  }

  /** One step of the scan: the directive found at a place, if it is one, and the
      place after it. */
  method NextVerb(value: string, start: nat) returns (verb: seq<string>, i: nat, ok: bool)
    requires start < |value|
    ensures start < i <= |value| || !ok
    ensures i <= |value|
    ensures Scan(value[start..]) == if ok then Onto(verb, Scan(value[i..])) else None
    ensures !ok ==> verb == []
  {
    verb, i, ok := [], start, true;
    ghost var s := value[start..];
    if value[i] == '%' {
      i := i + 1;
      if i == |value| {
        assert |s| == 1 && s[0] == '%';
        ok := false;
      } else if value[i] == '%' {
        assert s[0] == s[1] == '%' && s[2..] == value[i + 1..];
        i := i + 1;
      } else {
        i, ok := SkipFlags(value, i);
        if ok {
          verb := [value[start..i + 1]];
          i := i + 1;
        }
      }
    } else {
      assert s[0] != '%' && s[1..] == value[i + 1..];
      i := i + 1;
    }
  }

  /** The place of a directive's letter, from the character after its percent sign. */
  method SkipFlags(value: string, from: nat) returns (i: nat, ok: bool)
    requires 0 < from < |value| && value[from - 1] == '%' && value[from] != '%'
    ensures from <= i <= |value| && (ok ==> i < |value|)
    ensures Scan(value[from - 1..]) == if ok then Onto([value[from - 1..i + 1]], Scan(value[i + 1..])) else None
  {
    i := from;
    while i < |value| && Flag(value[i])
      invariant from <= i <= |value|
      invariant forall k :: from <= k < i ==> Flag(value[k])
    {
      i := i + 1;
    }
    ok := i < |value| && Letter(value[i]);
    FlagsEndAt(value, from, i);
  }

  lemma FlagsEndAt(value: string, from: nat, i: nat)
    requires 0 < from < |value| && value[from - 1] == '%' && value[from] != '%' && from <= i <= |value|
    requires forall k :: from <= k < i ==> Flag(value[k])
    requires i < |value| ==> !Flag(value[i])
    ensures Scan(value[from - 1..]) ==
      if i < |value| && Letter(value[i]) then Onto([value[from - 1..i + 1]], Scan(value[i + 1..])) else None
  {
    var s, n := value[from - 1..], i - from + 1;
    forall k | 1 <= k < n ensures Flag(s[k]) {
      assert s[k] == value[from - 1 + k];
    }
    FlagsEnd(s, n);
    if i < |value| {
      assert s[n] == value[i] && s[..n + 1] == value[from - 1..i + 1] && s[n + 1..] == value[i + 1..];
    }
  }

  lemma FlagsEnd(s: string, n: nat)
    requires 0 < n <= |s| && s[0] == '%' && (|s| > 1 ==> s[1] != '%')
    requires forall k :: 1 <= k < n ==> Flag(s[k])
    requires n < |s| ==> !Flag(s[n])
    ensures |s| > 1 && n < |s| && Letter(s[n]) ==> Scan(s) == Onto([s[..n + 1]], Scan(s[n + 1..]))
    ensures n == |s| || !Letter(s[n]) ==> Scan(s) == None
  {
    assert forall k :: 1 <= k < |s| ==> s[1..][k - 1] == s[k];
  }

  lemma MadeUpOfPieces(value: string)
    ensures Scan(value).Some? <==> exists pieces :: Proper(pieces) && Spell(pieces) == value
    ensures forall pieces :: Proper(pieces) && Spell(pieces) == value ==> Scan(value) == Some(Directives(pieces))
  {
    if Scan(value).Some? {
      var pieces := ScanIsSpelled(value);
    }
    forall pieces | Proper(pieces) && Spell(pieces) == value ensures Scan(value) == Some(Directives(pieces)) {
      ScanSpelled(pieces);
    }
  }

  // ---------------------------------------------------------------- forms

  const FORM_SEPARATOR: char := '\U{1f}'

  /** The characters Unicode calls white space. */
  predicate Space(c: char) {
    || c == ' ' || '\t' <= c <= '\r' || c == '\U{85}' || c == '\U{a0}' || c == '\U{1680}'
      || '\U{2000}' <= c <= '\U{200a}'
    || c == '\U{2028}' || c == '\U{2029}' || c == '\U{202f}' || c == '\U{205f}' || c == '\U{3000}'
  }

  /** They are these 25, by their numbers. */
  lemma SpacesAre(c: char)
    ensures Space(c) <==>
      var n := c as int;
      || 9 <= n <= 13 || n == 32 || n == 0x85 || n == 0xA0 || n == 0x1680 || 0x2000 <= n <= 0x200A
      || n in {0x2028, 0x2029, 0x202F, 0x205F, 0x3000}
  {
  }

  predicate Blank(s: string) { forall i :: 0 <= i < |s| ==> Space(s[i]) }

  /** The plural forms a text holds, one after the other. */
  function Forms(s: string): (forms: seq<string>)
    ensures forms != []
  {
    if s == "" then [""]
    else
      var later := Forms(s[1..]);
      if s[0] == FORM_SEPARATOR then [""] + later else [[s[0]] + later[0]] + later[1..]
  }

  function Joined(forms: seq<string>): string
    requires forms != []
  {
    if |forms| == 1 then forms[0] else forms[0] + [FORM_SEPARATOR] + Joined(forms[1..])
  }

  ghost predicate Unseparated(forms: seq<string>) { forall i :: 0 <= i < |forms| ==> FORM_SEPARATOR !in forms[i] }

  lemma {:induction false} FormsRejoin(s: string)
    ensures Joined(Forms(s)) == s && Unseparated(Forms(s))
  {
    if s != "" {
      FormsRejoin(s[1..]);
      var later := Forms(s[1..]);
      if s[0] == FORM_SEPARATOR {
        assert ([""] + later)[1..] == later;
      } else if |later| > 1 {
        assert ([[s[0]] + later[0]] + later[1..])[1..] == later[1..];
      }
    }
  }

  /** Both texts have as many forms, and each form takes the same arguments in the same way. */
  ghost predicate SameArguments(a: string, b: string) {
    && |Forms(a)| == |Forms(b)|
    && forall i :: 0 <= i < |Forms(a)| ==> Scan(Forms(a)[i]).Some? && Scan(Forms(a)[i]) == Scan(Forms(b)[i])
  }

  ghost predicate Filled(s: string) { forall i :: 0 <= i < |Forms(s)| ==> !Blank(Forms(s)[i]) }

  /** A translated form may stand for an English one. */
  predicate SameForm(english: string, selected: string) {
    Scan(english).Some? && Scan(english) == Scan(selected) && !Blank(selected)
  }

  method SameVerbs(english: string, selected: string) returns (same: bool)
    ensures same == SameForm(english, selected)
  {
    var a, aValid := CliFormatVerbs(english);
    var b, bValid := CliFormatVerbs(selected);
    same := aValid && bValid && a == b && !Blank(selected);
  }

  method SameCliVerbs(source: string, selected: string) returns (same: bool)
    ensures same <==> SameArguments(source, selected) && Filled(selected)
  {
    var englishForms, selectedForms := Forms(source), Forms(selected);
    same := |englishForms| == |selectedForms|;
    var form := 0;
    while same && form < |englishForms|
      invariant 0 <= form <= |englishForms|
      invariant same ==> |englishForms| == |selectedForms| && forall i :: 0 <= i < form ==>
        SameForm(englishForms[i], selectedForms[i])
      invariant !same && |englishForms| == |selectedForms| ==>
        exists i :: 0 <= i < |englishForms| && !SameForm(englishForms[i], selectedForms[i])
    {
      same := SameVerbs(englishForms[form], selectedForms[form]);
      form := form + 1;
    }
    if |englishForms| == |selectedForms| {
      FormByForm(source, selected);
    }
  }

  lemma FormByForm(a: string, b: string)
    requires |Forms(a)| == |Forms(b)|
    ensures SameArguments(a, b) && Filled(b) <==> forall i :: 0 <= i < |Forms(a)| ==> SameForm(Forms(a)[i], Forms(b)[i])
  {
  }

  /** What the comparison answers. */
  ghost predicate Same(source: string, selected: string) { SameArguments(source, selected) && Filled(selected) }

  /** Turned round, the comparison answers the same exactly when no form of the source is blank. */
  lemma SameTurnsRound(a: string, b: string)
    requires Same(a, b)
    ensures Same(b, a) <==> Filled(a)
  {
  }

  lemma OneForm(c: char)
    requires c != FORM_SEPARATOR
    ensures Forms([c]) == [[c]]
  {
    assert [c][1..] == "" && Forms("") == [""];
    assert [c] + "" == [c] && [[c]] + [""][1..] == [[c]];
  }

  /** An English form may be blank where its translation may not. */
  lemma SameIsNotSymmetric()
    ensures Same(" ", "x") && !Same("x", " ")
  {
    OneForm(' ');
    OneForm('x');
    assert Scan(" ") == Scan("") && Scan("x") == Scan("");
    assert !Space('x') && Space(" "[0]);
    assert Blank(Forms(" ")[0]);
    assert !Blank("x") by {
      assert !Space("x"[0]);
    }
  }

  lemma SameChains(a: string, b: string, c: string)
    requires Same(a, b) && Same(b, c)
    ensures Same(a, c)
  {
  }

  // ---------------------------------------------------------------- admission

  type Texts = map<string, string>

  /** A missing key reads as the empty text. */
  function Get(texts: Texts, key: string): string { if key in texts then texts[key] else "" }

  ghost predicate GoodCatalog(english: Texts, selected: Texts, complete: bool) {
    && (complete ==> |selected| == |english|)
    && forall key :: key in selected ==>
      key in english && key != "" && !Blank(selected[key]) && Same(english[key], selected[key])
  }

  method ValidCliCatalog(english: Texts, selected: Texts, complete: bool) returns (valid: bool)
    ensures valid <==> GoodCatalog(english, selected, complete)
  {
    if complete && |selected| != |english| {
      return false;
    }
    var keys := selected.Keys;
    while keys != {}
      invariant keys <= selected.Keys
      invariant forall key :: key in selected && key !in keys ==>
        key in english && key != "" && !Blank(selected[key]) && Same(english[key], selected[key])
      decreases |keys|
    {
      var key :| key in keys;
      if key !in english || key == "" || Blank(selected[key]) {
        return false;
      }
      var same := SameCliVerbs(english[key], selected[key]);
      if !same {
        return false;
      }
      keys := keys - {key};
    }
    return true;
  }

  ghost predicate GoodBaseline(english: Texts, baseline: seq<string>) {
    && (forall i :: 0 <= i < |baseline| ==> baseline[i] != "" && Get(english, baseline[i]) != "")
    && forall i, j :: 0 <= i < j < |baseline| ==> baseline[i] != baseline[j]
  }

  method ValidCliBaseline(english: Texts, baseline: seq<string>) returns (valid: bool)
    ensures valid <==> GoodBaseline(english, baseline)
  {
    var seen: set<string> := {};
    for n := 0 to |baseline|
      invariant forall key :: key in seen <==> exists i :: 0 <= i < n && baseline[i] == key
      invariant GoodBaseline(english, baseline[..n])
    {
      var key := baseline[n];
      if key == "" || key in seen || Get(english, key) == "" {
        return false;
      }
      seen := seen + {key};
    }
    assert baseline[..|baseline|] == baseline;
    return true;
  }

  ghost predicate HasBaseline(selected: Texts, baseline: seq<string>) {
    forall i :: 0 <= i < |baseline| ==> Get(selected, baseline[i]) != ""
  }

  method HasCliBaseline(selected: Texts, baseline: seq<string>) returns (has: bool)
    ensures has <==> HasBaseline(selected, baseline)
  {
    for n := 0 to |baseline|
      invariant HasBaseline(selected, baseline[..n])
    {
      if Get(selected, baseline[n]) == "" {
        return false;
      }
    }
    return true;
  }
}
