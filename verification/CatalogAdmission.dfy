/** Which catalogs are loaded, and what a person reading another language is shown
    because of it. */
module CatalogAdmission {
  import opened Catalog
  import opened Collections

  datatype Language = En | ZhHant | Ja | ZhHans | Ko | Es | PtBR | Fr | De | OtherLanguage

  const SHIPPED: seq<Language> := [ZhHant, Ja, ZhHans, Ko, Es, PtBR, Fr, De]

  datatype BaselineFile = NoBaseline | UnreadableBaseline | Baseline(keys: seq<string>)

  /** A command group's directory: the catalogs in it that could be read. */
  datatype Directory = Directory(files: map<Language, Texts>, baseline: BaselineFile)

  datatype Group = Group(english: Texts, locales: map<Language, Texts>, baseline: seq<string>)

  // ---------------------------------------------------------------- admission

  ghost predicate AdmitsGroup(d: Directory) {
    && En in d.files && |d.files[En]| > 0 && !d.baseline.UnreadableBaseline?
    && (d.baseline.Baseline? ==> GoodBaseline(d.files[En], d.baseline.keys))
  }

  ghost predicate AdmitsLocale(english: Texts, selected: Texts, language: Language, baseline: seq<string>) {
    GoodCatalog(english, selected, language == ZhHant) && HasBaseline(selected, baseline)
  }

  ghost predicate IsGroup(d: Directory, g: Group) {
    && En in d.files && g.english == d.files[En] && g.baseline == (if d.baseline.Baseline? then d.baseline.keys else [])
    && (forall l :: l in g.locales <==>
      l in SHIPPED && l in d.files && AdmitsLocale(g.english, d.files[l], l, g.baseline))
    && forall l :: l in g.locales ==> l in d.files && g.locales[l] == d.files[l]
  }

  method AdmitLocale(english: Texts, selected: Texts, language: Language, baseline: seq<string>)
    returns (admitted: bool)
    ensures admitted == AdmitsLocale(english, selected, language, baseline)
  {
    var valid := ValidCliCatalog(english, selected, language == ZhHant);
    var has := HasCliBaseline(selected, baseline);
    admitted := valid && has;
  }

  method ReadLocales(languages: seq<Language>, d: Directory, english: Texts, baseline: seq<string>)
    returns (locales: map<Language, Texts>)
    ensures forall l :: l in locales <==>
      l in languages && l in d.files && AdmitsLocale(english, d.files[l], l, baseline)
    ensures forall l :: l in locales ==> l in d.files && locales[l] == d.files[l]
  {
    locales := map[];
    for n := 0 to |languages|
      invariant forall l :: l in locales <==>
        l in languages[..n] && l in d.files && AdmitsLocale(english, d.files[l], l, baseline)
      invariant forall l :: l in locales ==> l in d.files && locales[l] == d.files[l]
    {
      var language := languages[n];
      if language in d.files {
        var admitted := AdmitLocale(english, d.files[language], language, baseline);
        if admitted {
          locales := locales[language := d.files[language]];
        }
      }
    }
  }

  method ReadGroup(d: Directory) returns (group: Option<Group>)
    ensures group.Some? <==> AdmitsGroup(d)
    ensures group.Some? ==> IsGroup(d, group.value)
  {
    if En !in d.files || |d.files[En]| == 0 || d.baseline.UnreadableBaseline? {
      return None;
    }
    var english, baseline := d.files[En], [];
    if d.baseline.Baseline? {
      var valid := ValidCliBaseline(english, d.baseline.keys);
      if !valid {
        return None;
      }
      baseline := d.baseline.keys;
    }
    var locales := ReadLocales(SHIPPED, d, english, baseline);
    return Some(Group(english, locales, baseline));
  }

  ghost predicate AreGroups(directories: map<string, Directory>, groups: map<string, Group>) {
    && (forall name :: name in groups <==> name in directories && AdmitsGroup(directories[name]))
    && forall name :: name in groups ==> name in directories && IsGroup(directories[name], groups[name])
  }

  method ReadCliCatalogs(directories: map<string, Directory>) returns (groups: map<string, Group>)
    ensures AreGroups(directories, groups)
  {
    groups := map[];
    var names := directories.Keys;
    while names != {}
      invariant names <= directories.Keys
      invariant forall name :: name in groups <==>
        name in directories && name !in names && AdmitsGroup(directories[name])
      invariant forall name :: name in groups ==> name in directories && IsGroup(directories[name], groups[name])
      decreases |names|
    {
      var name :| name in names;
      var group := ReadGroup(directories[name]);
      if group.Some? {
        groups := groups[name := group.value];
      }
      names := names - {name};
    }
  }

  // ---------------------------------------------------------------- lookup

  function CopyFrom(g: Group, language: Language, key: string, english: string): string {
    if Get(g.english, key) != english then english
    else
      var translation := if language in g.locales then Get(g.locales[language], key) else "";
      if translation != "" then translation else english
  }

  function CliCopy(groups: map<string, Group>, language: Language, group: string, key: string, english: string): string
  {
    if group !in groups then english else CopyFrom(groups[group], language, key, english)
  }

  /** The English text, or one that takes the same arguments, form by form, with no
      form blank. */
  ghost predicate MayShow(english: string, shown: string) {
    shown == english || (SameArguments(english, shown) && Filled(shown) && !Blank(shown))
  }

  lemma CopyTakesTheSameArguments(d: Directory, g: Group, language: Language, key: string, english: string)
    requires IsGroup(d, g)
    ensures MayShow(english, CopyFrom(g, language, key, english))
  {
    if language in g.locales && key in g.locales[language] {
      assert AdmitsLocale(g.english, d.files[language], language, g.baseline);
      assert key in g.english && Same(g.english[key], g.locales[language][key]);
    }
  }

  /** The files translate this text: its group has a good English catalog, in which the
      key has the text; and the catalog of the language, one of the eight, is good. */
  ghost predicate Translates(d: Directory, language: Language, key: string, english: string) {
    && AdmitsGroup(d) && key in d.files[En] && d.files[En][key] == english
    && language != En && language != OtherLanguage && language in d.files && key in d.files[language]
    && AdmitsLocale(d.files[En], d.files[language], language, if d.baseline.Baseline? then d.baseline.keys else [])
  }

  lemma EveryOtherIsShipped(language: Language)
    ensures language in SHIPPED <==> language != En && language != OtherLanguage
  {
    assert SHIPPED[0] == ZhHant && SHIPPED[1] == Ja && SHIPPED[2] == ZhHans && SHIPPED[3] == Ko;
    assert SHIPPED[4] == Es && SHIPPED[5] == PtBR && SHIPPED[6] == Fr && SHIPPED[7] == De;
  }

  lemma CopyIsTranslation(d: Directory, g: Group, language: Language, key: string, english: string)
    requires IsGroup(d, g) && AdmitsGroup(d)
    ensures CopyFrom(g, language, key, english) ==
      if Translates(d, language, key, english) then d.files[language][key] else english
  {
    EveryOtherIsShipped(language);
    if language in g.locales && key in g.locales[language] {
      assert AdmitsLocale(g.english, d.files[language], language, g.baseline);
      assert key in g.english && Same(g.english[key], g.locales[language][key]) && g.locales[language][key] != "";
    }
  }

  /** From the files to the text: whatever there is to load, what is shown may be shown. */
  method ShowCopy(directories: map<string, Directory>, language: Language, group: string, key: string, english: string)
    returns (shown: string)
    ensures MayShow(english, shown)
    ensures shown ==
      if group in directories && Translates(directories[group], language, key, english)
      then directories[group].files[language][key] else english
  {
    var groups := ReadCliCatalogs(directories);
    shown := CliCopy(groups, language, group, key, english);
    if group in groups {
      CopyTakesTheSameArguments(directories[group], groups[group], language, key, english);
      CopyIsTranslation(directories[group], groups[group], language, key, english);
    }
  }

  /** A loaded Traditional Chinese catalog has a text of its own for every English
      text of its group, and any loaded catalog has one for every baseline key. */
  lemma LoadedMeansTranslated(d: Directory, g: Group, language: Language, key: string)
    requires IsGroup(d, g) && language in g.locales && key in g.english
    requires language == ZhHant || key in g.baseline
    ensures key in g.locales[language] && !Blank(g.locales[language][key])
    ensures CopyFrom(g, language, key, g.english[key]) == g.locales[language][key]
  {
    assert AdmitsLocale(g.english, d.files[language], language, g.baseline);
    AdmittedHasKey(g.english, g.locales[language], language, g.baseline, key);
  }

  lemma AdmittedHasKey(english: Texts, selected: Texts, language: Language, baseline: seq<string>, key: string)
    requires AdmitsLocale(english, selected, language, baseline)
    requires key in english && (language == ZhHant || key in baseline)
    ensures key in selected && !Blank(selected[key]) && selected[key] != ""
  {
    if key in baseline {
      var i :| 0 <= i < |baseline| && baseline[i] == key;
      assert Get(selected, baseline[i]) != "";
    } else {
      Fewer(selected.Keys, english.Keys);
    }
  }
}
