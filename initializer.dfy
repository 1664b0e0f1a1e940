/**
 * The start-up hook: load the tags, load the settings, and when there are
 * none, build default settings from the browser's language and colour-scheme
 * preference.
 *
 * The locale test builds its pattern from a template literal in which `\b`
 * is the backspace character U+0008, not a word boundary: a locale matches
 * only a language tag that continues with a backspace right after the code.
 */
module Initializer {

  import opened Entities
  import Db
  import Tags
  import SettingsFeature

  const Backspace: char := '\U{0008}'

  /** The language code of a locale. */
  function Code(l: Language): string
  {
    match l
    case En => "en"
    case ZhTW => "zh-TW"
    case Ja => "ja"
  }

  /** The supported locales, in the order they are tried. */
  const SupportedLocales: seq<Language> := [En, ZhTW, Ja]

  /** The pattern `^code` followed by U+0008, tested against a language tag. */
  predicate LocaleMatches(l: Language, tag: string)
  {
    var p := Code(l) + [Backspace];
    |p| <= |tag| && tag[..|p|] == p
  }

  /** `find`: the first candidate whose pattern matches the tag. */
  function FindLocale(candidates: seq<Language>, tag: string): (r: Option<Language>)
    ensures r.Some? ==> r.value in candidates && LocaleMatches(r.value, tag)
    ensures r.Some? ==> exists i :: (0 <= i < |candidates| && candidates[i] == r.value &&
      forall j :: 0 <= j < i ==> !LocaleMatches(candidates[j], tag))
    ensures r.None? ==> forall i :: 0 <= i < |candidates| ==> !LocaleMatches(candidates[i], tag)
  {
    if candidates == [] then None
    else if LocaleMatches(candidates[0], tag) then
      assert candidates[0] == candidates[0];
      Some(candidates[0])
    else
      var rest := FindLocale(candidates[1..], tag);
      if rest.Some? then
        var i :| 0 <= i < |candidates[1..]| && candidates[1..][i] == rest.value &&
          forall j :: 0 <= j < i ==> !LocaleMatches(candidates[1..][j], tag);
        assert candidates[i + 1] == rest.value;
        assert forall j :: 0 < j < i + 1 ==> candidates[j] == candidates[1..][j - 1];
        rest
      else
        assert forall i :: 0 < i < |candidates| ==> candidates[i] == candidates[1..][i - 1];
        rest
  }

  /**
   * The defaults built when there are no settings: English and light, the
   * language replaced by the first matching locale when the browser reports
   * a language, the theme dark when the dark scheme is preferred.
   */
  function DefaultSettings(language: Option<string>, prefersDark: bool): (s: Settings)
    ensures s.id.None? && s.isPopulated.None?
    ensures s.theme == (if prefersDark then Dark else Light)
    ensures s.lang != En ==> language.Some? && LocaleMatches(s.lang, language.value)
    ensures language.None? ==> s.lang == En
  {
    var lang :=
      if language.Some? && language.value != "" then
        var found := FindLocale(SupportedLocales, language.value);
        if found.Some? then found.value else En
      else En;
    Settings(None, lang, if prefersDark then Dark else Light, None)
  }

  /** A locale matches only a tag that holds U+0008 right after the code. */
  lemma MatchNeedsBackspace(l: Language, tag: string)
    requires LocaleMatches(l, tag)
    ensures |Code(l)| < |tag| && tag[|Code(l)|] == Backspace
    ensures Backspace in tag
  {
    var p := Code(l) + [Backspace];
    assert p[|Code(l)|] == Backspace;
    assert tag[..|p|][|Code(l)|] == tag[|Code(l)|];
  }

  /** A language tag without U+0008, such as every tag a browser reports, leaves the language English. */
  lemma {:induction false} NoBackspaceMeansEnglish(tag: string, prefersDark: bool)
    requires Backspace !in tag
    ensures DefaultSettings(Some(tag), prefersDark).lang == En
  {
    var s := DefaultSettings(Some(tag), prefersDark);
    if s.lang != En {
      MatchNeedsBackspace(s.lang, tag);
      assert false;
    }
  }

  /** "ja-JP" does not select Japanese. */
  lemma JapaneseTagStaysEnglish()
    ensures DefaultSettings(Some("ja-JP"), false) == Settings(None, En, Light, None)
  {
    NoBackspaceMeansEnglish("ja-JP", false);
  }

  /** A tag that does carry U+0008 after a supported code selects that locale. */
  lemma BackspaceTagSelectsLocale(rest: string)
    ensures DefaultSettings(Some("ja" + [Backspace] + rest), false).lang == Ja
    ensures DefaultSettings(Some("zh-TW" + [Backspace] + rest), true).lang == ZhTW
  {
    var ja := "ja" + [Backspace] + rest;
    assert ja[..3] == "ja" + [Backspace];
    assert ja != "" && LocaleMatches(Ja, ja);
    assert SupportedLocales[2] == Ja;
    assert !LocaleMatches(En, ja) by { assert ja[1] == 'a'; }
    assert !LocaleMatches(ZhTW, ja) by { assert ja[1] == 'a'; }
    var zh := "zh-TW" + [Backspace] + rest;
    assert zh[..6] == "zh-TW" + [Backspace];
    assert zh != "" && LocaleMatches(ZhTW, zh);
    assert SupportedLocales[1] == ZhTW;
    assert !LocaleMatches(En, zh) by { assert zh[0] == 'z'; }
  }

  /**
   * `useInitializer`: loads the tags, then the settings.  When the settings
   * load, no defaults are built; otherwise, whatever made the load fail, the
   * defaults are built for insertion.  The hook is initialized on every path.
   */
  method Initialize(
    tagTable: Db.TagTable, tagSlice: Tags.TagSlice,
    settingsTable: Db.SettingsTable, settingsSlice: SettingsFeature.SettingsSlice,
    language: Option<string>, prefersDark: bool, tagFault: bool, settingsFault: bool)
    returns (isInitialized: bool, defaults: Option<Settings>)
    requires tagTable.Valid() && settingsTable.Valid()
    modifies tagSlice, settingsSlice
    ensures isInitialized
    ensures defaults.None? <==> !settingsFault && settingsTable.rows != map[]
    ensures defaults.Some? ==> defaults.value == DefaultSettings(language, prefersDark)
    ensures defaults.None? ==> settingsSlice.status == Succeeded && settingsSlice.settings.id.Some?
    ensures defaults.None? ==> settingsSlice.settings.id.value in settingsTable.rows && settingsTable.rows[settingsSlice.settings.id.value] == settingsSlice.settings
    ensures defaults.Some? ==> settingsSlice.status == Failed && settingsSlice.settings == old(settingsSlice.settings)
    ensures tagSlice.status == if tagFault then Failed else Succeeded
  {
    var tags := Tags.DispatchSelectAllTags(tagTable, tagSlice, tagFault);
    var fetched := SettingsFeature.DispatchFetchSettings(settingsTable, settingsSlice, settingsFault);
    var hasSettings := fetched.Fulfilled?;
    if hasSettings {
      isInitialized := true;
      defaults := None;
      return;
    }
    defaults := Some(DefaultSettings(language, prefersDark));
    isInitialized := true;
  }
}
