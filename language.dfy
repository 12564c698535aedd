/**
 * The interface language of the client (`LanguageProvider`): the language
 * state, the saved preference it starts from, the switcher, and `t`, which
 * looks a dotted key up in the nested translation dictionary of the current
 * language and falls back to the key itself.
 */
module Language {
  import opened Wrappers
  import opened Text
  import opened Json

  /** The two interface languages. */
  datatype Language = Tr | En

  /** The code a language is saved under: `tr` or `en`. */
  function Code(lang: Language): string {
    match lang
    case Tr => "tr"
    case En => "en"
  }

  /** The language a saved code names, if it names one exactly. */
  function FromCode(s: string): Option<Language> {
    if s == "tr" then Some(Tr)
    else if s == "en" then Some(En)
    else None
  }

  /** Reading a saved code back gives the language that was saved, and only codes read back. */
  lemma CodeRoundTrip(lang: Language, s: string)
    ensures FromCode(Code(lang)) == Some(lang)
    ensures FromCode(s) == Some(lang) ==> s == Code(lang)
  {
  }

  /**
   * The language after the mount effect: the saved preference when it is
   * exactly `tr` or `en`, the current one otherwise (nothing saved included).
   */
  function InitialLanguage(current: Language, saved: Option<string>): (r: Language)
    ensures saved.Some? && FromCode(saved.value).Some? ==> r == FromCode(saved.value).value
    ensures saved.None? || FromCode(saved.value).None? ==> r == current
  {
    if saved.Some? && FromCode(saved.value).Some? then FromCode(saved.value).value else current
  }

  /** The language the mount effect ends in is the saved one or the one it started with; a preference saved before is restored. */
  lemma InitialLanguageAdopts(current: Language, saved: Option<string>, lang: Language)
    ensures InitialLanguage(current, saved) != current ==> saved == Some(Code(InitialLanguage(current, saved)))
    ensures InitialLanguage(current, Some(Code(lang))) == lang
  {
    CodeRoundTrip(lang, Code(lang));
    if saved.Some? {
      CodeRoundTrip(InitialLanguage(current, saved), saved.value);
    }
  }

  /** The switcher's target: the other language. */
  function Toggled(lang: Language): Language {
    if lang == Tr then En else Tr
  }

  /** Switching always changes the language, and switching twice restores it. */
  lemma ToggleInvolution(lang: Language)
    ensures Toggled(lang) != lang
    ensures Toggled(Toggled(lang)) == lang
  {
  }

  /** The translation dictionaries of both languages, as the locale files parse. */
  datatype Locales = Locales(tr: Json, en: Json) {
    function For(lang: Language): Json {
      match lang
      case Tr => tr
      case En => en
    }
  }

  /** A segment that names an array element: a decimal index without leading zeros, inside the array. */
  function ArrayIndex(items: seq<Json>, k: string): Option<nat> {
    if |k| > 0 && (forall i :: 0 <= i < |k| ==> Digit(k[i])) && (k[0] != '0' || |k| == 1) && DigitsValue(k) < |items|
    then Some(DigitsValue(k))
    else None
  }

  /**
   * `result[k]` when `result && typeof result === 'object' && k in result`:
   * the own member `k` of an object or element `k` of an array; `None` where
   * the walk gives up.
   */
  function Child(result: Json, k: string): Option<Json> {
    match result
    case JObj(fields) => Lookup(fields, k)
    case JArr(items) =>
      (match ArrayIndex(items, k)
       case Some(i) => Some(items[i])
       case None => None)
    case _ => None
  }

  /** The value reached from `root` by following `keys` one segment after the other, if every step succeeds. */
  function Walk(root: Json, keys: seq<string>): Option<Json>
    decreases |keys|
  {
    if |keys| == 0 then Some(root)
    else
      match Child(root, keys[0])
      case None => None
      case Some(next) => Walk(next, keys[1..])
  }

  /** Walking a path in two parts is walking the first part, then the second from where it ended. */
  lemma {:induction false} WalkAppend(root: Json, a: seq<string>, b: seq<string>)
    ensures Walk(root, a + b) == (match Walk(root, a) case None => None case Some(mid) => Walk(mid, b))
    decreases |a|
  {
    if |a| > 0 {
      assert (a + b)[0] == a[0];
      assert (a + b)[1..] == a[1..] + b;
      match Child(root, a[0])
      case None =>
      case Some(next) => WalkAppend(next, a[1..], b);
    } else {
      assert a + b == b;
    }
  }

  /** `t(key)` in `dictionary`: the string the dotted key leads to, or the key itself. */
  function Translate(dictionary: Json, key: string): string {
    match Walk(dictionary, Split(key, '.'))
    case Some(JStr(s)) => s
    case _ => key
  }

  /**
   * The three outcomes of `t`: the string found at the end of the path; the
   * key when a segment is missing or a step meets something that is not an
   * object; the key when the path ends at something that is not a string.
   */
  lemma TranslateOutcomes(dictionary: Json, key: string)
    ensures var reached := Walk(dictionary, Split(key, '.'));
      && (reached.Some? && reached.value.JStr? ==> Translate(dictionary, key) == reached.value.s)
      && (reached.None? ==> Translate(dictionary, key) == key)
      && (reached.Some? && !reached.value.JStr? ==> Translate(dictionary, key) == key)
      && (Translate(dictionary, key) != key ==> reached.Some? && reached.value == JStr(Translate(dictionary, key)))
  {
  }

  /** A key `group.name` finds the string stored under `name` inside the object `group`. */
  lemma {:induction false} NestedKeyFound(dictionary: Json, group: string, name: string, inner: Json, s: string)
    requires '.' !in group && '.' !in name
    requires dictionary.JObj? && Lookup(dictionary.fields, group) == Some(inner)
    requires inner.JObj? && Lookup(inner.fields, name) == Some(JStr(s))
    ensures Translate(dictionary, group + "." + name) == s
  {
    assert group + "." + name == group + ['.'] + name;
    SplitAppend(group, '.', name);
    SplitWithoutSeparator(group, '.');
    SplitWithoutSeparator(name, '.');
    assert Split(group + "." + name, '.') == [group, name];
    assert [group, name][1..] == [name];
    assert [name][1..] == [];
    assert Walk(JStr(s), []) == Some(JStr(s));
    assert Walk(inner, [name]) == Some(JStr(s));
    assert Walk(dictionary, [group, name]) == Some(JStr(s));
  }

  /** A key whose first segment is not in the dictionary comes back unchanged. */
  lemma {:induction false} MissingKeyFallsBack(dictionary: Json, key: string)
    requires Child(dictionary, Split(key, '.')[0]).None?
    ensures Translate(dictionary, key) == key
  {
  }

  /**
   * The language state of the provider. `saved` stands for the browser's
   * stored `pocket-board-language` entry.
   */
  class LanguageProvider {
    var language: Language
    var saved: Option<string>

    /** A provider starts in Turkish, over whatever was stored before. */
    constructor(stored: Option<string>)
      ensures language == Tr && saved == stored
    {
      language := Tr;
      saved := stored;
    }

    /** The mount effect: adopt the stored preference when it is `tr` or `en`. */
    method Mount()
      modifies this
      ensures language == InitialLanguage(old(language), old(saved))
      ensures saved == old(saved)
    {
      var stored := saved;
      if stored.Some? && (stored.value == "tr" || stored.value == "en") {
        language := if stored.value == "tr" then Tr else En;
      }
    }

    /** `setLanguage`: change the language and store its code. */
    method SetLanguage(lang: Language)
      modifies this
      ensures language == lang && saved == Some(Code(lang))
    {
      language := lang;
      saved := Some(Code(lang));
    }

    /** The switcher's click: set the other language. */
    method Switch()
      modifies this
      ensures language == Toggled(old(language)) && saved == Some(Code(language))
    {
      SetLanguage(if language == Tr then En else Tr);
    }

    /** `t(key)`: walk the current language's dictionary segment by segment. */
    method T(locales: Locales, key: string) returns (r: string)
      ensures r == Translate(locales.For(language), key)
    {
      var keys := Split(key, '.');
      var result := locales.For(language);
      var i := 0;
      while i < |keys|
        invariant 0 <= i <= |keys|
        invariant Walk(locales.For(language), keys) == Walk(result, keys[i..])
      {
        assert keys[i..][1..] == keys[i + 1..];
        var child := Child(result, keys[i]);
        if child.None? {
          return key;
        }
        result := child.value;
        i := i + 1;
      }
      if result.JStr? {
        return result.s;
      }
      return key;
    }
  }

  /** A language set on one provider is the one a provider mounted later over the same storage starts with. */
  method PreferenceSurvivesReload(lang: Language) returns (later: LanguageProvider)
    ensures later.language == lang
  {
    var first := new LanguageProvider(None);
    first.SetLanguage(lang);
    later := new LanguageProvider(first.saved);
    later.Mount();
    InitialLanguageAdopts(Tr, Some(Code(lang)), lang);
  }
}
