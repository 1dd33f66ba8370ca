/** The decisions made by `initializeLanguage`: which language the toggle button
    flips to, and which language the page starts in. */
module LanguageInitializer {
  import opened Wrappers
  import opened LanguageSwitcher

  /** The toggle click handler's choice: "ja" from "en", "en" from anything else. */
  function Flip(current: string): (r: string)
    ensures r == "en" || r == "ja"
    ensures r == "ja" <==> current == "en"
  {
    if current == "en" then "ja" else "en"
  }

  /** `String.prototype.startsWith`. */
  predicate StartsWith(s: string, prefix: string) {
    |prefix| <= |s| && s[..|prefix|] == prefix
  }

  /** `savedLang || browserLang`: a stored preference wins when it is a non-empty
      string; otherwise a browser locale starting with "ja" gives "ja", any other
      locale "en". */
  function InitialLanguage(saved: Option<string>, locale: string): (r: string)
    ensures saved.Some? && saved.value != "" ==> r == saved.value
    ensures !(saved.Some? && saved.value != "") ==>
      && (r == "en" || r == "ja")
      && (r == "ja" <==> StartsWith(locale, "ja"))
  {
    if saved.Some? && saved.value != "" then saved.value
    else if StartsWith(locale, "ja") then "ja" else "en"
  }

  /** The language resolution and the one conditional switch of `initializeLanguage`:
      `setLanguage` is applied exactly when the resolved language is not "en". */
  function Initialize(d: Document, locale: string): (r: Document)
    ensures var lang := InitialLanguage(Lookup(d.storage, PreferenceKey), locale);
      && (lang == DefaultLang ==> r == d)
      && (lang != DefaultLang ==> r == Switch(d, lang))
  {
    var lang := InitialLanguage(Lookup(d.storage, PreferenceKey), locale);
    if lang != DefaultLang then Switch(d, lang) else d
  }

  /** One click on the language toggle: the page moves to the other language when
      that one is loaded, and stays exactly as it was when it is not. */
  function Click(d: Document): (r: Document)
    ensures Flip(d.currentLang) in d.translations ==>
      r.currentLang == Flip(d.currentLang) && r.currentLang != d.currentLang
    ensures Flip(d.currentLang) !in d.translations ==> r == d
  {
    Switch(d, Flip(d.currentLang))
  }

  /** When neither dictionary could be loaded, initialization and every later
      click leave the page exactly as it was. */
  lemma NothingLoadedIsInert(d: Document, locale: string)
    requires d.translations == map[]
    ensures Initialize(d, locale) == d
    ensures Click(d) == d
  {
  }

  /** With both dictionaries loaded, two clicks bring back the starting language,
      the toggle state of that language, and its texts when the page showed them
      and its dictionary covers every key. */
  lemma ClickTwice(d: Document)
    requires "en" in d.translations && "ja" in d.translations
    requires d.currentLang == "en" || d.currentLang == "ja"
    ensures Click(Click(d)).currentLang == d.currentLang
    ensures Click(Click(d)).htmlLang == d.currentLang
    ensures Click(Click(d)).toggles == MarkActive(d.toggles, d.currentLang)
    ensures Covers(d.translations[d.currentLang], d.elements) &&
            RenderedIn(d.elements, d.translations[d.currentLang]) ==>
              Click(Click(d)).elements == d.elements
  {
    var a := d.currentLang;
    var b := Flip(a);
    var once := Click(d);
    assert once.currentLang == b && once.elements == Translate(d.translations[b], d.elements);
    assert Flip(b) == a;
    MarkActiveAt(d.toggles, b);
    MarkActiveAt(once.toggles, a);
    MarkActiveAt(d.toggles, a);
    if Covers(d.translations[a], d.elements) && RenderedIn(d.elements, d.translations[a]) {
      TranslateOverrides(d.translations[a], d.translations[b], d.elements);
      TranslateRenderedIsIdentity(d.translations[a], d.elements);
    }
  }

  /** The stored preference survives a reload: after switching to a loaded,
      non-empty `lang`, the next initialization resolves to `lang` whatever the
      browser locale. */
  lemma PreferenceRoundTrip(d: Document, lang: string, locale: string)
    requires lang in d.translations && lang != ""
    ensures InitialLanguage(Lookup(Switch(d, lang).storage, PreferenceKey), locale) == lang
  {
  }

  /** Switching to `lang` and then reloading the page (fresh markup, the same
      dictionaries, the storage as the switch left it) renders the same texts and
      the same language, provided `lang`'s dictionary covers every key and, for
      "en", the markup is already in English. */
  lemma {:induction false} ReloadReproduces(d: Document, lang: string, markup: Document, locale: string)
    requires lang in d.translations && lang != ""
    requires markup.translations == d.translations
    requires markup.currentLang == DefaultLang
    requires markup.storage == Switch(d, lang).storage
    requires |markup.elements| == |d.elements|
    requires forall i :: 0 <= i < |d.elements| ==> markup.elements[i].key == d.elements[i].key
    requires Covers(d.translations[lang], d.elements)
    requires lang == DefaultLang ==> RenderedIn(markup.elements, d.translations[lang])
    ensures Initialize(markup, locale).elements == Switch(d, lang).elements
    ensures Initialize(markup, locale).currentLang == Switch(d, lang).currentLang
  {
    var dict := d.translations[lang];
    assert InitialLanguage(Lookup(markup.storage, PreferenceKey), locale) == lang;
    TranslateAt(dict, d.elements);
    TranslateAt(dict, markup.elements);
    if lang == DefaultLang {
      TranslateRenderedIsIdentity(dict, markup.elements);
    }
    assert Translate(dict, markup.elements) == Translate(dict, d.elements);
  }

  /** The two-dictionary example: a `title` element goes from "Hello" to
      "こんにちは" on the first click and back to "Hello" on the second. */
  lemma TitleScenario()
    ensures var d := Document(map["en" := map["title" := "Hello"], "ja" := map["title" := "こんにちは"]],
                              "en", "en", [TextElement("title", "Hello")],
                              [LangOption(Some("en"), true), LangOption(Some("ja"), false)], map[]);
      && Click(d).elements == [TextElement("title", "こんにちは")]
      && Click(d).toggles == [LangOption(Some("en"), false), LangOption(Some("ja"), true)]
      && Click(Click(d)).elements == d.elements
      && Click(Click(d)).toggles == d.toggles
  {
    var d := Document(map["en" := map["title" := "Hello"], "ja" := map["title" := "こんにちは"]],
                      "en", "en", [TextElement("title", "Hello")],
                      [LangOption(Some("en"), true), LangOption(Some("ja"), false)], map[]);
    assert Click(d).elements == Translate(map["title" := "こんにちは"], d.elements);
  }

  /** Without coverage the reload round trip fails: with an empty "ja"
      dictionary a switch keeps the page's current text "old", while the reload
      starts from the markup's "markup" and keeps that. */
  lemma ReloadWithoutCoverageDiffers()
    ensures var table := map["en" := map[], "ja" := map[]];
      var d := Document(table, "en", "en", [TextElement("t", "old")], [], map[]);
      var markup := Document(table, "en", "en", [TextElement("t", "markup")], [], Switch(d, "ja").storage);
      Initialize(markup, "").elements != Switch(d, "ja").elements
  {
    var table: Table := map["en" := map[], "ja" := map[]];
    var d := Document(table, "en", "en", [TextElement("t", "old")], [], map[]);
    var markup := Document(table, "en", "en", [TextElement("t", "markup")], [], Switch(d, "ja").storage);
    assert Switch(d, "ja").elements[0].text == "old";
    assert InitialLanguage(Lookup(markup.storage, PreferenceKey), "") == "ja";
    assert Initialize(markup, "").elements[0].text == "markup";
  }
}
