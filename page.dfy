/** The page's language state as one object whose fields the switcher updates in
    place, as the script does with its globals, the document and `localStorage`. */
module LandingPage {
  import opened Wrappers
  import opened LanguageSwitcher
  import opened LanguageInitializer

  class Page {
    /** `translations`: the dictionaries, as loaded (possibly none). */
    var translations: Table
    /** `currentLang`. */
    var currentLang: string
    /** `document.documentElement.lang`. */
    var htmlLang: string
    /** The `[data-i18n]` elements in document order. */
    var elements: seq<TextElement>
    /** The `.lang-option` buttons in document order. */
    var toggles: seq<LangOption>
    /** `localStorage`. */
    var storage: map<string, string>

    /** The state as a value, for the specification functions. */
    function View(): Document
      reads this
    {
      Document(translations, currentLang, htmlLang, elements, toggles, storage)
    }

    /** The object invariant: the language flag is the default or a language
        with a dictionary. No method needs it; it is kept because every method
        preserves it. With only "en" and "ja" loaded it gives the starting
        condition of `LanguageInitializer.ClickTwice`. */
    ghost predicate Valid()
      reads this
    {
      currentLang == DefaultLang || currentLang in translations
    }

    /** The page as the markup renders it, with the dictionaries that were loaded. */
    constructor (table: Table, markupLang: string, els: seq<TextElement>,
                 opts: seq<LangOption>, stored: map<string, string>)
      ensures Valid()
      ensures View() == Document(table, DefaultLang, markupLang, els, opts, stored)
    {
      translations := table;
      currentLang := DefaultLang;
      htmlLang := markupLang;
      elements := els;
      toggles := opts;
      storage := stored;
    }

    /** `setLanguage(lang)`, with the two passes over the elements and toggles. */
    method SetLanguage(lang: string)
      requires Valid()
      modifies this
      ensures Valid()
      ensures View() == Switch(old(View()), lang)
    {
      if lang !in translations {
        return;
      }
      var dict := translations[lang];
      currentLang := lang;
      htmlLang := lang;

      ghost var before := elements;
      var i := 0;
      while i < |elements|
        invariant 0 <= i <= |elements| == |before|
        invariant forall k :: 0 <= k < i ==> elements[k] == Translated(dict, before[k])
        invariant forall k :: i <= k < |elements| ==> elements[k] == before[k]
        invariant translations == old(translations) && dict == translations[lang]
        invariant currentLang == lang && htmlLang == lang
        invariant toggles == old(toggles) && storage == old(storage)
      {
        var key := elements[i].key;
        if key in dict && dict[key] != "" {
          elements := elements[i := elements[i].(text := dict[key])];
        }
        i := i + 1;
      }
      TranslateAt(dict, before);

      ghost var opts := toggles;
      var j := 0;
      while j < |toggles|
        invariant 0 <= j <= |toggles| == |opts|
        invariant forall k :: 0 <= k < j ==> toggles[k] == Marked(opts[k], lang)
        invariant forall k :: j <= k < |toggles| ==> toggles[k] == opts[k]
        invariant translations == old(translations)
        invariant currentLang == lang && htmlLang == lang
        invariant elements == Translate(dict, before) && storage == old(storage)
      {
        toggles := toggles[j := toggles[j].(active := toggles[j].lang == Some(lang))];
        j := j + 1;
      }
      MarkActiveAt(opts, lang);

      storage := storage[PreferenceKey := lang];
    }

    /** The click handler of the language toggle. */
    method Click()
      requires Valid()
      modifies this
      ensures Valid()
      ensures View() == LanguageInitializer.Click(old(View()))
    {
      var newLang := Flip(currentLang);
      SetLanguage(newLang);
    }

    /** The part of `initializeLanguage` after the handler is attached: resolve the
        initial language and switch to it unless it is "en". */
    method InitializeLanguage(locale: string)
      requires Valid()
      modifies this
      ensures Valid()
      ensures View() == Initialize(old(View()), locale)
    {
      var savedLang := Lookup(storage, PreferenceKey);
      var initialLang := InitialLanguage(savedLang, locale);
      if initialLang != DefaultLang {
        SetLanguage(initialLang);
      }
    }
  }
}
