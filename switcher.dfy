/** The language switcher of the landing page, on values.

    The page's language state is a `Document`: the table of loaded dictionaries,
    the current language flag, the `lang` attribute of the root element, the
    elements tagged with a translation key, the language-option toggle buttons and
    the key-value store that persists the preference. `Switch` is what one call of
    the page's `setLanguage` does to that state; `LandingPage.Page.SetLanguage`
    performs the same update in place and is proved equal to it. */
module LanguageSwitcher {
  import opened Wrappers

  /** A flat dictionary from translation key to display string. */
  type Dictionary = map<string, string>

  /** The loaded dictionaries, by language code ("en", "ja"). */
  type Table = map<string, Dictionary>

  /** An element carrying `data-i18n`: its key and its current text content. */
  datatype TextElement = TextElement(key: string, text: string)

  /** A `.lang-option` button: its `data-lang` (None when the attribute is absent)
      and whether it carries the `active` class. */
  datatype LangOption = LangOption(lang: Option<string>, active: bool)

  /** The storage key under which the chosen language is persisted. */
  const PreferenceKey: string := "preferred-lang"

  /** The language every page starts in, before any switch. */
  const DefaultLang: string := "en"

  datatype Document = Document(
    translations: Table,
    currentLang: string,
    htmlLang: string,
    elements: seq<TextElement>,
    toggles: seq<LangOption>,
    storage: map<string, string>)

  /** A dictionary entry counts only when it is truthy: present and non-empty. */
  predicate HasText(dict: Dictionary, key: string) {
    key in dict && dict[key] != ""
  }

  /** One element after the dictionary pass. */
  function Translated(dict: Dictionary, el: TextElement): TextElement {
    if HasText(dict, el.key) then el.(text := dict[el.key]) else el
  }

  /** The dictionary pass over all translatable elements. */
  function Translate(dict: Dictionary, els: seq<TextElement>): seq<TextElement> {
    if els == [] then [] else [Translated(dict, els[0])] + Translate(dict, els[1..])
  }

  /** One toggle after the toggle pass: active exactly when it declares `lang`. */
  function Marked(opt: LangOption, lang: string): LangOption {
    opt.(active := opt.lang == Some(lang))
  }

  /** The toggle pass over all language-option buttons. */
  function MarkActive(opts: seq<LangOption>, lang: string): seq<LangOption> {
    if opts == [] then [] else [Marked(opts[0], lang)] + MarkActive(opts[1..], lang)
  }

  /** The dictionary pass touches each element on its own and keeps the list's shape. */
  lemma {:induction false} TranslateAt(dict: Dictionary, els: seq<TextElement>)
    ensures |Translate(dict, els)| == |els|
    ensures forall i :: 0 <= i < |els| ==> Translate(dict, els)[i] == Translated(dict, els[i])
  {
    if els != [] {
      TranslateAt(dict, els[1..]);
    }
  }

  /** The toggle pass touches each button on its own and keeps number and order. */
  lemma {:induction false} MarkActiveAt(opts: seq<LangOption>, lang: string)
    ensures |MarkActive(opts, lang)| == |opts|
    ensures forall i :: 0 <= i < |opts| ==> MarkActive(opts, lang)[i] == Marked(opts[i], lang)
  {
    if opts != [] {
      MarkActiveAt(opts[1..], lang);
    }
  }

  /** `setLanguage(lang)`: a no-op for a language without a dictionary; otherwise it
      sets the flag and the `lang` attribute, overwrites exactly the texts whose key
      has a truthy entry, marks exactly the toggles declaring `lang` active and
      persists `lang`, touching no other storage key. */
  function Switch(d: Document, lang: string): (r: Document)
    ensures lang !in d.translations ==> r == d
    ensures lang in d.translations ==>
      && r.translations == d.translations
      && r.currentLang == lang
      && r.htmlLang == lang
      && |r.elements| == |d.elements|
      && (forall i :: 0 <= i < |d.elements| ==>
            && r.elements[i].key == d.elements[i].key
            && (HasText(d.translations[lang], d.elements[i].key) ==>
                  r.elements[i].text == d.translations[lang][d.elements[i].key])
            && (!HasText(d.translations[lang], d.elements[i].key) ==>
                  r.elements[i].text == d.elements[i].text))
      && |r.toggles| == |d.toggles|
      && (forall i :: 0 <= i < |d.toggles| ==>
            && r.toggles[i].lang == d.toggles[i].lang
            && (r.toggles[i].active <==> d.toggles[i].lang == Some(lang)))
      && r.storage.Keys == d.storage.Keys + {PreferenceKey}
      && r.storage[PreferenceKey] == lang
      && (forall k :: k in d.storage && k != PreferenceKey ==> r.storage[k] == d.storage[k])
  {
    if lang !in d.translations then d
    else
      var dict := d.translations[lang];
      TranslateAt(dict, d.elements);
      MarkActiveAt(d.toggles, lang);
      d.(currentLang := lang,
         htmlLang := lang,
         elements := Translate(dict, d.elements),
         toggles := MarkActive(d.toggles, lang),
         storage := d.storage[PreferenceKey := lang])
  }

  /** Elements already showing `dict`'s text wherever `dict` has a truthy entry. */
  ghost predicate RenderedIn(els: seq<TextElement>, dict: Dictionary) {
    forall i :: 0 <= i < |els| ==> Translated(dict, els[i]) == els[i]
  }

  /** Every element's key has a truthy entry in `dict`. */
  ghost predicate Covers(dict: Dictionary, els: seq<TextElement>) {
    forall i :: 0 <= i < |els| ==> HasText(dict, els[i].key)
  }

  /** Switching is idempotent on the texts: after a pass with `dict` the elements
      show `dict`, so a second pass with the same dictionary changes nothing. */
  lemma {:induction false} TranslateRenders(dict: Dictionary, els: seq<TextElement>)
    ensures RenderedIn(Translate(dict, els), dict)
    ensures Translate(dict, Translate(dict, els)) == Translate(dict, els)
  {
    TranslateAt(dict, els);
    TranslateAt(dict, Translate(dict, els));
  }

  /** A pass with a dictionary that covers every key erases whatever an earlier
      pass with another dictionary left behind. */
  lemma {:induction false} TranslateOverrides(a: Dictionary, b: Dictionary, els: seq<TextElement>)
    requires Covers(a, els)
    ensures Translate(a, Translate(b, els)) == Translate(a, els)
  {
    TranslateAt(b, els);
    TranslateAt(a, els);
    TranslateAt(a, Translate(b, els));
  }

  /** Elements that already show `dict` are left alone by a pass with it. */
  lemma {:induction false} TranslateRenderedIsIdentity(dict: Dictionary, els: seq<TextElement>)
    requires RenderedIn(els, dict)
    ensures Translate(dict, els) == els
  {
    TranslateAt(dict, els);
  }

  /** The page's current language is the default or one it has a dictionary for;
      every switch keeps that so. */
  lemma SwitchKeepsLanguageLoaded(d: Document, lang: string)
    requires d.currentLang == DefaultLang || d.currentLang in d.translations
    ensures var r := Switch(d, lang);
      r.currentLang == DefaultLang || r.currentLang in r.translations
  {
  }
}
