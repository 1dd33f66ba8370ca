# Landing page language switcher and scroll reveal, in Dafny

This project models the logic of the landing page script `js/main.js`. The logic
sits under its DOM, storage and timer calls. It has three parts:

- **The language switcher** (`setLanguage`). The page's language state is a
  `Document` value:
  - the table of loaded dictionaries;
  - the `currentLang` flag;
  - the root element's `lang` attribute;
  - the `[data-i18n]` elements as `(key, text)` pairs;
  - the `.lang-option` buttons as `(data-lang, active)` pairs;
  - `localStorage` as a string map.

  `LanguageSwitcher.Switch` is one call of `setLanguage` on that value. The class
  `LandingPage.Page` holds the same state in fields. Its `SetLanguage` method
  updates them in place, with two loops that mirror the two `forEach` passes, and
  is proved to produce `Switch` of the old state.
- **The language initializer** (`initializeLanguage`). It covers the toggle's
  flip ("ja" from "en", "en" from anything else), the initial-language rule
  (`savedLang || browserLang`) and the conditional first switch. These are pure
  functions in `LanguageInitializer`. `Page.Click` and `Page.InitializeLanguage`
  carry the same logic as methods on the object.
- **The scroll animator** (the `IntersectionObserver` callback). The observer is
  a set of observed element ids plus the ordered list of elements whose reveal
  timer has been started. `ScrollAnimator.Deliver` is the callback on one batch
  of entries. `RevealObserver.OnEntries` is its loop on the object. The lemmas
  prove, with no assumption, that the reveal never reverts: a batch schedules
  exactly its intersecting elements and keeps every earlier reveal. They also
  prove, with no assumption, that an element with a scheduled reveal is never
  observed again. Under the browser's guarantee that every entry of a batch is
  for an element observed when the batch began, they prove that an element
  unobserved before the batch gets nothing from it. That no
  element is scheduled twice is proved only under an assumption about the
  entries (`FromObserved`). A counterexample shows a batch outside it that starts
  two timers for one element.

Modelling choices:
- `!translations[lang]` is modelled as "`lang` is not a key of the table". A
  parsed dictionary object is always truthy.
- `translations[lang][key]` is truthy when the key is present with a non-empty
  string (`HasText`). Keys inherited from `Object.prototype` are not modelled
  (see "## Left out").
- A `.lang-option` without `data-lang` reads `undefined`, which never equals a
  language. Its declared language is therefore `Option<string>`.
- `localStorage.getItem` returning `null` is `None` (`Wrappers.Lookup`).
- `navigator.language` is a parameter (`locale`).

## Model

| member | source | states |
|---|---|---|
| LanguageSwitcher.Switch | js/main.js:29-53 | If `lang` has no dictionary, nothing changes. Otherwise the flag and the `lang` attribute become `lang`. No element is added, removed or re-keyed. An element's text becomes the dictionary's string exactly when its key has a non-empty entry; otherwise it keeps its old text. Toggles keep their number and order, and a toggle is active iff its `data-lang` equals `lang`. Storage maps `preferred-lang` to `lang` and every other key is unchanged. |
| LanguageSwitcher.TranslateAt | js/main.js:39-44 | The text pass keeps the element count, and element `i` of the result is element `i` translated on its own. |
| LanguageSwitcher.MarkActiveAt | js/main.js:47-49 | The toggle pass keeps the button count and order, and button `i` of the result is button `i` with `active` set by equality with `lang`. |
| LanguageSwitcher.TranslateRenders | js/main.js:39-44 | After a pass with a dictionary, the page shows that dictionary, so a second switch to the same language changes no text. |
| LanguageSwitcher.TranslateOverrides | js/main.js:39-44 | When a dictionary has a non-empty entry for every key, switching to it leaves no trace of an earlier switch to another language. |
| LanguageSwitcher.TranslateRenderedIsIdentity | js/main.js:39-44 | A pass changes no element that already shows the dictionary's text. |
| LanguageSwitcher.SwitchKeepsLanguageLoaded | js/main.js:30-35 | The flag stays either the default "en" or a language that has a dictionary. |
| LandingPage.Page.constructor | js/main.js:2-3 | The page starts with the flag at "en" and the markup's texts, toggles and storage. |
| LandingPage.Page.SetLanguage | js/main.js:29-53 | The in-place update with its two loops yields exactly `Switch` of the old state, and keeps the flag loaded. |
| LandingPage.Page.Click | js/main.js:57-60 | The click handler's update equals `Click` of the old state. |
| LandingPage.Page.InitializeLanguage | js/main.js:63-68 | The initialization update equals `Initialize` of the old state. |
| LanguageInitializer.Flip | js/main.js:58 | The flip always yields "en" or "ja", and yields "ja" exactly when the current language is "en". |
| LanguageInitializer.InitialLanguage | js/main.js:63-65 | A non-empty stored preference wins. Otherwise the result is "ja" exactly when the locale starts with "ja", and "en" otherwise. |
| LanguageInitializer.Initialize | js/main.js:63-68 | `setLanguage` is applied exactly when the resolved language is not "en"; otherwise the page is untouched. |
| LanguageInitializer.Click | js/main.js:57-60 | A click moves the page to the other language when that one is loaded, and changes nothing when it is not. |
| LanguageInitializer.NothingLoadedIsInert | js/main.js:29-33 | With no dictionary loaded, neither initialization nor a click changes anything. |
| LanguageInitializer.ClickTwice | js/main.js:58-59 | With both dictionaries loaded, two clicks restore the starting language, set the `lang` attribute to the starting language, and leave the toggles marked for it. The texts come back too when the page showed that language and its dictionary covers every key. |
| LanguageInitializer.PreferenceRoundTrip | js/main.js:52-65 | After a switch to a loaded, non-empty language, the next initialization resolves to that language whatever the browser locale. |
| LanguageInitializer.ReloadReproduces | js/main.js:29-68 | Switching to `lang` and then reloading gives the same texts and the same flag as the switch. The reload uses fresh markup, the same dictionaries and the persisted storage. This needs `lang`'s dictionary to cover every key and, for "en", English markup. |
| LanguageInitializer.ReloadWithoutCoverageDiffers | js/main.js:39-44 | Without coverage the reload round trip fails. With an empty "ja" dictionary, a switch keeps the page's text "old", while the reload keeps the markup's "markup". |
| LanguageInitializer.TitleScenario | js/main.js:39-49 | The two-dictionary example: `title` goes "Hello" → "こんにちは" → "Hello", and the active toggle follows. |
| ScrollAnimator.DeliverEffect | js/main.js:85-95 | A batch unobserves exactly its intersecting targets. It schedules a reveal for each of them and for nothing else. Every earlier reveal stays in place, as a prefix, so a reveal never reverts. |
| ScrollAnimator.QuietBatch | js/main.js:86-87 | A batch without intersecting entries changes nothing. |
| ScrollAnimator.UnobservedStaysDone | js/main.js:92 | For a batch satisfying `FromObserved`, an element that is no longer observed stays unobserved and gets no further reveal. |
| ScrollAnimator.OneShotPreserved | js/main.js:86-93 | For a batch satisfying the `FromObserved` assumption, each element stays scheduled at most once and is never both scheduled and observed. |
| ScrollAnimator.UnobservedSkipped | js/main.js:86-93 | When every entry of a batch is for an element observed at the batch's start, an element unobserved before the batch stays unobserved and gets no further reveal. |
| ScrollAnimator.RepeatedEntrySchedulesTwice | js/main.js:86-93 | A batch with two intersecting entries for one element, queued before the callback ran, starts two timers for it. That batch breaks `OneShot` and falls outside `FromObserved`. |
| ScrollAnimator.DisjointPreserved | js/main.js:86-93 | With no assumption on the entries, every batch keeps the elements with a scheduled reveal out of the observed set. |
| ScrollAnimator.RevealObserver.constructor | js/main.js:85 | A new observer watches nothing, has scheduled nothing and satisfies `Valid` and `OneShot`. |
| ScrollAnimator.RevealObserver.Observe | js/main.js:98-100 | `observe` adds the element to the observed set and schedules nothing. It keeps `Valid` and `OneShot` for an element not yet scheduled. That holds for every call at load, because no callback has run yet. |
| ScrollAnimator.RevealObserver.OnEntries | js/main.js:85-95 | The callback's loop yields exactly `Deliver` of the old state. It keeps `Valid` (scheduled elements are not observed) for every batch, and keeps `OneShot` for a batch satisfying `FromObserved`. |

## Left out

- `loadTranslations` (js/main.js:6-27) is asynchronous network I/O with JSON parsing. The dictionary table is an input instead, possibly empty or partial.
  - A parse failure of the second body after the first was stored leaves one dictionary loaded. The model covers that as a table with one entry.
  - If `initializeLanguage` throws inside the `try`, the `catch` runs it a second time. An example is a missing `#langToggle` at line 57. The model does not capture this double run.
- Attaching the click listener to `#langToggle` (js/main.js:57) is not modelled. `Page.Click` models the body of the listener.
- Replacing child nodes is not modelled (js/main.js:42). Each `[data-i18n]` element is an independent `(key, text)` record, and each `.lang-option` an independent button. Setting `textContent` replaces all of an element's child nodes. The model assumes no translatable element or toggle sits inside a translatable element, and that no translatable element holds child markup such as links or `<strong>`. Without that assumption, two things are lost:
  - A nested `[data-i18n]` or `.lang-option` element is detached by the outer write, so later `querySelectorAll` calls (js/main.js:39, 47) no longer find it. "No element is added or removed" then holds within one call but not across switches.
  - Child markup is lost for good, so the texts that `ClickTwice` and `TitleScenario` say come back would come back without it.
- `console.warn` and `console.error` are output only and are not modelled.
- JSON values that are not strings are not modelled. The table is a plain finite map of string dictionaries.
- Prototype-chain lookups are not modelled, both in `translations[lang]` (js/main.js:30) and in `translations[lang][key]` (js/main.js:41-42). For `data-i18n="constructor"`, `"toString"` or `"__proto__"`, the source finds an inherited value where the JSON has no key, and writes that value's string form ("[object Object]" or a function's source). The model leaves such an element unchanged.
- `localStorage.getItem` and `localStorage.setItem` throwing are not modelled (js/main.js:52, 63). This happens when storage is disabled or the quota is exceeded. The model treats both calls as total.
- The timer is not modelled. This covers when `setTimeout` fires, the moment `visible` is added, and the coercion of `dataset.delay` (js/main.js:88-91). A reveal is only "scheduled".
- OneShotPreserved: proved only under the assumption `FromObserved`, which is stronger than what the browser promises. The assumption says every intersecting entry's target is still observed when the entry is handled. It excludes a batch holding two intersecting entries for one element. Such a batch can occur when several rendering updates queue entries before the callback runs, because `unobserve` does not drop queued entries. The source then starts a second timer (`RepeatedEntrySchedulesTwice`). The `visible` class is still only ever added, as `DeliverEffect` shows without any assumption.
- UnobservedStaysDone: proved only under the same `FromObserved` assumption. `UnobservedSkipped` states the same fact under the weaker assumption the browser does give: every entry is for an element observed when the batch began.
- Registering the `[data-animate]` elements (js/main.js:98-100) is modelled only as repeated `Observe` calls.
- Smooth anchor scrolling (js/main.js:103-114) is left out. It is event wiring around `scrollIntoView`, which has no observable state here.
- The parallax handler (js/main.js:117-124) is left out. It is floating-point pixel and opacity arithmetic on scroll events.
