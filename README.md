# Universal Language Translator: language resolution and session state

This project models the logic of the Streamlit translator app `translator_App.py`:

- the fixed catalog of twelve languages (`LANGUAGES`);
- the speech-code map (`GTTS_LANG_MAP`);
- the reverse lookup `to_code` from a display name to an ISO code;
- the source-language resolution, where the "Auto Detect" entry becomes `"auto"`;
- the speech-code lookup, which falls back to English with a warning;
- the three session fields `translated_text`, `translated_lang` and `tts_bytes`, and the two button handlers that change them (Translate and Read Aloud).

The translation provider (`GoogleTranslator`) and the speech synthesizer (`gTTS` behind `synthesize_speech`) are external services. Each is a parameter of the handler that calls it: a total function from the request to either a reply or a `ProviderError`. So "the provider raises" is a `Failure` reply, and "no provider call is made" is stated through the request the handler reports as sent (`TranslateOutcome.Call()`).

Files:

- `wrappers.dfy`: `Option` and `Result`.
- `text.dfy`: Python's whitespace test and `str.strip()`, which the Translate handler uses to reject blank input.
- `languages.dfy`: the catalog and the three resolutions.
- `session.dfy`: the class `SessionState` with the fields the app keeps in `st.session_state`, and the handlers `Translate` and `ReadAloud`.
- `scenarios.dfy`: end-to-end scenarios of a new session against providers that are constrained only where each run needs it.

`SessionState.Valid()` is the session invariant that both handlers preserve:

- the language is always a catalog code;
- audio, when present, was synthesized from the text and language now stored (a ghost record `spokenFrom` keeps what it was made from), and never from empty text.

So stale audio is never kept next to a new translation. Because the language is always a catalog code, the English fallback of the speech lookup cannot fire from the app's own state.

Two facts about the code that a reader might not expect:

- After a failed speech synthesis, `tts_bytes` keeps its earlier value, which can only be audio made for the same text and language. `ReadAloud` keeps the previous value.
- The speech map's keys are exactly the catalog codes (`SpeechCodesCoverCatalog`), so every language the app can store has a speech code of its own.

## Model

| member | source | states |
|---|---|---|
| `Text.Strip` | translator_App.py:105 | `text.strip()`: the result is no longer than the input, and when it is non-empty it starts and ends with a non-whitespace character (that it is a slice of the input between whitespace runs is `StripRemovesOuterSpaces`) |
| `Text.StripRemovesOuterSpaces` | translator_App.py:105 | `text.strip()` is the input with a whitespace prefix and a whitespace suffix cut off; with the non-whitespace ends stated by `Strip`, this is exactly Python's result |
| `Text.StripEmptyIffBlank` | translator_App.py:105-106 | `not text.strip()` holds exactly when every character of the text is Python whitespace, the empty text included |
| `Text.StripIdempotent` | translator_App.py:105 | stripping an already stripped text changes nothing |
| `Languages.Matches` | translator_App.py:78 | the list comprehension of `to_code` returns only codes whose entry carries the given name; it is empty exactly when no entry has that name |
| `Languages.MatchesHead` | translator_App.py:78 | the comprehension keeps the dictionary order, so `[0]` is the code of the first entry with that name |
| `Languages.MatchesUnique` | translator_App.py:78 | when display names are pairwise distinct, the comprehension for an entry's name is exactly the one-element list of that entry's code |
| `Languages.CatalogCodesDistinct` | translator_App.py:44-57 | the twelve catalog codes are pairwise distinct |
| `Languages.CatalogNamesDistinct` | translator_App.py:44-57 | the twelve display names are pairwise distinct, so the reverse lookup is unambiguous |
| `Languages.ToCode` | translator_App.py:76-78 | `to_code` succeeds exactly for catalog display names and returns a code whose entry has that name; any other name raises the `IndexError` of indexing an empty list |
| `Languages.ToCodeRoundTrip` | translator_App.py:44-78 | for every catalog entry, `to_code` of its display name returns its own code |
| `Languages.SentinelsOutsideCatalog` | translator_App.py:95-110 | "Auto Detect" is not a display name and "auto" is not a catalog code |
| `Languages.ResolveSource` | translator_App.py:110 | the source code is "auto" exactly when the selection is "Auto Detect"; any other selection succeeds exactly when it is a display name, and then yields that name's catalog code |
| `Languages.SelectorOptionsResolve` | translator_App.py:95-98 | every option of the source selector resolves, and so does every option of the target selector, so `to_code` cannot raise for a selection the form offers |
| `Languages.SpeechCodeFor` | translator_App.py:147-150 | measured against the catalog: the fallback warning is raised exactly for codes that are not catalog codes, and a catalog code gets itself as speech code, except "zh", which gets "zh-CN"; a code outside the map gets "en" |
| `Languages.SpeechCodesCoverCatalog` | translator_App.py:44-73 | the keys of the speech map are exactly the catalog codes |
| `Languages.CatalogSpeechCodes` | translator_App.py:60-73 | every catalog code has a speech code without fallback; each maps to itself except "zh", which maps to "zh-CN" |
| `Languages.SpeechLookupExamples` | translator_App.py:147-150 | "zh" gives "zh-CN" without a warning, and an unmapped "xx" gives "en" with the warning |
| `Session.SessionState.constructor` | translator_App.py:10-15 | a new session has empty text, language "en" and no audio, and satisfies the session invariant |
| `Session.SessionState.Translate` | translator_App.py:104-134 | blank text is rejected with no provider call. If the source or the target does not resolve, nothing is sent, and the outcome `UnknownLanguage(name)` records which selection failed to resolve. Otherwise the provider gets (resolved source, resolved target, text). Only a successful reply is committed: it sets the text and the language and clears the audio. After any other ending (blank input, lookup error, provider failure) all session fields are as before. The invariant is preserved. |
| `Session.SessionState.ReadAloud` | translator_App.py:137-157 | not offered while the text is empty. Otherwise the synthesizer gets the text and the speech code of the stored language, which is never the fallback. A successful reply becomes the audio; a failure keeps the previous audio. Text and language never change. The invariant is preserved. |
| `Scenarios.AutoDetectToSpanish` | translator_App.py:104-122 | "Hello" from Auto Detect into Spanish sends ("auto", "es", "Hello"); the reply "Hola" leaves the session at text "Hola", language "es", no audio |
| `Scenarios.FailureKeepsResult` | translator_App.py:109-127 | a provider failure after a successful translation is reported with the request sent, and the earlier text and language remain |
| `Scenarios.NewTranslationDropsAudio` | translator_App.py:117-154 | audio synthesized for one translation is gone once the next translation is committed |
| `Scenarios.UnknownTarget` | translator_App.py:109-127 | a target that is not a display name reports a lookup failure, sends nothing and leaves a new session as it was: empty text, language "en", no audio |
| `Scenarios.ReadChineseAloud` | translator_App.py:144-154 | reading a Chinese translation aloud calls the synthesizer with "zh-CN", without a warning, and stores its audio |

## Left out

- Page configuration, CSS and HTML, columns, spinners, and the success, warning, error and info messages. This is presentation. Where a handler warns or reports an error, the model records which outcome occurred (`TranslateOutcome`, `SpeechOutcome`, `SpeechLang.fellBack`), but not the message text.
- The debug output (the `st.write` lines and the `st.json` block). It is presentation, and it does not change the session.
- The audio player, the download button and its file name `translation_<lang>.mp3`. These only render the stored state.
- The real translation and speech services and the MP3 encoding. They are network services that the model cannot see. Each is a function parameter whose reply is either a value or a `ProviderError`.
- The `@st.cache_data` memoization of `synthesize_speech`. Its implementation belongs to the framework. The synthesizer is modelled as a function, so identical (text, code) pairs give identical audio. How many times the service is actually called is not modelled.
- The 5000-character limit on the input. The text-area widget enforces it, not the program logic.
- Streamlit's rerun model and the concurrency of several sessions. One `SessionState` object stands for one user's session, and each handler call stands for one button click.
- How failures are shown. The app reports a failed lookup (the `IndexError` of `to_code`) and a failed provider call through the same `except Exception` branch, with the same troubleshooting text and no selection name. The model distinguishes them as `UnknownLanguage` and `TranslationFailed`, but does not model the shared message.
- A provider reply that is not a string (for example `None`). The provider is modelled as returning a string or failing.
