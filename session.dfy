/**
 The result state the translator app keeps across page reruns, and the two
 button handlers that change it: Translate and Read Aloud. The translation
 provider and the speech synthesizer are external services; each is a
 parameter here, a total function from its request to a reply or an error.
 */
module Session {
  import opened Wrappers
  import opened Text
  import opened Languages

  newtype byte = x: int | 0 <= x < 256

  /** Audio as the speech synthesizer returns it. */
  type Bytes = seq<byte>

  /** An exception raised by one of the external services, kept opaque. */
  datatype ProviderError = ProviderError(message: string)

  /** What the Translate handler asks of the translation provider. */
  datatype Request = Request(source: Code, target: Code, text: string)

  /** `GoogleTranslator(source=..., target=...).translate(text)`. */
  type Translator = Request -> Result<string, ProviderError>

  /** `synthesize_speech(text, lang_code)`. */
  type Synthesizer = (string, string) -> Result<Bytes, ProviderError>

  /** How a click on Translate ends. */
  datatype TranslateOutcome =
    | BlankInput                                            // warned, nothing called
    | UnknownLanguage(name: string)                         // `to_code` raised
    | TranslationFailed(request: Request, error: ProviderError)
    | Translated(request: Request, text: string)
  {
    /** The request the translation provider received, if it was called. */
    function Call(): Option<Request> {
      match this
      case TranslationFailed(request, _) => Some(request)
      case Translated(request, _) => Some(request)
      case _ => None
    }
  }

  /** How a click on Read Aloud ends. */
  datatype SpeechOutcome =
    | NotOffered                                            // no translated text yet
    | Spoken(speech: SpeechLang)
    | SynthesisFailed(speech: SpeechLang, error: ProviderError)

  /** `st.session_state`: the last committed translation and its audio. */
  class SessionState {
    var translatedText: string
    var translatedLang: Code
    var ttsBytes: Option<Bytes>

    /** The text and language the current audio was synthesized from. */
    ghost var spokenFrom: Option<(string, Code)>

    /** The language is always a catalog code, and audio, when present, was
        made from the text now shown (stale audio is never kept alongside new
        text), and only ever from non-empty text. */
    ghost predicate Valid()
      reads this
    {
      && IsCode(translatedLang)
      && (ttsBytes.Some? <==> spokenFrom.Some?)
      && (spokenFrom.Some? ==>
            translatedText != "" &&
            spokenFrom.value == (translatedText, translatedLang))
    }

    /** The state of a new session. */
    constructor ()
      ensures Valid()
      ensures translatedText == "" && translatedLang == "en" && ttsBytes == None
    {
      translatedText := "";
      translatedLang := "en";
      ttsBytes := None;
      spokenFrom := None;
      assert Catalog[0].0 == "en";
    }

    /** The Translate button. Blank text is rejected before anything is
        called; otherwise the source and target are resolved, the provider is
        called with them, and only a successful reply is committed, replacing
        the text and language and clearing the audio. Every other ending
        leaves the whole state as it was. */
    method Translate(text: string, source: string, target: string, translator: Translator)
      returns (outcome: TranslateOutcome)
      requires Valid()
      modifies this
      ensures Valid()
      ensures IsBlank(text) ==> outcome == BlankInput
      ensures !IsBlank(text) && ResolveSource(source).Failure? ==>
                outcome == UnknownLanguage(source)
      ensures !IsBlank(text) && ResolveSource(source).Success? && ToCode(target).Failure? ==>
                outcome == UnknownLanguage(target)
      ensures outcome.Call().Some? <==>
                !IsBlank(text) && ResolveSource(source).Success? && ToCode(target).Success?
      ensures outcome.Call().Some? ==>
                outcome.Call().value ==
                  Request(ResolveSource(source).value, ToCode(target).value, text)
      ensures outcome.TranslationFailed? ==>
                translator(outcome.request) == Failure(outcome.error)
      ensures outcome.Translated? ==>
                translator(outcome.request) == Success(outcome.text)
      ensures outcome.Translated? ==>
                translatedText == outcome.text &&
                translatedLang == outcome.request.target &&
                ttsBytes == None
      ensures !outcome.Translated? ==> unchanged(this)
    {
      StripEmptyIffBlank(text);
      if Strip(text) == [] {
        outcome := BlankInput;
        return;
      }
      var src := ResolveSource(source);
      if src.Failure? {
        outcome := UnknownLanguage(source);
        return;
      }
      var dest := ToCode(target);
      if dest.Failure? {
        outcome := UnknownLanguage(target);
        return;
      }
      ghost var k :| 0 <= k < |Catalog| && Catalog[k] == (dest.value, target);
      assert Catalog[k].0 == dest.value;
      var request := Request(src.value, dest.value, text);
      var reply := translator(request);
      if reply.Failure? {
        outcome := TranslationFailed(request, reply.error);
        return;
      }
      translatedText := reply.value;
      translatedLang := dest.value;
      ttsBytes := None;
      spokenFrom := None;
      outcome := Translated(request, reply.value);
    }

    /** The Read Aloud button, shown only while there is translated text. The
        language is mapped to a speech code and the synthesizer is called with
        the text; a successful reply becomes the audio. The text and language
        are never touched, and a failed call keeps the previous audio. */
    method ReadAloud(synthesizer: Synthesizer) returns (outcome: SpeechOutcome)
      requires Valid()
      modifies this`ttsBytes, this`spokenFrom
      ensures Valid()
      ensures translatedText == old(translatedText) && translatedLang == old(translatedLang)
      ensures outcome.NotOffered? <==> translatedText == ""
      ensures !outcome.NotOffered? ==> outcome.speech == SpeechCodeFor(translatedLang)
      ensures !outcome.NotOffered? ==> !outcome.speech.fellBack
      ensures outcome.Spoken? <==>
                translatedText != "" &&
                synthesizer(translatedText, SpeechCodeFor(translatedLang).code).Success?
      ensures outcome.SynthesisFailed? ==>
                synthesizer(translatedText, outcome.speech.code) == Failure(outcome.error)
      ensures ttsBytes ==
                if outcome.Spoken?
                then Some(synthesizer(translatedText, outcome.speech.code).value)
                else old(ttsBytes)
    {
      if translatedText == "" {
        outcome := NotOffered;
        return;
      }
      var speech := SpeechCodeFor(translatedLang);
      SpeechCodesCoverCatalog();
      var reply := synthesizer(translatedText, speech.code);
      if reply.Failure? {
        outcome := SynthesisFailed(speech, reply.error);
        return;
      }
      ttsBytes := Some(reply.value);
      spokenFrom := Some((translatedText, translatedLang));
      outcome := Spoken(speech);
    }
  }
}
