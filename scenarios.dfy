/**
 End-to-end scenarios of the session: a new session, one or more button
 clicks, and what the state and the provider calls are afterwards. The providers are
 parameters; each scenario fixes only the replies it relies on.
 */
module Scenarios {
  import opened Wrappers
  import opened Text
  import opened Languages
  import opened Session

  /** "Hello" is not blank. */
  lemma HelloNotBlank()
    ensures !IsBlank("Hello")
  {
    assert !IsSpace("Hello"[0]);
  }

  /** Auto-detect into Spanish: the provider is asked for ("auto", "es",
      "Hello") and its reply "Hola" becomes the result, with no audio. */
  method AutoDetectToSpanish(translator: Translator)
    returns (call: Option<Request>, text: string, lang: Code, audio: Option<Bytes>)
    requires translator(Request("auto", "es", "Hello")) == Success("Hola")
    ensures call == Some(Request("auto", "es", "Hello"))
    ensures text == "Hola" && lang == "es" && audio == None
  {
    var session := new SessionState();
    HelloNotBlank();
    ToCodeRoundTrip(1);
    var outcome := session.Translate("Hello", AutoDetect, "Spanish", translator);
    call := outcome.Call();
    text, lang, audio := session.translatedText, session.translatedLang, session.ttsBytes;
  }

  /** A failed call after a successful one: the failure is reported and the
      earlier result stays in place. */
  method FailureKeepsResult(translator: Translator)
    returns (outcome: TranslateOutcome, text: string, lang: Code)
    requires translator(Request("auto", "es", "Hello")) == Success("Hola")
    requires translator(Request("auto", "de", "Hello")).Failure?
    ensures outcome.TranslationFailed? && outcome.request == Request("auto", "de", "Hello")
    ensures text == "Hola" && lang == "es"
  {
    var session := new SessionState();
    HelloNotBlank();
    ToCodeRoundTrip(1);
    ToCodeRoundTrip(3);
    var first := session.Translate("Hello", AutoDetect, "Spanish", translator);
    outcome := session.Translate("Hello", AutoDetect, "German", translator);
    text, lang := session.translatedText, session.translatedLang;
  }

  /** Audio made for one translation is dropped as soon as the next
      translation is committed. */
  method NewTranslationDropsAudio(translator: Translator, synthesizer: Synthesizer)
    returns (audioBefore: Option<Bytes>, audioAfter: Option<Bytes>, text: string)
    requires translator(Request("auto", "es", "Hello")) == Success("Hola")
    requires translator(Request("en", "fr", "Hello")) == Success("Bonjour")
    requires synthesizer("Hola", "es").Success?
    ensures audioBefore == Some(synthesizer("Hola", "es").value)
    ensures audioAfter == None && text == "Bonjour"
  {
    var session := new SessionState();
    HelloNotBlank();
    ToCodeRoundTrip(0);
    ToCodeRoundTrip(1);
    ToCodeRoundTrip(2);
    CatalogSpeechCodes(1);
    var first := session.Translate("Hello", AutoDetect, "Spanish", translator);
    var spoken := session.ReadAloud(synthesizer);
    audioBefore := session.ttsBytes;
    var second := session.Translate("Hello", "English", "French", translator);
    audioAfter, text := session.ttsBytes, session.translatedText;
  }

  /** A target that is not a display name makes `to_code` raise: nothing is
      sent to the provider and the session is as it was. */
  method UnknownTarget(translator: Translator)
    returns (outcome: TranslateOutcome, text: string, lang: Code, audio: Option<Bytes>)
    ensures outcome == UnknownLanguage("Klingon") && outcome.Call() == None
    ensures text == "" && lang == "en" && audio == None
  {
    var session := new SessionState();
    HelloNotBlank();
    outcome := session.Translate("Hello", AutoDetect, "Klingon", translator);
    text, lang, audio := session.translatedText, session.translatedLang, session.ttsBytes;
  }

  /** Reading a Chinese translation aloud asks the synthesizer for "zh-CN",
      without the fallback warning. */
  method ReadChineseAloud(translator: Translator, synthesizer: Synthesizer)
    returns (outcome: SpeechOutcome, audio: Option<Bytes>)
    requires translator(Request("en", "zh", "Hello")) == Success("Ni hao")
    requires synthesizer("Ni hao", "zh-CN").Success?
    ensures outcome == Spoken(SpeechLang("zh-CN", false))
    ensures audio == Some(synthesizer("Ni hao", "zh-CN").value)
  {
    var session := new SessionState();
    HelloNotBlank();
    ToCodeRoundTrip(0);
    ToCodeRoundTrip(7);
    CatalogSpeechCodes(7);
    var translated := session.Translate("Hello", "English", "Chinese", translator);
    outcome := session.ReadAloud(synthesizer);
    audio := session.ttsBytes;
  }
}
