/**
 The language catalog of the translator app and the three code resolutions
 built on it: display name to ISO code (`to_code`), source selection to
 provider code (with the "Auto Detect" sentinel), and ISO code to the code
 the speech synthesizer expects (with its English fallback).
 */
module Languages {
  import opened Wrappers

  /** An ISO-639-1 language code as the translation provider takes it. */
  type Code = string

  /** `LANGUAGES`, as the (code, display name) pairs in the dictionary's
      insertion order, which is the order `.items()` and `.values()` yield. */
  const Catalog: seq<(Code, string)> := [
    ("en", "English"),
    ("es", "Spanish"),
    ("fr", "French"),
    ("de", "German"),
    ("it", "Italian"),
    ("pt", "Portuguese"),
    ("ru", "Russian"),
    ("zh", "Chinese"),
    ("ja", "Japanese"),
    ("ko", "Korean"),
    ("ar", "Arabic"),
    ("hi", "Hindi")
  ]

  /** `GTTS_LANG_MAP`: catalog code to the code the speech synthesizer accepts. */
  const SpeechCodes: map<Code, string> := map[
    "en" := "en",
    "es" := "es",
    "fr" := "fr",
    "de" := "de",
    "it" := "it",
    "pt" := "pt",
    "ru" := "ru",
    "zh" := "zh-CN",
    "ja" := "ja",
    "ko" := "ko",
    "ar" := "ar",
    "hi" := "hi"
  ]

  /** The source-selector entry that asks the provider to detect the language. */
  const AutoDetect: string := "Auto Detect"

  /** The source code sent to the provider for `AutoDetect`. */
  const AutoCode: Code := "auto"

  /** The speech code used when a language has no speech mapping. */
  const FallbackSpeechCode: string := "en"

  /** `name` is one of the catalog's display names. */
  ghost predicate IsName(name: string) {
    exists i :: 0 <= i < |Catalog| && Catalog[i].1 == name
  }

  /** `code` is one of the catalog's codes. */
  ghost predicate IsCode(code: Code) {
    exists i :: 0 <= i < |Catalog| && Catalog[i].0 == code
  }

  /** No two entries share a code (they are dictionary keys). */
  ghost predicate DistinctCodes(entries: seq<(Code, string)>) {
    forall i, j :: 0 <= i < j < |entries| ==> entries[i].0 != entries[j].0
  }

  /** No two entries share a display name, so the reverse lookup is unambiguous. */
  ghost predicate DistinctNames(entries: seq<(Code, string)>) {
    forall i, j :: 0 <= i < j < |entries| ==> entries[i].1 != entries[j].1
  }

  /** The list comprehension inside `to_code`: the codes of the entries whose
      display name is `name`. It is empty exactly when no entry has that name. */
  function Matches(entries: seq<(Code, string)>, name: string): (r: seq<Code>)
    ensures |r| <= |entries|
    ensures forall j :: 0 <= j < |r| ==> (r[j], name) in entries
    ensures r == [] <==> forall i :: 0 <= i < |entries| ==> entries[i].1 != name
  {
    if entries == [] then []
    else
      var rest := Matches(entries[1..], name);
      assert forall j :: 0 <= j < |rest| ==> (rest[j], name) in entries by {
        forall j | 0 <= j < |rest| ensures (rest[j], name) in entries {
          assert (rest[j], name) in entries[1..];
        }
      }
      if entries[0].1 == name then [entries[0].0] + rest else rest
  }

  /** The comprehension keeps the catalog order: its head is the code of the
      first entry named `name`, which is what `[0]` picks. */
  lemma {:induction false} MatchesHead(entries: seq<(Code, string)>, name: string)
    requires Matches(entries, name) != []
    ensures exists i :: 0 <= i < |entries| && entries[i] == (Matches(entries, name)[0], name) &&
              forall j :: 0 <= j < i ==> entries[j].1 != name
  {
    if entries[0].1 != name {
      var rest := entries[1..];
      MatchesHead(rest, name);
      var i :| 0 <= i < |rest| && rest[i] == (Matches(rest, name)[0], name) &&
                forall j :: 0 <= j < i ==> rest[j].1 != name;
      assert entries[i + 1] == rest[i];
      forall j | 0 <= j < i + 1 ensures entries[j].1 != name {
        if j > 0 { assert entries[j] == rest[j - 1]; }
      }
    }
  }

  /** With distinct names, the comprehension finds exactly one code for each
      display name. */
  lemma {:induction false} MatchesUnique(entries: seq<(Code, string)>, i: nat)
    requires DistinctNames(entries)
    requires i < |entries|
    ensures Matches(entries, entries[i].1) == [entries[i].0]
  {
    var name := entries[i].1;
    assert DistinctNames(entries[1..]) by {
      forall a, b | 0 <= a < b < |entries[1..]| ensures entries[1..][a].1 != entries[1..][b].1 {
        assert entries[1..][a] == entries[a + 1] && entries[1..][b] == entries[b + 1];
      }
    }
    if i == 0 {
      assert Matches(entries[1..], name) == [] by {
        forall k | 0 <= k < |entries[1..]| ensures entries[1..][k].1 != name {
          assert entries[1..][k] == entries[k + 1];
        }
      }
    } else {
      MatchesUnique(entries[1..], i - 1);
      assert entries[1..][i - 1] == entries[i];
    }
  }

  lemma CatalogCodesDistinct()
    ensures DistinctCodes(Catalog)
  {
  }

  lemma CatalogNamesDistinct()
    ensures DistinctNames(Catalog)
  {
  }

  /** What `to_code` raises on a name outside the catalog: indexing `[0]` of
      an empty list raises `IndexError`. */
  datatype LookupError = IndexError

  /** `to_code(name)`: the code of the first catalog entry named `name`, or the
      `IndexError` of indexing an empty list when no entry has that name. */
  function ToCode(name: string): (r: Result<Code, LookupError>)
    ensures r.Success? <==> IsName(name)
    ensures r.Success? ==> (r.value, name) in Catalog
  {
    var found := Matches(Catalog, name);
    if found == [] then Failure(IndexError) else Success(found[0])
  }

  /** `to_code` inverts the catalog: every display name leads back to its own
      code. */
  lemma ToCodeRoundTrip(i: nat)
    requires i < |Catalog|
    ensures ToCode(Catalog[i].1) == Success(Catalog[i].0)
  {
    CatalogNamesDistinct();
    MatchesUnique(Catalog, i);
  }

  /** The sentinels are outside the catalog: "Auto Detect" is no display name
      and "auto" is no code. */
  lemma SentinelsOutsideCatalog()
    ensures !IsName(AutoDetect)
    ensures !IsCode(AutoCode)
  {
  }

  /** The source resolution of the Translate handler: `"auto"` for the
      sentinel, otherwise `to_code` of the selection. It yields `"auto"`
      exactly for the sentinel; any other selection succeeds exactly when it is
      a display name, and then yields that name's catalog code. */
  function ResolveSource(selection: string): (r: Result<Code, LookupError>)
    ensures r == Success(AutoCode) <==> selection == AutoDetect
    ensures selection != AutoDetect ==> (r.Success? <==> IsName(selection))
    ensures selection != AutoDetect && r.Success? ==> (r.value, selection) in Catalog
  {
    SentinelsOutsideCatalog();
    if selection == AutoDetect then Success(AutoCode) else ToCode(selection)
  }

  /** The outcome of the speech-code lookup: the code handed to the
      synthesizer and whether the fallback warning was raised. */
  datatype SpeechLang = SpeechLang(code: string, fellBack: bool)

  /** `GTTS_LANG_MAP.get(code)` with the English fallback: the mapped code when
      `code` is a key, otherwise `"en"` together with a warning. Measured against
      the catalog, the warning is raised exactly for codes outside it, and a
      catalog code is spoken as itself, except Chinese, which becomes "zh-CN". */
  function SpeechCodeFor(code: Code): (r: SpeechLang)
    ensures r.fellBack <==> code !in SpeechCodes
    ensures r.code == if r.fellBack then FallbackSpeechCode else SpeechCodes[code]
    ensures IsCode(code) <==> !r.fellBack
    ensures IsCode(code) ==> r.code == (if code == "zh" then "zh-CN" else code)
  {
    SpeechCodesCoverCatalog();
    if code in SpeechCodes then SpeechLang(SpeechCodes[code], false)
    else SpeechLang(FallbackSpeechCode, true)
  }

  /** The speech map covers exactly the catalog's codes. */
  lemma SpeechCodesCoverCatalog()
    ensures forall code :: code in SpeechCodes <==> IsCode(code)
  {
    forall code | code in SpeechCodes ensures IsCode(code) {
      // each key of the speech map is the code of one of the twelve entries
      assert code == Catalog[0].0 || code == Catalog[1].0 || code == Catalog[2].0 ||
             code == Catalog[3].0 || code == Catalog[4].0 || code == Catalog[5].0 ||
             code == Catalog[6].0 || code == Catalog[7].0 || code == Catalog[8].0 ||
             code == Catalog[9].0 || code == Catalog[10].0 || code == Catalog[11].0;
    }
  }

  /** Every catalog code has a speech code, so the fallback is never taken for
      it; each maps to itself except Chinese, which maps to "zh-CN". */
  lemma CatalogSpeechCodes(i: nat)
    requires i < |Catalog|
    ensures SpeechCodeFor(Catalog[i].0) ==
      SpeechLang(if Catalog[i].0 == "zh" then "zh-CN" else Catalog[i].0, false)
  {
  }

  /** The display names in catalog order: `list(LANGUAGES.values())`. */
  const Names: seq<string> := seq(|Catalog|, i requires 0 <= i < |Catalog| => Catalog[i].1)

  /** The options of the source selector: the sentinel, then every display name. */
  const SourceOptions: seq<string> := [AutoDetect] + Names

  /** The options of the target selector: every display name. */
  const TargetOptions: seq<string> := Names

  /** Every option the two selectors offer resolves, so the lookup error of
      `to_code` is unreachable from the form. */
  lemma SelectorOptionsResolve(source: string, target: string)
    requires source in SourceOptions
    requires target in TargetOptions
    ensures ResolveSource(source).Success?
    ensures ToCode(target).Success?
  {
  }

  /** Two sample lookups of the speech map: Chinese has a speech code of its
      own, and an unmapped code falls back to English with a warning. */
  lemma SpeechLookupExamples()
    ensures SpeechCodeFor("zh") == SpeechLang("zh-CN", false)
    ensures SpeechCodeFor("xx") == SpeechLang("en", true)
  {
  }
}
