/**
 * OCR language routing: a request's language (or the older ocr_lang code)
 * is resolved to one of five language profiles, which fix the Tesseract and
 * PaddleOCR language codes, the quality preset and the preprocessing.
 */
module OcrRouter {
  import opened Wrappers
  import opened Text

  datatype Profile = Profile(
    id: string,
    tesseractLang: string,
    paddleocrLang: string,
    primaryEngine: string,
    qualityPreset: string,
    preprocess: string)

  datatype ResolvedOcrConfig = ResolvedOcrConfig(
    tesseractLang: string,
    paddleocrLang: Option<string>,
    qualityPreset: string,
    preprocess: string,
    languageId: string)

  const English := Profile("english", "eng", "en", "tesseract", "default", "standard")
  const Kannada := Profile("kannada", "kan", "kn", "tesseract", "kannada", "standard")
  const Hindi := Profile("hindi", "hin", "hi", "tesseract", "default", "standard")
  const Tamil := Profile("tamil", "tam", "ta", "tesseract", "default", "standard")
  const Telugu := Profile("telugu", "tel", "te", "tesseract", "default", "standard")

  /** LANGUAGE_PROFILES.get(id) */
  function ProfileFor(id: string): Option<Profile> {
    if id == "english" then Some(English)
    else if id == "kannada" then Some(Kannada)
    else if id == "hindi" then Some(Hindi)
    else if id == "tamil" then Some(Tamil)
    else if id == "telugu" then Some(Telugu)
    else None
  }

  /** LANGUAGE_ALIASES.get(code) */
  function AliasOf(code: string): Option<string> {
    if code == "eng" || code == "en" then Some("english")
    else if code == "kan" || code == "kn" then Some("kannada")
    else if code == "hin" || code == "hi" then Some("hindi")
    else if code == "tam" || code == "ta" then Some("tamil")
    else if code == "tel" || code == "te" then Some("telugu")
    else None
  }

  predicate IsProfile(p: Profile) {
    p == English || p == Kannada || p == Hindi || p == Tamil || p == Telugu
  }

  /** Every profile is stored under its own id, and every alias names a profile. */
  lemma TablesConsistent(id: string, code: string)
    ensures ProfileFor(id).Some? ==> ProfileFor(id).value.id == id && IsProfile(ProfileFor(id).value)
    ensures AliasOf(code).Some? ==> ProfileFor(AliasOf(code).value).Some?
  {
  }

  /** The profile a language names, by profile id or by alias, after strip and lower-case. */
  function NamedProfile(language: string): Option<string> {
    var normalized := Lower(Strip(language));
    if ProfileFor(normalized).Some? then Some(normalized) else AliasOf(normalized)
  }

  function ConfigOf(p: Profile): ResolvedOcrConfig {
    ResolvedOcrConfig(p.tesseractLang, Some(p.paddleocrLang), p.qualityPreset, p.preprocess, p.id)
  }

  /**
   * resolve_ocr_config: a non-blank language naming a profile wins; failing
   * that, ocr_lang is looked up among the aliases only; anything else is
   * English. The result is always one profile's settings, copied whole.
   */
  function ResolveOcrConfig(language: Option<string>, ocrLang: string): (r: ResolvedOcrConfig)
    ensures exists p :: IsProfile(p) && r == ConfigOf(p)
    ensures language.Some? && Strip(language.value) != [] && NamedProfile(language.value).Some? ==>
      r == ConfigOf(ProfileFor(NamedProfile(language.value).value).value)
    ensures (language.None? || Strip(language.value) == [] || NamedProfile(language.value).None?) ==>
      r == ConfigOf(if AliasOf(Lower(Strip(ocrLang))).Some? then ProfileFor(AliasOf(Lower(Strip(ocrLang))).value).value else English)
  {
    var fromLanguage := if language.Some? && Strip(language.value) != [] then NamedProfile(language.value) else None;
    var profileId := if fromLanguage.Some? then fromLanguage.value
                     else if AliasOf(Lower(Strip(ocrLang))).Some? then AliasOf(Lower(Strip(ocrLang))).value
                     else "english";
    var profile := if ProfileFor(profileId).Some? then ProfileFor(profileId).value else English;
    assert IsProfile(profile);
    ConfigOf(profile)
  }

  /** A padded, upper-case alias in `language` wins over ocr_lang. */
  lemma ResolveLanguageAlias()
    ensures ResolveOcrConfig(Some(" KN "), "eng").languageId == "kannada"
  {
    assert Strip(" KN ") == "KN" by {
      assert LStrip(" KN ") == "KN ";
      assert RStrip("KN ") == "KN";
    }
    assert Lower("KN") == "kn";
    assert NamedProfile(" KN ") == Some("kannada");
  }

  /** An unknown language and an unknown code fall back to English. */
  lemma ResolveUnknown()
    ensures ResolveOcrConfig(Some("zz"), "xx").languageId == "english"
  {
    StripIdentity("zz");
    StripIdentity("xx");
    assert Lower("zz") == "zz";
    assert Lower("xx") == "xx";
    assert ProfileFor("zz").None? && AliasOf("zz").None?;
    assert NamedProfile("zz") == None;
    assert AliasOf("xx").None?;
  }

  /** Without a language, the ocr_lang alias chooses the profile. */
  lemma ResolveOcrLang()
    ensures ResolveOcrConfig(None, "tam").tesseractLang == "tam"
  {
    StripIdentity("tam");
    assert Lower("tam") == "tam";
    assert AliasOf("tam") == Some("tamil");
    assert ProfileFor("tamil") == Some(Tamil);
  }
}
