/** The registry of languages the application offers (lib/translation.ts). */
module Languages {

  /** One entry of the registry: an ISO 639-1 code with its English and native names. */
  datatype Language = Language(code: string, name: string, nativeName: string)

  /** `SUPPORTED_LANGUAGES`, in the source's order. */
  const SupportedLanguages: seq<Language> := [
    Language("en", "English", "English"),
    Language("es", "Spanish", "Español"),
    Language("fr", "French", "Français"),
    Language("de", "German", "Deutsch"),
    Language("it", "Italian", "Italiano"),
    Language("pt", "Portuguese", "Português"),
    Language("ru", "Russian", "Русский"),
    Language("ja", "Japanese", "日本語"),
    Language("ko", "Korean", "한국어"),
    Language("zh", "Chinese", "中文"),
    Language("ar", "Arabic", "العربية"),
    Language("hi", "Hindi", "हिन्दी"),
    Language("sv", "Swedish", "Svenska"),
    Language("no", "Norwegian", "Norsk"),
    Language("da", "Danish", "Dansk"),
    Language("fi", "Finnish", "Suomi"),
    Language("nl", "Dutch", "Nederlands"),
    Language("pl", "Polish", "Polski"),
    Language("tr", "Turkish", "Türkçe"),
    Language("th", "Thai", "ไทย")
  ]

  /** The default source language of every translation. */
  const English: string := "en"

  /** The `LanguageCode` type: the codes that occur in the registry. */
  predicate IsLanguageCode(code: string)
  {
    exists i :: 0 <= i < |SupportedLanguages| && SupportedLanguages[i].code == code
  }

  predicate IsLowerAsciiLetter(c: char)
  {
    'a' <= c <= 'z'
  }

  /** The registry holds twenty distinct two-letter lower-case codes, English among them. */
  lemma RegistryWellFormed()
    ensures |SupportedLanguages| == 20
    ensures IsLanguageCode(English)
    ensures forall i :: 0 <= i < |SupportedLanguages| ==>
      |SupportedLanguages[i].code| == 2
      && IsLowerAsciiLetter(SupportedLanguages[i].code[0])
      && IsLowerAsciiLetter(SupportedLanguages[i].code[1])
    ensures forall i, j :: 0 <= i < j < |SupportedLanguages| ==>
      SupportedLanguages[i].code != SupportedLanguages[j].code
  {
    assert SupportedLanguages[0].code == English;
  }

  /** No language code contains a colon, the separator of cache keys. */
  lemma LanguageCodeHasNoColon(code: string)
    requires IsLanguageCode(code)
    ensures ':' !in code
  {
    RegistryWellFormed();
    var i :| 0 <= i < |SupportedLanguages| && SupportedLanguages[i].code == code;
    assert code == [code[0], code[1]];
  }
}
