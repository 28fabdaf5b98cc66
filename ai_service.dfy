/**
 * The translation service's pure part: the language name a target code
 * stands for, and the system prompt sent with each translation request.
 */
module Translation {
  import opened JavaText

  /** `getLanguageName`: a switch over the lower-cased code; an unknown code is returned as given. */
  function LanguageName(langCode: string): (name: string)
  {
    match ToLower(langCode)
    case "zh-cn" => "Chinese (Simplified)"
    case "en-us" => "English"
    case "en" => "English"
    case "ja" => "Japanese"
    case "ko" => "Korean"
    case "fr" => "French"
    case "de" => "German"
    case "es" => "Spanish"
    case "ru" => "Russian"
    case _ => langCode
  }

  /** The codes the switch knows, lower-case, with their names. */
  const KnownLanguages: map<string, string> := map[
    "zh-cn" := "Chinese (Simplified)",
    "en-us" := "English",
    "en" := "English",
    "ja" := "Japanese",
    "ko" := "Korean",
    "fr" := "French",
    "de" := "German",
    "es" := "Spanish",
    "ru" := "Russian"
  ]

  /** The switch agrees with the table: a known code, in any case, gives its name; any other is echoed. */
  lemma LanguageNameByTable(langCode: string)
    ensures ToLower(langCode) in KnownLanguages ==> LanguageName(langCode) == KnownLanguages[ToLower(langCode)]
    ensures ToLower(langCode) !in KnownLanguages ==> LanguageName(langCode) == langCode
  {
  }

  /** Two spellings of a known code that differ only in letter case name the same language. */
  lemma LanguageNameIgnoresCase(a: string, b: string)
    requires EqualsIgnoreCase(a, b) && ToLower(a) in KnownLanguages
    ensures LanguageName(a) == LanguageName(b)
  {
    LanguageNameByTable(a);
    LanguageNameByTable(b);
  }

  /** No ASCII capital letter. */
  predicate NoCapitals(s: string) {
    forall i :: 0 <= i < |s| ==> !('A' <= s[i] <= 'Z')
  }

  /** Lower-casing leaves a string without capitals as it is. */
  lemma LowerWithoutCapitals(s: string)
    requires NoCapitals(s)
    ensures ToLower(s) == s
  {
  }

  /** Every code in the table is already lower-case. */
  lemma KnownCodesLowerCase(key: string)
    requires key in KnownLanguages
    ensures NoCapitals(key)
  {
    assert key in {"zh-cn", "en-us", "en", "ja", "ko", "fr", "de", "es", "ru"};
  }

  /** Any spelling of a known code, in any mix of letter case, names that code's language (`"ZH-CN"`, `"En-US"`). */
  lemma CaseVariantKnown(code: string, key: string)
    requires key in KnownLanguages && EqualsIgnoreCase(code, key)
    ensures LanguageName(code) == KnownLanguages[key]
  {
    KnownCodesLowerCase(key);
    LowerWithoutCapitals(key);
    LanguageNameByTable(code);
  }

  const PromptHead: string := "You are a translator. Translate the text to "
  const PromptTail: string := ". Only return the translated text without any explanations or additional text."

  /** The system message of `translateText`. */
  function SystemPrompt(targetLang: string): (prompt: string)
    ensures |prompt| == |PromptHead| + |LanguageName(targetLang)| + |PromptTail|
    ensures prompt[..|PromptHead|] == PromptHead
    ensures prompt[|PromptHead|..|prompt| - |PromptTail|] == LanguageName(targetLang)
    ensures prompt[|prompt| - |PromptTail|..] == PromptTail
  {
    PromptHead + LanguageName(targetLang) + PromptTail
  }
}
