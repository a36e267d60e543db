/**
 * Locale choice and translation lookups: which locale key `detectLocale`
 * picks from the keys of the locale file, which dictionary becomes the active
 * translations, and the `translations.key || default` reads that fall back to
 * the built-in English strings.
 */
module Locale {
  import opened JsStrings

  /** One locale's translations, restricted to its string-valued entries. */
  type Translations = map<string, string>

  const DefaultLocale: string := "en-us"

  /** `(navigator.language || 'en-us').toLowerCase()`: an empty language counts as absent. */
  function BrowserLanguage(language: string): (r: string)
    ensures |r| >= 1 && HasNoUpperAscii(r)
    ensures language == "" ==> r == DefaultLocale
    ensures language != "" ==> r == ToLower(language)
  {
    ToLower(if language == "" then DefaultLocale else language)
  }

  /** `browserLang.split('-')[0]`: the primary subtag. */
  function PrimarySubtag(lang: string): (r: string)
    ensures |r| <= |lang| && '-' !in r && r == lang[..|r|]
    ensures |r| == |lang| || lang[|r|] == '-'
  {
    FirstField(lang, '-')
  }

  /**
   * `detectLocale`: the lower-cased browser language if the locale file has it,
   * otherwise its primary subtag if the file has that, otherwise 'en-us'.
   */
  function DetectLocale(available: set<string>, language: string): (r: string)
    ensures r in available || r == DefaultLocale
    ensures HasNoUpperAscii(r)
    ensures BrowserLanguage(language) in available ==> r == BrowserLanguage(language)
    ensures BrowserLanguage(language) !in available && PrimarySubtag(BrowserLanguage(language)) in available ==>
      r == PrimarySubtag(BrowserLanguage(language))
    ensures r != BrowserLanguage(language) && r != DefaultLocale ==>
      r == PrimarySubtag(BrowserLanguage(language)) && BrowserLanguage(language) !in available
    ensures r == DefaultLocale && DefaultLocale !in available ==>
      BrowserLanguage(language) !in available && PrimarySubtag(BrowserLanguage(language)) !in available
  {
    var browserLang := BrowserLanguage(language);
    assert HasNoUpperAscii(DefaultLocale) by {
      forall i | 0 <= i < |DefaultLocale| ensures !IsUpperAscii(DefaultLocale[i]) {
        assert DefaultLocale[i] in "en-us";
      }
    }
    if browserLang in available then browserLang
    else
      var short := PrimarySubtag(browserLang);
      assert HasNoUpperAscii(short) by {
        forall i | 0 <= i < |short| ensures !IsUpperAscii(short[i]) {
          assert short[i] == browserLang[i];
        }
      }
      if short in available then short else DefaultLocale
  }

  /** The choice ignores the case of the browser language. */
  lemma DetectLocaleIgnoresCase(available: set<string>, l1: string, l2: string)
    requires l1 != "" && l2 != "" && ToLower(l1) == ToLower(l2)
    ensures DetectLocale(available, l1) == DetectLocale(available, l2)
  {
  }

  /** `data[activeLocale] || data['en-us']`; `None` stands for `undefined`. */
  function ActiveTranslations(data: map<string, Translations>, active: string): (r: Option<Translations>)
    ensures r.Some? <==> active in data || DefaultLocale in data
    ensures active in data ==> r == Some(data[active])
    ensures r.Some? && active !in data ==> r.value == data[DefaultLocale]
  {
    if active in data then Some(data[active])
    else if DefaultLocale in data then Some(data[DefaultLocale])
    else None
  }

  /**
   * After `detectLocale` the 'en-us' fallback never supplies anything: the
   * chosen key is in the file, or it is 'en-us' itself and the file lacks it,
   * in which case the translations end up `undefined`.
   */
  lemma LoadedTranslations(data: map<string, Translations>, language: string)
    ensures var active := DetectLocale(data.Keys, language);
      ActiveTranslations(data, active) == if active in data then Some(data[active]) else None
    ensures var active := DetectLocale(data.Keys, language);
      active !in data <==> (DefaultLocale !in data && BrowserLanguage(language) !in data
        && PrimarySubtag(BrowserLanguage(language)) !in data)
  {
  }

  /** `translations[key] || fallback`: a missing or empty entry reads as the fallback. */
  function TextOr(translations: Translations, key: string, fallback: string): (r: string)
    ensures key in translations && translations[key] != "" ==> r == translations[key]
    ensures key !in translations || translations[key] == "" ==> r == fallback
    ensures fallback != "" ==> r != ""
  {
    if key in translations && translations[key] != "" then translations[key] else fallback
  }
}
