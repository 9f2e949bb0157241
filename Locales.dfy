/**
 * `Locale`, in both engine generations (they are the same code): the
 * selected language and translation lookup with a fallback, reading the
 * locale files held by the resource loader.
 */
module Locales {
  import opened Wrappers
  import opened Resources

  /** `!locales[key] || !locales[key][language]` is false: the key has a non-empty text in the language. */
  predicate Translated(translations: map<string, map<string, string>>, key: string, language: string)
  {
    key in translations && language in translations[key] && translations[key][language] != ""
  }

  /**
   * The text `get` returns from a loaded locale file: the translation when
   * there is a non-empty one, and otherwise "localeName.key".
   */
  function Translate(translations: map<string, map<string, string>>, language: string, localeName: string, key: string): (text: string)
    ensures Translated(translations, key, language) ==> text == translations[key][language]
    ensures !Translated(translations, key, language) ==> text == localeName + "." + key
  {
    if !(key in translations) || !(language in translations[key]) || translations[key][language] == "" then
      localeName + "." + key
    else
      translations[key][language]
  }

  /** A translation is never the empty string; the fallback names the locale and the key. */
  lemma TranslateNeverEmpty(translations: map<string, map<string, string>>, language: string, localeName: string, key: string)
    ensures Translate(translations, language, localeName, key) != ""
    ensures !Translated(translations, key, language) ==>
      Translate(translations, language, localeName, key)[..|localeName|] == localeName
  {
    if !Translated(translations, key, language) {
      assert (localeName + "." + key)[..|localeName|] == localeName;
    }
  }

  class Locale {
    const resourceLoader: ResourceLoader
    var selectedLanguage: string

    constructor (loader: ResourceLoader, language: string)
      ensures resourceLoader == loader && selectedLanguage == language
    {
      resourceLoader := loader;
      selectedLanguage := language;
    }

    method SetLanguage(language: string)
      modifies this
      ensures selectedLanguage == language
    {
      selectedLanguage := language;
    }

    /**
     * `get`: the locale file is looked up by name first, and any exception
     * of that lookup reaches the caller unchanged; from a loaded file the
     * translation in the selected language, or the fallback, is returned.
     */
    function Get(localeName: string, key: string): (r: Result<string, LookupError>)
      reads this, resourceLoader
      ensures Lookup(resourceLoader.locales, localeName).Failure? ==>
        r == Failure(Lookup(resourceLoader.locales, localeName).error)
      ensures Lookup(resourceLoader.locales, localeName).Success? ==>
        r == Success(Translate(Lookup(resourceLoader.locales, localeName).value.translations, selectedLanguage, localeName, key))
    {
      match Lookup(resourceLoader.locales, localeName)
      case Failure(e) => Failure(e)
      case Success(locale) =>
        var locales := locale.translations;
        Success(Translate(locales, selectedLanguage, localeName, key))
    }
  }

  /**
   * With every locale file loaded, `get` finds the text stored in the
   * first file with that name for the selected language.
   */
  lemma GetFindsTranslation(l: Locale, i: nat, key: string)
    requires i < |l.resourceLoader.locales|
    requires forall j :: 0 <= j <= i ==> l.resourceLoader.locales[j].loaded
    requires forall j :: 0 <= j < i ==> l.resourceLoader.locales[j].name != l.resourceLoader.locales[i].name
    requires Translated(l.resourceLoader.locales[i].translations, key, l.selectedLanguage)
    ensures l.Get(l.resourceLoader.locales[i].name, key) == Success(l.resourceLoader.locales[i].translations[key][l.selectedLanguage])
  {
    FindFirstLoaded(l.resourceLoader.locales, i);
  }
}
