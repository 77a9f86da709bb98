/** The header button that switches between the two languages and names
    the language it switches to. */
module LanguageToggle {
  import opened LanguageContext

  /** The language the button switches to. */
  function Other(language: Language): (r: Language)
    ensures r != language
  {
    if language == Bg then En else Bg
  }

  /** How the button names a language. */
  function Name(language: Language): string {
    if language == En then "EN" else "БГ"
  }

  /** The button's label. */
  function Label(language: Language): string {
    if language == Bg then "EN" else "БГ"
  }

  /** Switching twice restores the language, and the label always names the
      language a press switches to. */
  lemma {:induction false} ToggleProperties(language: Language)
    ensures Other(Other(language)) == language
    ensures Label(language) == Name(Other(language))
    ensures Label(language) != Label(Other(language))
  {
  }

  /** `toggleLanguage`. */
  method ToggleLanguage(provider: Provider)
    modifies provider
    ensures provider.language == Other(old(provider.language))
  {
    provider.SetLanguage(if provider.language == Bg then En else Bg);
  }
}
