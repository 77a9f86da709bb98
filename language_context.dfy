/** The site's language setting: one shared cell holding Bulgarian or
    English, the resolver `t` that picks the text of a bilingual pair, and
    the hook that reaches the provider. */
module LanguageContext {
  import opened Wrappers

  datatype Language = Bg | En

  /** `t(bgText, enText)`: the English text while the language is English
      and there is a non-empty English text; the Bulgarian text otherwise. */
  function Resolve(language: Language, bgText: string, enText: Option<string>): (r: string)
    ensures r == bgText || (enText.Some? && r == enText.value)
  {
    if language == En && enText.Some? && enText.value != "" then enText.value else bgText
  }

  /** The three cases of the resolver. */
  lemma {:induction false} ResolveCases(language: Language, bgText: string, enText: Option<string>)
    ensures language == Bg ==> Resolve(language, bgText, enText) == bgText
    ensures enText.None? || enText == Some("") ==> Resolve(language, bgText, enText) == bgText
    ensures language == En && enText.Some? && enText.value != "" ==> Resolve(language, bgText, enText) == enText.value
  {
  }

  /** Switching the language changes a resolved text only for a pair with a
      non-empty English text. */
  lemma {:induction false} ResolveDiffers(bgText: string, enText: Option<string>)
    ensures Resolve(Bg, bgText, enText) != Resolve(En, bgText, enText) <==>
      enText.Some? && enText.value != "" && enText.value != bgText
  {
  }

  /** `LanguageProvider`: the one state cell every consumer reads. */
  class Provider {
    var language: Language

    /** The site opens in Bulgarian. */
    constructor ()
      ensures language == Bg
    {
      language := Bg;
    }

    /** The `t` the provider hands out: the resolver at the current language.
        In Bulgarian it always gives the Bulgarian text; in either language
        it gives one of the two texts it was handed. */
    function T(bgText: string, enText: Option<string>): (r: string)
      reads this
      ensures language == Bg ==> r == bgText
      ensures r == bgText || enText == Some(r)
    {
      Resolve(language, bgText, enText)
    }

    method SetLanguage(lang: Language)
      modifies this
      ensures language == lang
    {
      language := lang;
    }
  }

  /** `useLanguage`: the provider above the caller, or the error it throws
      when there is none. */
  function UseLanguage(context: Option<Provider>): (r: Result<Provider, string>)
    ensures r.Ok? <==> context.Some?
    ensures r.Ok? ==> r.value == context.value
  {
    match context
    case Some(p) => Ok(p)
    case None => Err("useLanguage must be used within a LanguageProvider")
  }
}
