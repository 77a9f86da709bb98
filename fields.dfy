/** The two conversions between nullable text columns and the text inputs
    of the admin forms. */
module Fields {
  import opened Wrappers

  /** `value || ''`: a null or empty column shows as an empty input. */
  function OrEmpty(o: Option<string>): (s: string)
    ensures o.Some? && o.value != "" ==> s == o.value
    ensures o.None? || o == Some("") <==> s == ""
  {
    if o.Some? then o.value else ""
  }

  /** `value || null`: an empty input is sent as null. */
  function OrNull(s: string): (o: Option<string>)
    ensures o.None? <==> s == ""
    ensures o.Some? ==> o.value == s
  {
    if s == "" then None else Some(s)
  }

  /** An optional text column that survives being shown and sent back
      through `OrNull`: null or non-empty. */
  predicate IsCanonicalText(o: Option<string>) {
    o.Some? ==> o.value != ""
  }

  /** Showing a column and sending it back with `OrNull` keeps it, except
      that an empty text becomes null. */
  lemma {:induction false} OrNullOrEmpty(o: Option<string>)
    ensures OrNull(OrEmpty(o)) == (if o == Some("") then None else o)
    ensures IsCanonicalText(o) ==> OrNull(OrEmpty(o)) == o
  {
  }

  /** Showing a column and sending the input back as it is keeps it, except
      that a null becomes an empty text. */
  lemma {:induction false} SomeOrEmpty(o: Option<string>)
    ensures Some(OrEmpty(o)) == (if o.None? then Some("") else o)
    ensures o.Some? ==> Some(OrEmpty(o)) == o
  {
  }
}
