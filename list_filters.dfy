/** The three tests shared by the public list pages: a case-insensitive
    search, a year chosen from a select, and an exact choice from a select,
    where the select's value "all" switches a test off. */
module ListFilters {
  import opened Strings

  /** The value of the "every year" and "every type" select items. */
  const All := "all"

  /** `text.toLowerCase().includes(term.toLowerCase())`. */
  predicate TextMatches(text: string, term: string) {
    Contains(ToLower(text), ToLower(term))
  }

  /** `selected === "all" || date.includes(selected)`. */
  predicate YearMatches(selected: string, date: string) {
    selected == All || Contains(date, selected)
  }

  /** `selected === "all" || value === selected`. */
  predicate ChoiceMatches(selected: string, value: string) {
    selected == All || value == selected
  }

  /** The empty search matches every text. */
  lemma {:induction false} EmptySearchMatches(text: string)
    ensures TextMatches(text, "")
  {
    assert ToLower("") == "";
    ContainsEmpty(ToLower(text));
  }

  /** The search ignores the case of the term: a term and its lower-case form
      match the same texts, and so do a text and its lower-case form. */
  lemma {:induction false} SearchIgnoresCase(text: string, term: string)
    ensures TextMatches(text, term) <==> TextMatches(text, ToLower(term))
    ensures TextMatches(text, term) <==> TextMatches(ToLower(text), term)
  {
    ToLowerIdempotent(term);
    ToLowerIdempotent(text);
  }

  /** A text matches every piece of itself. */
  lemma {:induction false} SearchFindsSubstring(text: string, i: nat, j: nat)
    requires i <= j <= |text|
    ensures TextMatches(text, text[i..j])
  {
    var lowered := ToLower(text);
    assert lowered[i..j] == ToLower(text[i..j]);
    ContainsAt(lowered, ToLower(text[i..j]), i);
  }

  /** `sub` occurs in `s` starting at position `i`. */
  predicate OccursAt(s: string, sub: string, i: nat) {
    i + |sub| <= |s| && s[i..i + |sub|] == sub
  }

  /** A year other than "all" matches exactly the dates in which it occurs
      at some position. */
  lemma {:induction false} YearIsSubstring(selected: string, date: string)
    requires selected != All
    ensures YearMatches(selected, date) <==> exists i: nat :: OccursAt(date, selected, i)
  {
    if YearMatches(selected, date) {
      var i := ContainsWitness(date, selected);
      assert OccursAt(date, selected, i);
    }
    if exists i: nat :: OccursAt(date, selected, i) {
      var i: nat :| OccursAt(date, selected, i);
      ContainsAt(date, selected, i);
    }
  }

  /** "all" matches every year and every choice; any other choice matches
      only itself. */
  lemma {:induction false} ChoiceIsExact(selected: string, value: string)
    ensures YearMatches(All, value) && ChoiceMatches(All, value)
    ensures selected != All ==> (ChoiceMatches(selected, value) <==> value == selected)
  {
  }
}
