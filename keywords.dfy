/** The keyword codec of the reports panel: on submit the comma-separated
    text of a keyword field becomes a list (`split(',')`, `trim()` of every
    piece, empty pieces dropped), and on edit a stored list is written back
    into the field joined with ", ". */
module Keywords {
  import opened Wrappers
  import opened Strings

  /** What a parsed keyword looks like: non-empty, trimmed, comma-free. */
  predicate IsKeyword(k: string) {
    k != "" && IsTrimmed(k) && ',' !in k
  }

  /** `.map(k => k.trim()).filter(k => k)`: the trimmed pieces that are not
      empty, in their order. Every piece kept is non-empty and trimmed, and
      is a keyword when no piece holds a comma. */
  function Clean(pieces: seq<string>): (ks: seq<string>)
    ensures |ks| <= |pieces|
    ensures forall k :: k in ks ==> k != "" && IsTrimmed(k)
    ensures (forall i :: 0 <= i < |pieces| ==> ',' !in pieces[i]) ==> forall k :: k in ks ==> IsKeyword(k)
    decreases |pieces|
  {
    if pieces == [] then []
    else
      var k := Trim(pieces[0]);
      var rest := Clean(pieces[1..]);
      TrimKeeps(pieces[0], ',');
      if k == "" then rest else [k] + rest
  }

  /** The submit-time conversion of a keyword field: the empty string gives
      null, any other text the cleaned comma-separated pieces. */
  function Parse(text: string): (r: Option<seq<string>>)
    ensures r.None? <==> text == ""
  {
    if text == "" then None else Some(Clean(Split(text, ',')))
  }

  /** The edit-time conversion back into the text field: absent gives "",
      a list its elements joined with ", ". */
  function Show(keywords: Option<seq<string>>): string {
    match keywords
    case None => ""
    case Some(ks) => Join(ks, ", ")
  }

  /** A keyword value that survives an edit-and-submit unchanged. */
  predicate IsCanonical(keywords: Option<seq<string>>) {
    keywords.Some? ==> keywords.value != [] && forall k :: k in keywords.value ==> IsKeyword(k)
  }

  /** What a non-empty field parses to is a list of keywords. */
  lemma {:induction false} ParseGivesKeywords(text: string)
    ensures Parse(text).Some? ==> forall k :: k in Parse(text).value ==> IsKeyword(k)
  {
    if text != "" {
      SplitSepFree(text, ',');
    }
  }

  /** Cleaning distributes over concatenation, so the order of the input is kept. */
  lemma {:induction false} CleanAppend(a: seq<string>, b: seq<string>)
    ensures Clean(a + b) == Clean(a) + Clean(b)
    decreases |a|
  {
    if a != [] {
      assert (a + b)[0] == a[0] && (a + b)[1..] == a[1..] + b;
      CleanAppend(a[1..], b);
      var h := if Trim(a[0]) == "" then [] else [Trim(a[0])];
      assert Clean(a + b) == h + Clean(a[1..] + b);
      assert Clean(a) == h + Clean(a[1..]);
    } else {
      assert a + b == b;
    }
  }

  /** Parsing keeps order: the keywords of `a,b` are those of `a` followed by
      those of `b`. */
  lemma {:induction false} ParseKeepsOrder(a: string, b: string)
    requires a != "" && b != ""
    ensures Parse(a + "," + b) == Some(Parse(a).value + Parse(b).value)
  {
    SplitAppend(a, b, ',');
    CleanAppend(Split(a, ','), Split(b, ','));
  }

  /** A comma-free field is a single piece. */
  lemma {:induction false} ParseOnePiece(x: string)
    requires x != "" && ',' !in x
    ensures Parse(x) == Some(if Trim(x) == "" then [] else [Trim(x)])
  {
    SplitWithoutSep(x, ',');
    assert Parse(x) == Some(Clean([x]));
    assert [x][1..] == [];
    assert Clean([x]) == (if Trim(x) == "" then [] else [Trim(x)]);
  }

  /** The edge cases of the conversion: an empty field is null, but a field
      holding only blanks and commas is an empty list. */
  lemma {:induction false} ParseBlankField()
    ensures Parse("") == None
    ensures Parse(" , ") == Some([])
  {
    assert " , " == " " + "," + " ";
    ParseOnePiece(" ");
    assert IsBlank(" ");
    ParseKeepsOrder(" ", " ");
  }

  /** A blank piece contributes no keyword. */
  lemma {:induction false} ParseSpace()
    ensures Parse(" ") == Some([])
  {
    ParseOnePiece(" ");
    assert IsBlank(" ");
  }

  /** A trimmed comma-free word is one keyword. */
  lemma {:induction false} ParseWord(w: string)
    requires IsKeyword(w)
    ensures Parse(w) == Some([w])
  {
    ParseOnePiece(w);
  }

  /** A blank piece in front of a comma contributes no keyword. */
  lemma {:induction false} ParseBlankThen(x: string)
    requires x != ""
    ensures Parse(" ," + x) == Parse(x)
  {
    var s := " ," + x;
    assert s[0] == ' ' && s[1..] == "," + x && s[1..][1..] == x;
    var rest := Split(s[1..], ',');
    assert rest == [""] + Split(x, ',');
    assert rest[0] == "" && rest[1..] == Split(x, ',');
    assert [s[0]] + rest[0] == " ";
    assert Split(s, ',') == [" "] + Split(x, ',');
    CleanAppend([" "], Split(x, ','));
    assert Clean([" "]) == [] by {
      assert IsBlank(" ");
    }
  }

  /** A keyword in front of a comma is the first keyword. */
  lemma {:induction false} ParseWordThen(w: string, x: string)
    requires IsKeyword(w) && x != ""
    ensures Parse(w + "," + x) == Some([w] + Parse(x).value)
  {
    ParseWord(w);
    ParseKeepsOrder(w, x);
  }

  /** A keyword with one space on each side is that keyword. */
  lemma {:induction false} ParsePaddedWord(w: string)
    requires IsKeyword(w)
    ensures Parse(" " + w + " ") == Some([w])
  {
    var p := " " + w + " ";
    assert forall ch :: ch in p ==> ch == ' ' || ch in w;
    ParseOnePiece(p);
    TrimPadded(w);
  }

  /** " b , ,c" gives ["b", "c"]. */
  lemma {:induction false} ParsePaddedThenBlank(b: string, c: string)
    requires IsKeyword(b) && IsKeyword(c)
    ensures Parse((" " + b + " ") + "," + (" ," + c)) == Some([b, c])
  {
    ParseWord(c);
    ParseBlankThen(c);
    ParsePaddedWord(b);
    ParseKeepsOrder(" " + b + " ", " ," + c);
    assert Parse(" " + b + " ").value + Parse(" ," + c).value == [b, c];
  }

  lemma {:induction false} MixedFieldShape(a: string, b: string, c: string)
    ensures a + ", " + b + " , ," + c == a + "," + ((" " + b + " ") + "," + (" ," + c))
  {
  }

  /** Blank pieces between commas are dropped and the others trimmed, in
      order: "a, b , ,c" gives ["a", "b", "c"]. */
  lemma {:induction false} ParseMixedField(a: string, b: string, c: string)
    requires IsKeyword(a) && IsKeyword(b) && IsKeyword(c)
    ensures Parse(a + ", " + b + " , ," + c) == Some([a, b, c])
  {
    var right := (" " + b + " ") + "," + (" ," + c);
    MixedFieldShape(a, b, c);
    ParsePaddedThenBlank(b, c);
    ParseWordThen(a, right);
    assert [a] + [b, c] == [a, b, c];
  }

  /** The first piece of an edited keyword field, with an optional leading
      space, cleans to the first keyword. */
  lemma {:induction false} CleanFirstPiece(k: string, lead: string)
    requires IsKeyword(k)
    requires lead == "" || lead == " "
    ensures ',' !in lead + k
    ensures Clean(Split(lead + k, ',')) == [k]
  {
    var piece := lead + k;
    assert ',' !in piece by {
      assert forall c :: c in piece ==> c in lead || c in k;
    }
    assert Trim(piece) == k by {
      if lead == " " { TrimAfterSpace(k); } else { assert piece == k; }
    }
    SplitWithoutSep(piece, ',');
    assert [piece][1..] == [];
    assert Clean([piece]) == [k] + Clean([]);
  }

  /** The edited field of two or more keywords is its first piece, a comma,
      and the field of the rest with a leading space. */
  lemma {:induction false} JoinShape(ks: seq<string>, lead: string)
    requires |ks| >= 2
    ensures lead + Join(ks, ", ") == (lead + ks[0]) + [','] + (" " + Join(ks[1..], ", "))
  {
    var rest := Join(ks[1..], ", ");
    assert Join(ks, ", ") == ks[0] + ", " + rest;
  }

  /** The edited field of a list of keywords, with an optional leading space,
      cleans back to that list. */
  lemma {:induction false} CleanSplitJoin(ks: seq<string>, lead: string)
    requires ks != [] && forall k :: k in ks ==> IsKeyword(k)
    requires lead == "" || lead == " "
    ensures Clean(Split(lead + Join(ks, ", "), ',')) == ks
    decreases |ks|
  {
    var k := ks[0];
    assert k in ks;
    CleanFirstPiece(k, lead);
    if |ks| == 1 {
      assert Join(ks, ", ") == k;
    } else {
      var piece, rest := lead + k, " " + Join(ks[1..], ", ");
      JoinShape(ks, lead);
      SplitAppend(piece, rest, ',');
      assert forall x :: x in ks[1..] ==> x in ks;
      CleanSplitJoin(ks[1..], " ");
      CleanAppend(Split(piece, ','), Split(rest, ','));
      assert [k] + ks[1..] == ks;
    }
  }

  /** Round trip: a non-empty list of keywords, joined with ", " and parsed,
      is the same list. */
  lemma {:induction false} RoundTrip(ks: seq<string>)
    requires ks != [] && forall k :: k in ks ==> IsKeyword(k)
    ensures Parse(Join(ks, ", ")) == Some(ks)
  {
    var text := Join(ks, ", ");
    assert "" + text == text;
    assert text != "" by {
      assert IsKeyword(ks[0]) by { assert ks[0] in ks; }
      JoinLength(ks, ", ");
    }
    CleanSplitJoin(ks, "");
  }

  /** Opening a stored report for edit and saving it without touching the
      keyword field gives back the stored value when it is canonical; an
      empty stored list comes back as null. */
  lemma {:induction false} EditRoundTrip(keywords: Option<seq<string>>)
    ensures IsCanonical(keywords) ==> Parse(Show(keywords)) == keywords
    ensures keywords == Some([]) ==> Parse(Show(keywords)) == None
  {
    if keywords.Some? && IsCanonical(keywords) {
      RoundTrip(keywords.value);
    }
  }
}
