/** The JavaScript string operations the components rely on: `trim`,
    `toLowerCase`, `includes`, `startsWith`, `split`, `join`, and the decimal
    digits read by `parseInt` and written by number-to-string conversion. */
module Strings {
  import opened Wrappers

  // ---------------------------------------------------------------------------
  // trim
  // ---------------------------------------------------------------------------

  /** The ECMAScript WhiteSpace and LineTerminator code points, exactly the
      characters `String.prototype.trim` removes. */
  predicate IsWhiteSpace(c: char) {
    || c == '\t' || c == '\n' || c == '\U{000B}' || c == '\U{000C}' || c == '\r'
    || c == ' ' || c == '\U{00A0}' || c == '\U{1680}'
    || ('\U{2000}' <= c <= '\U{200A}')
    || c == '\U{2028}' || c == '\U{2029}' || c == '\U{202F}' || c == '\U{205F}'
    || c == '\U{3000}' || c == '\U{FEFF}'
  }

  /** A string with no white space at either end. */
  predicate IsTrimmed(s: string) {
    s == [] || (!IsWhiteSpace(s[0]) && !IsWhiteSpace(s[|s| - 1]))
  }

  /** A string made only of white space (the empty string included). */
  predicate IsBlank(s: string) {
    forall i :: 0 <= i < |s| ==> IsWhiteSpace(s[i])
  }

  /** White space added at either end of a blank string leaves it blank. */
  lemma {:induction false} BlankAround(c: char, t: string)
    requires IsWhiteSpace(c) && IsBlank(t)
    ensures IsBlank([c] + t) && IsBlank(t + [c])
  {
    forall i | 0 <= i < |t| + 1 ensures IsWhiteSpace(([c] + t)[i]) && IsWhiteSpace((t + [c])[i]) {
      if i > 0 { assert ([c] + t)[i] == t[i - 1]; }
      if i < |t| { assert (t + [c])[i] == t[i]; }
    }
  }

  /** `s` with its leading white space removed. */
  function TrimStart(s: string): (r: string)
    ensures |r| <= |s| && r == s[|s| - |r|..]
    ensures IsBlank(s[..|s| - |r|])
    ensures r != [] ==> !IsWhiteSpace(r[0])
  {
    if s != [] && IsWhiteSpace(s[0]) then
      var r := TrimStart(s[1..]);
      assert s[..|s| - |r|] == [s[0]] + s[1..][..|s[1..]| - |r|];
      BlankAround(s[0], s[1..][..|s[1..]| - |r|]);
      r
    else s
  }

  /** `s` with its trailing white space removed. */
  function TrimEnd(s: string): (r: string)
    ensures |r| <= |s| && r == s[..|r|]
    ensures IsBlank(s[|r|..])
    ensures r != [] ==> !IsWhiteSpace(r[|r| - 1])
  {
    if s != [] && IsWhiteSpace(s[|s| - 1]) then
      var r := TrimEnd(s[..|s| - 1]);
      assert s[|r|..] == s[..|s| - 1][|r|..] + [s[|s| - 1]];
      BlankAround(s[|s| - 1], s[..|s| - 1][|r|..]);
      r
    else s
  }

  /** `String.prototype.trim`: the part of `s` between its leading and its
      trailing white space. */
  function Trim(s: string): (r: string)
    ensures IsTrimmed(r) && |r| <= |s|
    ensures r == [] <==> IsBlank(s)
    ensures IsTrimmed(s) ==> r == s
  {
    var t := TrimStart(s);
    var r := TrimEnd(t);
    var k := |s| - |t|;
    if r == [] then
      assert t[0..] == t;
      assert s == s[..k] + t;
      BlankJoin(s[..k], t);
      r
    else
      assert r[0] == t[0] == s[k];
      assert IsTrimmed(s) ==> r == s by {
        if IsTrimmed(s) {
          assert k == 0 && t == s;
          assert t[..|t|] == t;
        }
      }
      r
  }

  /** Trimming cuts one slice out of `s`: it starts after the leading white
      space and has only white space after it. */
  lemma {:induction false} TrimIsSlice(s: string)
    ensures var k := |s| - |TrimStart(s)|; var r := Trim(s);
      && 0 <= k && k + |r| <= |s| && (forall i :: 0 <= i < |r| ==> r[i] == s[k + i])
      && IsBlank(s[..k]) && IsBlank(s[k + |r|..])
  {
    TrimKeepsSlice(s);
    TrimBlankBefore(s);
    TrimBlankAfter(s);
  }

  lemma {:induction false} TrimKeepsSlice(s: string)
    ensures var t := TrimStart(s); var r := TrimEnd(t); var k := |s| - |t|;
      && 0 <= k && k + |r| <= |s| && (forall i :: 0 <= i < |r| ==> r[i] == s[k + i])
  {
  }

  lemma {:induction false} TrimBlankBefore(s: string)
    ensures var k := |s| - |TrimStart(s)|; 0 <= k && IsBlank(s[..k])
  {
  }

  lemma {:induction false} TrimBlankAfter(s: string)
    ensures var t := TrimStart(s); var r := TrimEnd(t); var k := |s| - |t|;
      && 0 <= k && k + |r| <= |s| && IsBlank(s[k + |r|..])
  {
    var t := TrimStart(s);
    var r := TrimEnd(t);
    assert t == s[|s| - |t|..];
    assert IsBlank(t[|r|..]);
    BlankAfterPrefix(s, t, r);
  }

  /** What follows a prefix of a suffix `t` of `s` is what follows it in `s`. */
  lemma {:induction false} BlankAfterPrefix(s: string, t: string, r: string)
    requires |t| <= |s| && t == s[|s| - |t|..]
    requires |r| <= |t| && IsBlank(t[|r|..])
    ensures IsBlank(s[|s| - |t| + |r|..])
  {
    assert s[|s| - |t| + |r|..] == t[|r|..];
  }

  /** Two blank strings joined are blank. */
  lemma {:induction false} BlankJoin(a: string, b: string)
    requires IsBlank(a) && IsBlank(b)
    ensures IsBlank(a + b)
  {
    forall i | 0 <= i < |a + b| ensures IsWhiteSpace((a + b)[i]) {
      if i >= |a| { assert (a + b)[i] == b[i - |a|]; }
    }
  }

  /** Trimming only removes characters. */
  lemma {:induction false} TrimKeeps(s: string, c: char)
    ensures c in Trim(s) ==> c in s
  {
    var r := TrimEnd(TrimStart(s));
    if c in r {
      TrimKeepsSlice(s);
      var i :| 0 <= i < |r| && r[i] == c;
      assert s[|s| - |TrimStart(s)| + i] == c;
    }
  }

  /** A single leading space in front of a trimmed word is all that trimming removes. */
  lemma {:induction false} TrimAfterSpace(s: string)
    requires IsTrimmed(s) && s != []
    ensures Trim(" " + s) == s
  {
    assert (" " + s)[1..] == s;
  }

  /** One space on each side of a trimmed word is all that trimming removes. */
  lemma {:induction false} TrimPadded(s: string)
    requires IsTrimmed(s) && s != []
    ensures Trim(" " + s + " ") == s
  {
    var p := " " + s + " ";
    assert p[1..] == s + " ";
    assert TrimStart(p) == s + " ";
    assert (s + " ")[..|s|] == s;
    assert TrimEnd(s + " ") == s;
  }

  // ---------------------------------------------------------------------------
  // toLowerCase, includes, startsWith
  // ---------------------------------------------------------------------------

  /** Lower-case mapping of one character: the Basic Latin capitals and the
      Cyrillic capitals U+0400..U+042F (all the capitals of the Bulgarian
      alphabet); every other character is left as it is. */
  function LowerChar(c: char): (r: char)
    ensures ('A' <= c <= 'Z') ==> r as int == c as int + 32
    ensures ('\U{0410}' <= c <= '\U{042F}') ==> r as int == c as int + 32
    ensures ('\U{0400}' <= c <= '\U{040F}') ==> r as int == c as int + 80
    ensures !('A' <= c <= 'Z') && !('\U{0400}' <= c <= '\U{042F}') ==> r == c
  {
    if 'A' <= c <= 'Z' then (c as int + 32) as char
    else if '\U{0410}' <= c <= '\U{042F}' then (c as int + 32) as char
    else if '\U{0400}' <= c <= '\U{040F}' then (c as int + 80) as char
    else c
  }

  /** `String.prototype.toLowerCase`, character by character. */
  function ToLower(s: string): (r: string)
    ensures |r| == |s|
    ensures forall i :: 0 <= i < |s| && ('A' <= s[i] <= 'Z' || '\U{0410}' <= s[i] <= '\U{042F}') ==>
      r[i] as int == s[i] as int + 32
    ensures forall i :: 0 <= i < |s| && '\U{0400}' <= s[i] <= '\U{040F}' ==> r[i] as int == s[i] as int + 80
    ensures forall i :: 0 <= i < |s| && !('A' <= s[i] <= 'Z') && !('\U{0400}' <= s[i] <= '\U{042F}') ==> r[i] == s[i]
  {
    seq(|s|, i requires 0 <= i < |s| => LowerChar(s[i]))
  }

  /** A lowered character is not lowered further. */
  lemma {:induction false} LowerCharIdempotent(c: char)
    ensures LowerChar(LowerChar(c)) == LowerChar(c)
  {
  }

  /** Lower-casing is idempotent: so a search term that is already lower case
      is compared as typed. */
  lemma {:induction false} ToLowerIdempotent(s: string)
    ensures ToLower(ToLower(s)) == ToLower(s)
  {
    forall i | 0 <= i < |s| ensures ToLower(ToLower(s))[i] == ToLower(s)[i] {
      LowerCharIdempotent(s[i]);
    }
  }

  /** `String.prototype.startsWith`. */
  predicate StartsWith(s: string, prefix: string) {
    |prefix| <= |s| && s[..|prefix|] == prefix
  }

  /** `String.prototype.includes`: `sub` occurs in `s` at some position. */
  predicate Contains(s: string, sub: string)
    decreases |s|
  {
    StartsWith(s, sub) || (s != [] && Contains(s[1..], sub))
  }

  /** An occurrence at position `i` is an occurrence. */
  lemma {:induction false} ContainsAt(s: string, sub: string, i: nat)
    requires i + |sub| <= |s| && s[i..i + |sub|] == sub
    ensures Contains(s, sub)
    decreases i
  {
    if i > 0 {
      assert s[1..][i - 1..i - 1 + |sub|] == s[i..i + |sub|];
      ContainsAt(s[1..], sub, i - 1);
    }
  }

  /** Every occurrence lies at some position. */
  lemma {:induction false} ContainsWitness(s: string, sub: string) returns (i: nat)
    requires Contains(s, sub)
    ensures i + |sub| <= |s| && s[i..i + |sub|] == sub
    decreases |s|
  {
    if StartsWith(s, sub) {
      i := 0;
    } else {
      var j := ContainsWitness(s[1..], sub);
      assert s[1..][j..j + |sub|] == s[j + 1..j + 1 + |sub|];
      i := j + 1;
    }
  }

  /** Every string includes the empty string. */
  lemma {:induction false} ContainsEmpty(s: string)
    ensures Contains(s, "")
  {
  }

  /** Every string includes itself. */
  lemma {:induction false} ContainsSelf(s: string)
    ensures Contains(s, s)
  {
  }

  // ---------------------------------------------------------------------------
  // split and join
  // ---------------------------------------------------------------------------

  /** `s.split(sep)` for a one-character separator: the pieces between
      consecutive separators, always one more piece than separators. */
  function Split(s: string, sep: char): (r: seq<string>)
    ensures |r| >= 1
    decreases |s|
  {
    if s == [] then [""]
    else if s[0] == sep then [""] + Split(s[1..], sep)
    else
      var rest := Split(s[1..], sep);
      [[s[0]] + rest[0]] + rest[1..]
  }

  /** A split has one more piece than the text has separators. */
  lemma {:induction false} SplitCount(s: string, sep: char)
    ensures |Split(s, sep)| == multiset(s)[sep] + 1
    decreases |s|
  {
    if s != [] {
      SplitCount(s[1..], sep);
      assert s == [s[0]] + s[1..];
    }
  }

  /** No piece of a split holds the separator. */
  lemma {:induction false} SplitSepFree(s: string, sep: char)
    ensures forall p :: p in Split(s, sep) ==> sep !in p
    decreases |s|
  {
    if s != [] {
      SplitSepFree(s[1..], sep);
      var rest := Split(s[1..], sep);
      if s[0] != sep {
        assert sep !in rest[0] by { assert rest[0] in rest; }
        assert sep !in [s[0]] + rest[0];
        assert forall p :: p in rest[1..] ==> p in rest;
      }
    }
  }

  /** `parts.join(sep)`. */
  function Join(parts: seq<string>, sep: string): string
    decreases |parts|
  {
    if |parts| == 0 then ""
    else if |parts| == 1 then parts[0]
    else parts[0] + sep + Join(parts[1..], sep)
  }

  /** A join is at least as long as its first part. */
  lemma {:induction false} JoinLength(parts: seq<string>, sep: string)
    requires parts != []
    ensures |Join(parts, sep)| >= |parts[0]|
  {
  }

  /** A string without the separator is one piece. */
  lemma {:induction false} SplitWithoutSep(s: string, sep: char)
    requires sep !in s
    ensures Split(s, sep) == [s]
    decreases |s|
  {
    if s != [] {
      SplitWithoutSep(s[1..], sep);
      assert [s[0]] + s[1..] == s;
    }
  }

  /** A separator always ends a piece: splitting `a + sep + b` splits `a`
      and `b` separately. */
  lemma {:induction false} SplitAppend(a: string, b: string, sep: char)
    ensures Split(a + [sep] + b, sep) == Split(a, sep) + Split(b, sep)
    decreases |a|
  {
    var s := a + [sep] + b;
    if a == [] {
      assert s == [sep] + b && s[1..] == b;
    } else {
      assert s[0] == a[0] && s[1..] == a[1..] + [sep] + b;
      SplitAppend(a[1..], b, sep);
      var left, right := Split(a[1..], sep), Split(b, sep);
      if a[0] != sep {
        assert (left + right)[0] == left[0] && (left + right)[1..] == left[1..] + right;
      }
    }
  }

  /** Round trip: joining the pieces of a split with the same separator gives
      back the original string. */
  lemma {:induction false} JoinSplit(s: string, sep: char)
    ensures Join(Split(s, sep), [sep]) == s
    decreases |s|
  {
    if s != [] {
      var rest := Split(s[1..], sep);
      JoinSplit(s[1..], sep);
      if s[0] == sep {
        assert ([""] + rest)[1..] == rest;
      } else if |rest| > 1 {
        assert ([[s[0]] + rest[0]] + rest[1..])[1..] == rest[1..];
      }
    }
  }

  // ---------------------------------------------------------------------------
  // decimal digits
  // ---------------------------------------------------------------------------

  /** The characters matched by the regular-expression class `\d`. */
  predicate IsDigit(c: char) {
    '0' <= c <= '9'
  }

  predicate AllDigits(s: string) {
    forall i :: 0 <= i < |s| ==> IsDigit(s[i])
  }

  /** A digit string in canonical form: non-empty and without a leading zero
      unless it is the single digit "0". */
  predicate IsCanonicalNumeral(s: string) {
    s != [] && AllDigits(s) && (s[0] == '0' ==> |s| == 1)
  }

  function DigitChar(d: nat): (c: char)
    requires d < 10
    ensures IsDigit(c) && c as int - '0' as int == d
  {
    (('0' as int) + d) as char
  }

  /** The number a string of decimal digits denotes, most significant first. */
  function DigitsValue(s: string): nat
    requires AllDigits(s)
    decreases |s|
  {
    if s == [] then 0
    else DigitsValue(s[..|s| - 1]) * 10 + (s[|s| - 1] as int - '0' as int)
  }

  /** The decimal numeral of `n`, as `String(n)` writes it. */
  function NatToString(n: nat): (s: string)
    ensures IsCanonicalNumeral(s)
    decreases n
  {
    if n < 10 then [DigitChar(n)] else NatToString(n / 10) + [DigitChar(n % 10)]
  }

  /** A digit string whose first digit is not zero denotes a positive number. */
  lemma {:induction false} DigitsValuePositive(s: string)
    requires s != [] && AllDigits(s) && s[0] != '0'
    ensures DigitsValue(s) >= 1
    decreases |s|
  {
    if |s| > 1 {
      DigitsValuePositive(s[..|s| - 1]);
    }
  }

  /** Reading then writing a canonical numeral gives it back. */
  lemma {:induction false} NatToStringOfDigits(s: string)
    requires IsCanonicalNumeral(s)
    ensures NatToString(DigitsValue(s)) == s
    decreases |s|
  {
    if |s| > 1 {
      var init := s[..|s| - 1];
      DigitsValuePositive(init);
      NatToStringOfDigits(init);
      assert init + [s[|s| - 1]] == s;
    }
  }

  /** Writing then reading a number gives it back. */
  lemma {:induction false} DigitsOfNatToString(n: nat)
    ensures DigitsValue(NatToString(n)) == n
    decreases n
  {
    if n >= 10 {
      DigitsOfNatToString(n / 10);
      var s := NatToString(n);
      assert s[..|s| - 1] == NatToString(n / 10);
    }
  }

  /** The longest run of decimal digits at the start of `s`. */
  function DigitPrefix(s: string): (r: string)
    ensures |r| <= |s| && r == s[..|r|] && AllDigits(r)
    ensures |r| < |s| ==> !IsDigit(s[|r|])
    decreases |s|
  {
    if s != [] && IsDigit(s[0]) then
      var r := [s[0]] + DigitPrefix(s[1..]);
      assert s == [s[0]] + s[1..];
      r
    else []
  }

  /** A digit string followed by a non-digit: the digit string is the prefix. */
  lemma {:induction false} DigitPrefixOf(d: string, rest: string)
    requires AllDigits(d)
    requires rest == [] || !IsDigit(rest[0])
    ensures DigitPrefix(d + rest) == d
    decreases |d|
  {
    if d != [] {
      assert (d + rest)[1..] == d[1..] + rest;
      DigitPrefixOf(d[1..], rest);
      assert [d[0]] + d[1..] == d;
    } else {
      assert d + rest == rest;
    }
  }

  /** `parseInt(s)` in base ten: leading white space is skipped, an optional
      sign is read, then the longest run of digits; `None` (NaN) when there
      is no digit there. */
  function ParseInt(s: string): (r: Option<int>)
    ensures r.None? <==> DigitPrefix(SignFree(TrimStart(s))) == []
  {
    var t := TrimStart(s);
    var d := DigitPrefix(SignFree(t));
    if d == [] then None
    else
      var v: int := DigitsValue(d);
      Some(if t[0] == '-' then -v else v)
  }

  /** `s` without one leading `+` or `-`. */
  function SignFree(s: string): (r: string)
    ensures |r| <= |s| && r == s[|s| - |r|..]
  {
    if s != [] && (s[0] == '-' || s[0] == '+') then s[1..] else s
  }

  /** A non-empty digit string reads as the number it denotes. */
  lemma {:induction false} ParseIntOfDigits(s: string)
    requires s != [] && AllDigits(s)
    ensures ParseInt(s) == Some(DigitsValue(s))
  {
    assert IsDigit(s[0]);
    assert TrimStart(s) == s;
    assert SignFree(s) == s;
    assert DigitPrefix(s) == s by {
      DigitPrefixOf(s, []);
      assert s + [] == s;
    }
  }

  /** The numeral of a number reads back as that number. */
  lemma {:induction false} ParseIntOfNumeral(n: nat)
    ensures ParseInt(NatToString(n)) == Some(n)
  {
    ParseIntOfDigits(NatToString(n));
    DigitsOfNatToString(n);
  }

  /** Blanks in front of a text that does not start with white space are
      exactly what `TrimStart` removes. */
  lemma {:induction false} TrimStartAfterBlank(ws: string, u: string)
    requires IsBlank(ws)
    requires u == [] || !IsWhiteSpace(u[0])
    ensures TrimStart(ws + u) == u
    decreases |ws|
  {
    if ws == [] {
      assert ws + u == u;
    } else {
      assert (ws + u)[1..] == ws[1..] + u;
      TrimStartAfterBlank(ws[1..], u);
    }
  }

  /** Leading blanks, an optional sign, a run of digits and anything that does
      not start with a digit read as the signed value of the digits. */
  lemma {:induction false} ParseIntSigned(ws: string, sign: string, d: string, rest: string)
    requires IsBlank(ws)
    requires sign == "" || sign == "+" || sign == "-"
    requires d != [] && AllDigits(d)
    requires rest == [] || !IsDigit(rest[0])
    ensures ParseInt(ws + sign + d + rest) == Some(if sign == "-" then -(DigitsValue(d) as int) else DigitsValue(d))
  {
    SignedStart(ws, sign, d, rest);
    SignFreeSigned(sign, d, rest);
    DigitPrefixOf(d, rest);
    ParseIntParts(ws + sign + d + rest, sign + d + rest, d);
  }

  /** The blanks in front of a sign or a digit are what `TrimStart` removes. */
  lemma {:induction false} SignedStart(ws: string, sign: string, d: string, rest: string)
    requires IsBlank(ws)
    requires sign == "" || sign == "+" || sign == "-"
    requires d != [] && AllDigits(d)
    ensures TrimStart(ws + sign + d + rest) == sign + d + rest
  {
    var u := sign + d + rest;
    assert ws + sign + d + rest == ws + u;
    assert IsDigit(d[0]);
    assert u[0] == if sign == "" then d[0] else sign[0];
    TrimStartAfterBlank(ws, u);
  }

  /** `SignFree` drops exactly the sign, and the text starts with `-` exactly
      when that sign is `-`. */
  lemma {:induction false} SignFreeSigned(sign: string, d: string, rest: string)
    requires sign == "" || sign == "+" || sign == "-"
    requires d != [] && AllDigits(d)
    ensures SignFree(sign + d + rest) == d + rest
    ensures (sign + d + rest)[0] == '-' <==> sign == "-"
  {
    var u := sign + d + rest;
    assert IsDigit(d[0]);
    assert u[0] == if sign == "" then d[0] else sign[0];
    if sign == "" {
      assert u == d + rest;
    } else {
      assert u[1..] == d + rest;
    }
  }

  /** `ParseInt` read off its three stages. */
  lemma {:induction false} ParseIntParts(s: string, t: string, d: string)
    requires TrimStart(s) == t
    requires d != [] && DigitPrefix(SignFree(t)) == d
    ensures t != [] && ParseInt(s) == Some(if t[0] == '-' then -(DigitsValue(d) as int) else DigitsValue(d))
  {
    assert |d| <= |SignFree(t)| <= |t|;
  }

  /** A string without any digit is not a number. */
  lemma {:induction false} ParseIntNoDigits(s: string)
    requires forall i :: 0 <= i < |s| ==> !IsDigit(s[i])
    ensures ParseInt(s) == None
  {
    var t := TrimStart(s);
    var u := SignFree(t);
    if u != [] {
      assert u[0] == s[|s| - |u|];
    }
  }

  // ---------------------------------------------------------------------------
  // text order
  // ---------------------------------------------------------------------------

  /** Lexicographic order of strings, comparing characters (Unicode code
      points) one by one: the order of an `order` clause on a text column.
      It agrees with UTF-16 code-unit order on the Basic Multilingual Plane. */
  predicate LexLe(a: string, b: string)
    decreases |a|
  {
    a == [] || (b != [] && (a[0] < b[0] || (a[0] == b[0] && LexLe(a[1..], b[1..]))))
  }

  /** Any two strings compare one way or the other. */
  lemma {:induction false} LexLeTotal(a: string, b: string)
    ensures LexLe(a, b) || LexLe(b, a)
    decreases |a|
  {
    if a != [] && b != [] && a[0] == b[0] {
      LexLeTotal(a[1..], b[1..]);
    }
  }

  /** Strings that compare both ways are equal. */
  lemma {:induction false} LexLeAntisymmetric(a: string, b: string)
    requires LexLe(a, b) && LexLe(b, a)
    ensures a == b
    decreases |a|
  {
    if a != [] {
      LexLeAntisymmetric(a[1..], b[1..]);
      assert a == [a[0]] + a[1..] && b == [b[0]] + b[1..];
    }
  }

  lemma {:induction false} LexLeTransitive(a: string, b: string, c: string)
    requires LexLe(a, b) && LexLe(b, c)
    ensures LexLe(a, c)
    decreases |a|
  {
    if a != [] && a[0] == b[0] && b[0] == c[0] {
      LexLeTransitive(a[1..], b[1..], c[1..]);
    }
  }
}
