/** The counter of the home page's figures: a figure such as "50+" is split
    into the number its first run of digits denotes, which is animated, and
    the rest of the text, which is written after the animated count. */
module AnimatedCounter {
  import opened Wrappers
  import opened Strings

  /** How many characters come before the first digit. */
  function LeadLength(s: string): (k: nat)
    ensures k <= |s|
    ensures forall i :: 0 <= i < k ==> !IsDigit(s[i])
    ensures k < |s| ==> IsDigit(s[k])
    decreases |s|
  {
    if s == [] || IsDigit(s[0]) then 0 else 1 + LeadLength(s[1..])
  }

  /** `value.match(/(\d+)/)`: the first maximal run of digits, empty when
      there is no digit. */
  function Run(s: string): string {
    DigitPrefix(s[LeadLength(s)..])
  }

  /** `numericMatch ? parseInt(numericMatch[1]) : 0`. */
  function NumericValue(s: string): (n: int)
    ensures n >= 0
    ensures Run(s) != [] ==> n == DigitsValue(Run(s))
    ensures Run(s) == [] ==> n == 0
  {
    var run := Run(s);
    if run == [] then 0
    else
      ParseIntOfDigits(run);
      ParseInt(run).value
  }

  /** `value.replace(/\d+/, '')`: the text with its first run of digits cut out. */
  function Suffix(s: string): string {
    var k := LeadLength(s);
    s[..k] + s[k + |Run(s)|..]
  }

  /** What the counter shows once the count has reached `count`. */
  function Display(s: string, count: nat): string {
    NatToString(count) + Suffix(s)
  }

  /** The suffix keeps every character but the run: putting the run back at
      the place it was cut from gives the text, and the run is maximal,
      starts at the first digit and is empty only when there is no digit. */
  lemma {:induction false} SuffixKeepsTheRest(s: string)
    ensures var k := LeadLength(s);
      && k <= |Suffix(s)|
      && s == Suffix(s)[..k] + Run(s) + Suffix(s)[k..]
      && (forall i :: 0 <= i < k ==> !IsDigit(s[i]))
      && (k + |Run(s)| < |s| ==> !IsDigit(s[k + |Run(s)|]))
      && (Run(s) == [] <==> forall i :: 0 <= i < |s| ==> !IsDigit(s[i]))
  {
    var k, run := LeadLength(s), Run(s);
    var rest := s[k..];
    assert run == rest[..|run|];
    assert s == s[..k] + run + s[k + |run|..];
    assert Suffix(s)[..k] == s[..k] && Suffix(s)[k..] == s[k + |run|..];
    if run == [] {
      assert k == |s|;
    } else {
      assert IsDigit(s[k]);
    }
  }

  /** A text without digits counts to 0 and is shown whole after the count. */
  lemma {:induction false} NoDigits(s: string)
    requires forall i :: 0 <= i < |s| ==> !IsDigit(s[i])
    ensures NumericValue(s) == 0 && Suffix(s) == s
  {
    SuffixKeepsTheRest(s);
    assert s[..|s|] == s;
  }

  /** A figure that starts with its number, written without leading zeros,
      is shown as it is once the count reaches the number. */
  lemma {:induction false} DisplayRestores(s: string)
    requires LeadLength(s) == 0 && IsCanonicalNumeral(Run(s))
    ensures Display(s, NumericValue(s)) == s
  {
    SuffixKeepsTheRest(s);
    NatToStringOfDigits(Run(s));
    assert Suffix(s)[..0] == [] && Suffix(s)[0..] == Suffix(s);
  }

  /** A numeral followed by a text that does not start with a digit is
      shown as it is. */
  lemma {:induction false} NumeralThenText(num: string, rest: string)
    requires IsCanonicalNumeral(num)
    requires rest == [] || !IsDigit(rest[0])
    ensures Display(num + rest, NumericValue(num + rest)) == num + rest
  {
    var s := num + rest;
    assert LeadLength(s) == 0 by { assert s[0] == num[0]; }
    assert s[0..] == s;
    DigitPrefixOf(num, rest);
    DisplayRestores(s);
  }

  /** The four figures of the home page come back as written. */
  lemma {:induction false} HomeFigures()
    ensures Display("5", NumericValue("5")) == "5"
    ensures Display("50+", NumericValue("50+")) == "50+"
    ensures Display("95%", NumericValue("95%")) == "95%"
    ensures Display("100%", NumericValue("100%")) == "100%"
  {
    assert "5" == "5" + "" && "50+" == "50" + "+" && "95%" == "95" + "%" && "100%" == "100" + "%";
    assert IsCanonicalNumeral("5") && IsCanonicalNumeral("50") && IsCanonicalNumeral("95") && IsCanonicalNumeral("100");
    assert !IsDigit("+"[0]) && !IsDigit("%"[0]);
    NumeralThenText("5", "");
    NumeralThenText("50", "+");
    NumeralThenText("95", "%");
    NumeralThenText("100", "%");
  }
}
