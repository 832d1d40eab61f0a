/** The client-side logic of the NIK form page: normalising what the user
    types into the NIK field, deciding whether the form may be submitted,
    and the theme toggle with its icon. React state setters are modelled as
    next-state functions. */
module NikForm {
  import opened Wrappers

  /** The number of digits of a NIK, and the most the field keeps. */
  const NikLength := 16

  /** The class `\d` of a JavaScript regular expression: ASCII decimal digits only. */
  predicate IsDigit(c: char) {
    '0' <= c <= '9'
  }

  predicate AllDigits(s: string) {
    forall i :: 0 <= i < |s| ==> IsDigit(s[i])
  }

  /** `s.replace(/\D/g, "")`: the digits of `s`, in their original order. */
  function Digits(s: string): (d: string)
    ensures AllDigits(d)
    ensures |d| <= |s|
  {
    if s == [] then []
    else (if IsDigit(s[0]) then [s[0]] else []) + Digits(s[1..])
  }

  /** Stripping non-digits distributes over concatenation, so it keeps the
      relative order of the digits. */
  lemma {:induction false} DigitsAppend(s: string, t: string)
    ensures Digits(s + t) == Digits(s) + Digits(t)
  {
    if s == [] {
      assert s + t == t;
    } else {
      assert (s + t)[1..] == s[1..] + t;
      DigitsAppend(s[1..], t);
    }
  }

  /** Stripping non-digits keeps every digit as often as it occurs and drops
      every other character. */
  lemma {:induction false} DigitsCounts(s: string, c: char)
    ensures multiset(Digits(s))[c] == if IsDigit(c) then multiset(s)[c] else 0
  {
    if s != [] {
      assert s == [s[0]] + s[1..];
      DigitsCounts(s[1..], c);
    }
  }

  /** A string of digits is left alone by the stripping. */
  lemma {:induction false} DigitsOfDigitString(s: string)
    requires AllDigits(s)
    ensures Digits(s) == s
  {
    if s != [] {
      DigitsOfDigitString(s[1..]);
    }
  }

  /** `formatNIK`: strip every non-digit, then keep at most the first 16 digits.
      The result is the longest prefix of the input's digits that fits the field. */
  function FormatNik(s: string): (r: string)
    ensures AllDigits(r)
    ensures |r| <= NikLength
    ensures r <= Digits(s)
    ensures |r| == if |Digits(s)| <= NikLength then |Digits(s)| else NikLength
  {
    var d := Digits(s);
    if |d| <= NikLength then d else d[..NikLength]
  }

  /** An input with at most 16 digits keeps all of them. */
  lemma FormatNikKeepsShortInput(s: string)
    requires |Digits(s)| <= NikLength
    ensures FormatNik(s) == Digits(s)
  {
  }

  /** A value already in the field's form is not changed by formatting it again. */
  lemma FormatNikFixesFormatted(s: string)
    requires AllDigits(s) && |s| <= NikLength
    ensures FormatNik(s) == s
  {
    DigitsOfDigitString(s);
  }

  /** Formatting is idempotent. */
  lemma FormatNikIdempotent(s: string)
    ensures FormatNik(FormatNik(s)) == FormatNik(s)
  {
    FormatNikFixesFormatted(FormatNik(s));
  }

  /** Appending characters at the end of the input only extends the field's
      value: what it held stays a prefix. (A character typed elsewhere can change it.) */
  lemma FormatNikExtends(s: string, t: string)
    ensures FormatNik(s) <= FormatNik(s + t)
  {
    DigitsAppend(s, t);
  }

  /** The field after a change event: `setNik(formatNIK(value))`. */
  function OnNikChange(value: string): (nik: string)
    ensures AllDigits(nik) && |nik| <= NikLength
    ensures FormatNik(nik) == nik
  {
    FormatNikIdempotent(value);
    FormatNik(value)
  }

  /** The submit button is enabled unless a request is in flight or the
      field does not hold exactly 16 characters. */
  predicate SubmitEnabled(loading: bool, nik: string) {
    !(loading || |nik| != NikLength)
  }

  /** A field filled through the change handler can be submitted exactly when
      no request is in flight and the input held at least 16 digits; what is
      then sent is 16 digits, the first 16 of the input. The field's initial
      empty value cannot be submitted. */
  lemma SubmitSendsSixteenDigits(loading: bool, input: string)
    ensures !SubmitEnabled(loading, "")
    ensures SubmitEnabled(loading, OnNikChange(input)) <==> !loading && |Digits(input)| >= NikLength
    ensures SubmitEnabled(loading, OnNikChange(input)) ==>
              AllDigits(OnNikChange(input)) && |OnNikChange(input)| == NikLength &&
              OnNikChange(input) == Digits(input)[..NikLength]
  {
  }

  /** `cycleTheme`: the theme to set next. `theme` is next-themes' current
      value, which may be undefined. */
  function CycleTheme(theme: Option<string>): (next: string)
    ensures next == "dark" <==> theme == Some("light")
    ensures next == "system" <==> theme == Some("dark")
    ensures next == "light" <==> theme != Some("light") && theme != Some("dark")
  {
    if theme == Some("light") then "dark"
    else if theme == Some("dark") then "system"
    else "light"
  }

  /** The three themes the toggle cycles through. */
  predicate IsCycledTheme(t: string) {
    t == "light" || t == "dark" || t == "system"
  }

  /** Whatever the current theme, one click lands on one of the three cycled
      themes, and three clicks from any of them return to it. */
  lemma CycleHasPeriodThree(theme: Option<string>)
    ensures IsCycledTheme(CycleTheme(theme))
    ensures theme.Some? && IsCycledTheme(theme.value) ==>
              CycleTheme(Some(CycleTheme(Some(CycleTheme(theme))))) == theme.value
  {
  }

  /** The toggle visits every cycled theme: on those three it is a bijection. */
  lemma CycleInjective(a: string, b: string)
    requires IsCycledTheme(a) && IsCycledTheme(b)
    requires CycleTheme(Some(a)) == CycleTheme(Some(b))
    ensures a == b
  {
  }

  datatype ThemeIcon = Sun | Moon | Monitor

  /** `getThemeIcon`: a monitor until the page is mounted; then a sun for
      light, a moon for dark and a monitor for anything else. */
  function ThemeIconOf(mounted: bool, theme: Option<string>): (icon: ThemeIcon)
    ensures icon == Sun <==> mounted && theme == Some("light")
    ensures icon == Moon <==> mounted && theme == Some("dark")
    ensures !mounted ==> icon == Monitor
  {
    if !mounted then Monitor
    else if theme == Some("light") then Sun
    else if theme == Some("dark") then Moon
    else Monitor
  }

  /** The icon the button shows after a click follows the cycle sun, moon, monitor. */
  function NextIcon(icon: ThemeIcon): ThemeIcon {
    match icon
    case Sun => Moon
    case Moon => Monitor
    case Monitor => Sun
  }

  /** Once mounted, clicking the toggle advances the icon by one step of
      sun, moon, monitor, whatever the current theme. */
  lemma IconFollowsCycle(theme: Option<string>)
    ensures ThemeIconOf(true, Some(CycleTheme(theme))) == NextIcon(ThemeIconOf(true, theme))
  {
  }
}
