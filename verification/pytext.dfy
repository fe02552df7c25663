/** The Python built-ins the constructors call: truthiness of an argument,
    `str.capitalize`, `str.upper`, `str.isdigit`, `str(int)` and `int(str)`.
    `str.title` is the normalisation of the corrected name lookup, and
    `str.lower` serves to state "equal up to case". Case mapping, digits and
    whitespace are those of ASCII. */
module PyText {
  import opened Results

  /** A constructor argument as Python receives it: `None`, an `int` or a `str`. */
  datatype PyValue = NoneVal | IntVal(i: int) | StrVal(s: string)

  /** Python truthiness: `None`, `0` and `""` are false. */
  predicate Truthy(v: PyValue) {
    match v
    case NoneVal => false
    case IntVal(i) => i != 0
    case StrVal(s) => s != ""
  }

  /** Truthiness of an `Optional[str]` argument. */
  predicate TruthyText(t: Option<string>) {
    t.Some? && t.value != ""
  }

  // ---------------------------------------------------------------- case

  predicate IsLower(c: char) { 'a' <= c <= 'z' }
  predicate IsUpper(c: char) { 'A' <= c <= 'Z' }
  predicate IsLetter(c: char) { IsLower(c) || IsUpper(c) }

  function UpperChar(c: char): (u: char) {
    if IsLower(c) then (c as int - 32) as char else c
  }

  function LowerChar(c: char): (l: char) {
    if IsUpper(c) then (c as int + 32) as char else c
  }

  /** `str.upper` */
  function Upper(s: string): (u: string)
    ensures |u| == |s|
    ensures forall i :: 0 <= i < |s| ==> !IsLower(u[i]) && LowerChar(u[i]) == LowerChar(s[i])
  {
    seq(|s|, i requires 0 <= i < |s| => UpperChar(s[i]))
  }

  /** `str.lower` */
  function Lower(s: string): (l: string)
    ensures |l| == |s|
    ensures forall i :: 0 <= i < |s| ==> !IsUpper(l[i]) && UpperChar(l[i]) == UpperChar(s[i])
  {
    seq(|s|, i requires 0 <= i < |s| => LowerChar(s[i]))
  }

  /** `str.capitalize`: the first character upper-case, every other one lower-case. */
  function Capitalize(s: string): (t: string)
    ensures |t| == |s|
  {
    seq(|s|, i requires 0 <= i < |s| => if i == 0 then UpperChar(s[i]) else LowerChar(s[i]))
  }

  /** `str.title`: a letter is upper-case when it starts a word (no letter before
      it) and lower-case otherwise. */
  function Title(s: string): (t: string)
    ensures |t| == |s|
  {
    seq(|s|, i requires 0 <= i < |s| => TitleChar(s, i))
  }

  /** Whether position `i` of `s` starts a word, that is, follows no letter. */
  predicate StartsWord(s: string, i: int)
    requires 0 <= i < |s|
  {
    i == 0 || !IsLetter(s[i - 1])
  }

  function TitleChar(s: string, i: int): (c: char)
    requires 0 <= i < |s|
  {
    if StartsWord(s, i) then UpperChar(s[i]) else LowerChar(s[i])
  }

  /** The strings `str.capitalize` leaves unchanged. */
  predicate IsCapitalized(s: string) {
    s == "" || (!IsLower(s[0]) && forall i :: 1 <= i < |s| ==> !IsUpper(s[i]))
  }

  /** The strings `str.title` leaves unchanged. */
  predicate IsTitled(s: string) {
    forall i :: 0 <= i < |s| ==> if StartsWord(s, i) then !IsLower(s[i]) else !IsUpper(s[i])
  }

  /** Facts about one character that the string lemmas below lift. */
  lemma {:induction false} CaseRoundTrips(c: char)
    ensures !IsLower(UpperChar(c)) && !IsUpper(LowerChar(c))
    ensures LowerChar(UpperChar(c)) == LowerChar(c) && UpperChar(LowerChar(c)) == UpperChar(c)
    ensures !IsLower(c) ==> UpperChar(c) == c
    ensures !IsUpper(c) ==> LowerChar(c) == c
  {
  }

  lemma {:induction false} CapitalizeIsCapitalized(s: string)
    ensures IsCapitalized(Capitalize(s))
  {
    var t := Capitalize(s);
    if s != "" {
      CaseRoundTrips(s[0]);
      forall i | 1 <= i < |s| ensures !IsUpper(t[i]) {
        CaseRoundTrips(s[i]);
      }
    }
  }

  lemma {:induction false} CapitalizeCaseOnly(s: string)
    ensures Lower(Capitalize(s)) == Lower(s)
    ensures Capitalize(Lower(s)) == Capitalize(s)
  {
    var t := Capitalize(s);
    var l := Lower(s);
    forall i | 0 <= i < |s| ensures Lower(t)[i] == l[i] {
      CaseRoundTrips(s[i]);
    }
    forall i | 0 <= i < |s| ensures Capitalize(l)[i] == t[i] {
      CaseRoundTrips(s[i]);
    }
  }

  lemma {:induction false} CapitalizeFixesCapitalized(s: string)
    requires IsCapitalized(s)
    ensures Capitalize(s) == s
  {
    forall i | 0 <= i < |s| ensures Capitalize(s)[i] == s[i] {
      CaseRoundTrips(s[i]);
    }
  }

  /** `capitalize` always yields a capitalized string, differs from its input only
      in letter case, sees its input only up to case, and fixes exactly the
      capitalized strings. */
  lemma {:induction false} CapitalizeSpec(s: string)
    ensures IsCapitalized(Capitalize(s))
    ensures Lower(Capitalize(s)) == Lower(s)
    ensures Capitalize(Lower(s)) == Capitalize(s)
    ensures Capitalize(s) == s <==> IsCapitalized(s)
  {
    CapitalizeIsCapitalized(s);
    CapitalizeCaseOnly(s);
    if IsCapitalized(s) {
      CapitalizeFixesCapitalized(s);
    }
  }

  /** Case mapping keeps letters letters and everything else unchanged. */
  lemma {:induction false} CaseKeepsLetters(c: char)
    ensures IsLetter(UpperChar(c)) == IsLetter(c)
    ensures IsLetter(LowerChar(c)) == IsLetter(c)
  {
  }

  lemma {:induction false} TitleKeepsLetters(s: string)
    ensures forall i :: 0 <= i < |s| ==> IsLetter(Title(s)[i]) == IsLetter(s[i])
    ensures forall i :: 0 <= i < |s| ==> IsLetter(Lower(s)[i]) == IsLetter(s[i])
  {
    forall i | 0 <= i < |s|
      ensures IsLetter(Title(s)[i]) == IsLetter(s[i])
      ensures IsLetter(Lower(s)[i]) == IsLetter(s[i])
    {
      CaseKeepsLetters(s[i]);
    }
  }

  lemma {:induction false} TitleIsTitled(s: string)
    ensures IsTitled(Title(s))
  {
    var t := Title(s);
    TitleKeepsLetters(s);
    forall i | 0 <= i < |s|
      ensures if StartsWord(t, i) then !IsLower(t[i]) else !IsUpper(t[i])
    {
      CaseRoundTrips(s[i]);
      assert StartsWord(t, i) == StartsWord(s, i);
    }
  }

  lemma {:induction false} TitleCaseOnly(s: string)
    ensures Lower(Title(s)) == Lower(s)
    ensures Title(Lower(s)) == Title(s)
  {
    var t := Title(s);
    var l := Lower(s);
    TitleKeepsLetters(s);
    forall i | 0 <= i < |s| ensures Lower(t)[i] == l[i] {
      CaseRoundTrips(s[i]);
    }
    forall i | 0 <= i < |s| ensures Title(l)[i] == t[i] {
      CaseRoundTrips(s[i]);
    }
  }

  lemma {:induction false} TitleFixesTitled(s: string)
    requires IsTitled(s)
    ensures Title(s) == s
  {
    forall i | 0 <= i < |s| ensures Title(s)[i] == s[i] {
      CaseRoundTrips(s[i]);
    }
  }

  /** `title` always yields a titled string, differs from its input only in letter
      case, sees its input only up to case, and fixes exactly the titled strings. */
  lemma {:induction false} TitleSpec(s: string)
    ensures IsTitled(Title(s))
    ensures Lower(Title(s)) == Lower(s)
    ensures Title(Lower(s)) == Title(s)
    ensures Title(s) == s <==> IsTitled(s)
  {
    TitleIsTitled(s);
    TitleCaseOnly(s);
    if IsTitled(s) {
      TitleFixesTitled(s);
    }
  }

  // -------------------------------------------------------------- digits

  predicate IsDigit(c: char) { '0' <= c <= '9' }

  predicate AllDigits(s: string) {
    forall i :: 0 <= i < |s| ==> IsDigit(s[i])
  }

  /** `str.isdigit`: at least one character, and every character a digit. */
  predicate IsDigitString(s: string) {
    |s| > 0 && AllDigits(s)
  }

  function DigitChar(d: nat): (c: char)
    requires d < 10
    ensures IsDigit(c) && c as int - '0' as int == d
  {
    ('0' as int + d) as char
  }

  /** The number a string of decimal digits denotes. */
  function DigitsValue(s: string): (v: nat)
    requires AllDigits(s)
    decreases |s|
  {
    if |s| == 0 then 0 else DigitsValue(s[..|s| - 1]) * 10 + (s[|s| - 1] as int - '0' as int)
  }

  function Pow10(k: nat): (p: nat) {
    if k == 0 then 1 else 10 * Pow10(k - 1)
  }

  /** The decimal digits of a natural number, without leading zeros. */
  function NatToDigits(n: nat): (digits: string)
    decreases n
  {
    if n < 10 then [DigitChar(n)] else NatToDigits(n / 10) + [DigitChar(n % 10)]
  }

  /** `str(i)` for an `int`. */
  function IntToStr(i: int): (text: string) {
    if i < 0 then "-" + NatToDigits(-i) else NatToDigits(i)
  }

  /** `str(v)` */
  function Str(v: PyValue): (text: string) {
    match v
    case NoneVal => "None"
    case IntVal(i) => IntToStr(i)
    case StrVal(s) => s
  }

  /** The ASCII characters `int()` skips around the digits: space and
      `\t \n \v \f \r`, the white space of C's `isspace`. */
  predicate IsSpace(c: char) {
    c == ' ' || 9 <= c as int <= 13
  }

  function StripStart(s: string): (t: string)
    decreases |s|
  {
    if |s| > 0 && IsSpace(s[0]) then StripStart(s[1..]) else s
  }

  function StripEnd(s: string): (t: string)
    decreases |s|
  {
    if |s| > 0 && IsSpace(s[|s| - 1]) then StripEnd(s[..|s| - 1]) else s
  }

  /** `int(s)` for a `str`: optional surrounding white space, an optional sign,
      then one or more digits; anything else raises (None here). */
  function ParseInt(s: string): (r: Option<int>) {
    var t := StripEnd(StripStart(s));
    if |t| > 0 && (t[0] == '+' || t[0] == '-') then
      if IsDigitString(t[1..]) then
        var v: int := DigitsValue(t[1..]);
        Some(if t[0] == '-' then -v else v)
      else None
    else if IsDigitString(t) then Some(DigitsValue(t))
    else None
  }

  /** `int(v)`; `None` for the arguments on which Python raises. */
  function Int(v: PyValue): (r: Option<int>) {
    match v
    case NoneVal => None
    case IntVal(i) => Some(i)
    case StrVal(s) => ParseInt(s)
  }

  // ------------------------------------------------------ digit lemmas

  /** `NatToDigits` is a digit string whose value is the number itself. */
  lemma {:induction false} NatToDigitsRoundTrip(n: nat)
    ensures IsDigitString(NatToDigits(n))
    ensures DigitsValue(NatToDigits(n)) == n
  {
    if n >= 10 {
      NatToDigitsRoundTrip(n / 10);
      var p := NatToDigits(n / 10);
      var s := p + [DigitChar(n % 10)];
      assert s[..|s| - 1] == p;
      assert DigitsValue(s) == DigitsValue(p) * 10 + n % 10;
    }
  }

  /** `NatToDigits(n)` has exactly as many digits as `n` needs, and no leading zero. */
  lemma {:induction false} NatToDigitsLength(n: nat)
    ensures |NatToDigits(n)| >= 1
    ensures n < Pow10(|NatToDigits(n)|)
    ensures n >= 10 ==> Pow10(|NatToDigits(n)| - 1) <= n
    ensures NatToDigits(n)[0] != '0' || n == 0
  {
    if n >= 10 {
      NatToDigitsLength(n / 10);
      var p := NatToDigits(n / 10);
      assert NatToDigits(n) == p + [DigitChar(n % 10)];
      assert n < 10 * Pow10(|p|);
      if n / 10 >= 10 {
        assert 10 * Pow10(|p| - 1) <= 10 * (n / 10);
      }
    }
  }

  lemma {:induction false} Pow10Monotonic(a: nat, b: nat)
    requires a <= b
    ensures Pow10(a) <= Pow10(b)
    decreases b
  {
    if a < b {
      Pow10Monotonic(a, b - 1);
    }
  }

  /** A natural number is written with exactly seven digits iff it lies in
      [1000000, 9999999]. */
  lemma {:induction false} SevenDigits(n: nat)
    ensures |NatToDigits(n)| == 7 <==> 1000000 <= n < 10000000
  {
    NatToDigitsLength(n);
    var l := |NatToDigits(n)|;
    assert Pow10(6) == 1000000 && Pow10(7) == 10000000;
    if l == 7 {
      assert n >= 10;
    }
    if 1000000 <= n < 10000000 {
      if l - 1 >= 7 {
        Pow10Monotonic(7, l - 1);
      }
      if l <= 6 {
        Pow10Monotonic(l, 6);
      }
    }
  }

  /** A digit string that does not start with `0` denotes a positive number. */
  lemma {:induction false} DigitsValuePositive(s: string)
    requires IsDigitString(s) && s[0] != '0'
    ensures DigitsValue(s) >= 1
    decreases |s|
  {
    if |s| > 1 {
      DigitsValuePositive(s[..|s| - 1]);
    }
  }

  /** A digit string without a leading zero is what `str` prints for its value. */
  lemma {:induction false} CanonicalDigitsRoundTrip(s: string)
    requires IsDigitString(s) && (s[0] != '0' || |s| == 1)
    ensures NatToDigits(DigitsValue(s)) == s
    decreases |s|
  {
    var d := s[|s| - 1] as int - '0' as int;
    var p := s[..|s| - 1];
    if |s| == 1 {
      assert DigitsValue(s) == d;
      assert DigitChar(d) == s[0];
    } else {
      CanonicalDigitsRoundTrip(p);
      DigitsValuePositive(p);
      var v := DigitsValue(s);
      assert v == DigitsValue(p) * 10 + d;
      assert v / 10 == DigitsValue(p) && v % 10 == d;
      assert DigitChar(d) == s[|s| - 1];
      assert s == p + [s[|s| - 1]];
    }
  }

  /** `str` of a digit string's value gives the string back exactly when the
      string has no leading zero or is the single digit it starts with. */
  lemma {:induction false} DigitsRoundTrip(s: string)
    requires IsDigitString(s)
    ensures NatToDigits(DigitsValue(s)) == s <==> (s[0] != '0' || |s| == 1)
  {
    if s[0] != '0' || |s| == 1 {
      CanonicalDigitsRoundTrip(s);
    } else {
      var n := DigitsValue(s);
      NatToDigitsLength(n);
      if n == 0 {
        assert |NatToDigits(n)| == 1 != |s|;
      } else {
        assert NatToDigits(n)[0] != s[0];
      }
    }
  }

  lemma {:induction false} StripUnspaced(s: string)
    requires |s| > 0 && !IsSpace(s[0]) && !IsSpace(s[|s| - 1])
    ensures StripEnd(StripStart(s)) == s
  {
  }

  /** `int(str(i)) == i` for every integer. */
  lemma {:induction false} ParseIntRoundTrip(i: int)
    ensures ParseInt(IntToStr(i)) == Some(i)
  {
    var n: nat := if i < 0 then -i else i;
    NatToDigitsRoundTrip(n);
    var digits := NatToDigits(n);
    var s := IntToStr(i);
    assert s[|s| - 1] == digits[|digits| - 1];
    StripUnspaced(s);
    if i < 0 {
      assert s[1..] == digits;
    }
  }

  /** On a digit string `int()` succeeds and yields the string's value. */
  lemma {:induction false} DigitStringParses(s: string)
    requires IsDigitString(s)
    ensures ParseInt(s) == Some(DigitsValue(s))
  {
    StripUnspaced(s);
  }
}
