/** The scalar parts of canonical JSON text: decimals with at most six places or an exponent, and quoted strings. */
module JsonText {
  import opened Basics

  // ---------------------------------------------------------------- decimals

  const MICRO := 1000000

  /** Rounding to six places, ties away from zero, as a whole number of millionths. */
  function Round6(x: real): int
  {
    if x >= 0.0 then (x * 1000000.0 + 0.5).Floor else -((-x * 1000000.0 + 0.5).Floor)
  }

  /** The nearest whole number of millionths; of two that are equally near, the one further from zero. */
  ghost predicate Nearest(m: int, x: real)
  {
    if x >= 0.0 then 1000000.0 * x - 0.5 < m as real <= 1000000.0 * x + 0.5
    else 1000000.0 * x - 0.5 <= m as real < 1000000.0 * x + 0.5
  }

  lemma RoundsToNearest(x: real, m: int)
    ensures m == Round6(x) <==> Nearest(m, x)
    ensures Round6(-x) == -Round6(x)
  {
  }

  /** From 1e21 on, in units and in millionths, numbers are written with an exponent. */
  const NUMBER_LIMIT := 1000000000000000000000.0
  const EXPONENT_FROM := 1000000000000000000000000000

  /** A number as JSON text denotes it: like the doubles, none within half a millionth below 1e21 rounds up to it. */
  type JsonNumber = x: real | -NUMBER_LIMIT < x < NUMBER_LIMIT ==> -EXPONENT_FROM < Round6(x) < EXPONENT_FROM

  lemma RoundOfMicro(m: int)
    ensures Round6(m as real / 1000000.0) == m
  {
  }

  function FromMicro(m: int): (x: JsonNumber)
    ensures Round6(x) == m
  {
    hide Round6;
    RoundOfMicro(m);
    m as real / 1000000.0
  }

  predicate IsDigit(c: char) { '0' <= c <= '9' }

  function DigitChar(d: nat): (c: char)
    requires d < 10
    ensures IsDigit(c) && DigitValue(c) == d
  {
    '0' + d as char
  }

  function DigitValue(c: char): (d: nat)
    requires IsDigit(c)
    ensures d < 10
  {
    (c - '0') as nat
  }

  function Digits(n: nat): (s: string)
    ensures s != [] && forall i :: 0 <= i < |s| ==> IsDigit(s[i])
  {
    if n < 10 then [DigitChar(n)] else Digits(n / 10) + [DigitChar(n % 10)]
  }

  function Pow10(k: nat): (p: nat)
    ensures p > 0
  {
    if k == 0 then 1 else 10 * Pow10(k - 1)
  }

  /** `k` as `width` decimal places, trailing zeros stripped. */
  function Places(k: nat, width: nat): (s: string)
    requires k < Pow10(width)
    ensures forall i :: 0 <= i < |s| ==> IsDigit(s[i])
    ensures s == [] <==> k == 0
    decreases width
  {
    if k == 0 then []
    else
      LeadingDigit(k, width);
      [DigitChar(k / Pow10(width - 1))] + Places(k % Pow10(width - 1), width - 1)
  }

  lemma LeadingDigit(k: nat, width: nat)
    requires 0 < k < Pow10(width)
    ensures width > 0 && k / Pow10(width - 1) < 10
  {
  }

  lemma Recompose(k: nat, p: nat)
    requires p > 0
    ensures k / p * p + k % p == k
  {
  }

  function PlainText(n: nat): string
  {
    PowMicro();
    Digits(n / MICRO) + if n % MICRO == 0 then "" else "." + Places(n % MICRO, 6)
  }

  lemma PowMicro()
    ensures Pow10(6) == MICRO
  {
  }

  /** A whole number without its trailing zeros. */
  function Significand(n: nat): nat
  {
    if n > 0 && n % 10 == 0 then Significand(n / 10) else n
  }

  lemma {:induction false} ManyDigits(n: nat, k: nat)
    requires n >= Pow10(k)
    ensures |Digits(n)| > k
  {
    if k > 0 {
      ManyDigits(n / 10, k - 1);
    }
  }

  /** One digit, the other significant ones as places, and the power of ten. */
  function ExponentText(n: nat): string
    requires n >= EXPONENT_FROM
  {
    var s := Digits(Significand(n));
    PowMicro();
    ManyDigits(n, 6);
    [s[0]] + (if |s| == 1 then "" else "." + s[1..]) + "e+" + Digits(|Digits(n)| - 7)
  }

  function MagnitudeText(n: nat): string
  {
    if n < EXPONENT_FROM then PlainText(n) else ExponentText(n)
  }

  /** Without exponents, whatever the size. */
  function PlainNumberText(m: int): string
  {
    if m < 0 then "-" + PlainText(-m) else PlainText(m)
  }

  function NumberText(m: int): string
  {
    if m < 0 then "-" + MagnitudeText(-m) else MagnitudeText(m)
  }

  // reading them back

  /** How many leading characters are digits. */
  function DigitRun(s: string): (k: nat)
    ensures k <= |s|
  {
    if s != [] && IsDigit(s[0]) then 1 + DigitRun(s[1..]) else 0
  }

  function DigitsValue(s: string): nat
    requires forall i :: 0 <= i < |s| ==> IsDigit(s[i])
  {
    if s == [] then 0 else 10 * DigitsValue(s[..|s| - 1]) + DigitValue(s[|s| - 1])
  }

  function PlacesValue(s: string, width: nat): nat
    requires forall i :: 0 <= i < |s| ==> IsDigit(s[i])
    requires |s| <= width
  {
    if s == [] then 0 else DigitValue(s[0]) * Pow10(width - 1) + PlacesValue(s[1..], width - 1)
  }

  lemma {:induction false} RunIsDigits(s: string)
    ensures forall i :: 0 <= i < DigitRun(s) ==> IsDigit(s[i])
  {
    if s != [] && IsDigit(s[0]) {
      RunIsDigits(s[1..]);
    }
  }

  function ReadPlain(s: string): (r: Option<(nat, string)>)
    ensures r.Some? ==> |r.value.1| < |s|
  {
    var k := DigitRun(s);
    RunIsDigits(s);
    if k == 0 then None
    else ReadPlaces(DigitsValue(s[..k]) * MICRO, s[k..])
  }

  /** Adds the decimal places, if there are any, to a whole number of millionths. */
  function ReadPlaces(whole: nat, s: string): (r: Option<(nat, string)>)
    ensures r.Some? ==> |r.value.1| <= |s|
  {
    if s == [] || s[0] != '.' then Some((whole, s))
    else
      var j := DigitRun(s[1..]);
      RunIsDigits(s[1..]);
      if j == 0 || j > 6 then None
      else Some((whole + PlacesValue(s[1..][..j], 6), s[1 + j..]))
  }

  /** The leading digits, before and after a decimal point, and what follows them. */
  function Significant(s: string): (r: (string, string))
    ensures forall i :: 0 <= i < |r.0| ==> IsDigit(r.0[i])
    ensures |r.0| + |r.1| <= |s|
  {
    var k := DigitRun(s);
    RunIsDigits(s);
    if k < |s| && s[k] == '.' then
      var tail := s[k + 1..];
      RunIsDigits(tail);
      (s[..k] + tail[..DigitRun(tail)], tail[DigitRun(tail)..])
    else (s[..k], s[k..])
  }

  predicate HasExponent(s: string)
  {
    StartsWith(Significant(s).1, "e+")
  }

  /** Scales the significant digits to a whole number of millionths. */
  function ReadScaled(digits: string, s: string): (r: Option<(nat, string)>)
    requires forall i :: 0 <= i < |digits| ==> IsDigit(digits[i])
    ensures r.Some? ==> |r.value.1| <= |s|
  {
    var e := DigitRun(s);
    RunIsDigits(s);
    var width := DigitsValue(s[..e]) + 7;
    if e == 0 || |digits| > width then None
    else Some((DigitsValue(digits) * Pow10(width - |digits|), s[e..]))
  }

  function ReadMagnitude(s: string): (r: Option<(nat, string)>)
    ensures r.Some? ==> |r.value.1| < |s|
  {
    var (digits, rest) := Significant(s);
    if HasExponent(s) then ReadScaled(digits, rest[2..]) else ReadPlain(s)
  }

  function ReadNumber(s: string): (r: Option<(int, string)>)
    ensures r.Some? ==> |r.value.1| < |s|
  {
    if s != [] && s[0] == '-' then
      var r := ReadMagnitude(s[1..]);
      if r.None? then None else Some((-(r.value.0 as int), r.value.1))
    else
      var r := ReadMagnitude(s);
      if r.None? then None else Some((r.value.0 as int, r.value.1))
  }

  /** What may stand after a number inside canonical text. */
  predicate Follows(rest: string)
  {
    rest == [] || rest[0] in {',', ']', '}'}
  }

  lemma {:induction false} RunOfDigits(s: string, rest: string)
    requires forall i :: 0 <= i < |s| ==> IsDigit(s[i])
    requires rest == [] || !IsDigit(rest[0])
    ensures DigitRun(s + rest) == |s|
  {
    if s == [] {
      assert s + rest == rest;
    } else {
      RunOfDigits(s[1..], rest);
      assert (s + rest)[1..] == s[1..] + rest;
    }
  }

  lemma {:induction false} ValueOfDigits(n: nat)
    ensures DigitsValue(Digits(n)) == n
  {
    if n >= 10 {
      ValueOfDigits(n / 10);
      assert Digits(n)[..|Digits(n)| - 1] == Digits(n / 10);
    }
  }

  lemma {:induction false} ValueOfPlaces(k: nat, width: nat)
    requires k < Pow10(width)
    ensures |Places(k, width)| <= width
    ensures PlacesValue(Places(k, width), width) == k
    decreases width
  {
    if k == 0 {
      NoPlaces(width);
    } else {
      LeadingDigit(k, width);
      hide Pow10, PlacesValue, Places;
      var p := Pow10(width - 1);
      var q, r := k / p, k % p;
      Recompose(k, p);
      ValueOfPlaces(r, width - 1);
      PlacesUnfold(k, width);
      PlacesStep(q, Places(r, width - 1), width);
    }
  }

  lemma PlacesUnfold(k: nat, width: nat)
    requires 0 < k < Pow10(width) && width > 0 && k / Pow10(width - 1) < 10
    ensures Places(k, width) == [DigitChar(k / Pow10(width - 1))] + Places(k % Pow10(width - 1), width - 1)
  {
  }

  lemma NoPlaces(width: nat)
    ensures PlacesValue([], width) == 0
  {
  }

  lemma {:induction false} PlacesStep(d: nat, low: string, width: nat)
    requires d < 10 && |low| < width
    requires forall i :: 0 <= i < |low| ==> IsDigit(low[i])
    ensures PlacesValue([DigitChar(d)] + low, width) == d * Pow10(width - 1) + PlacesValue(low, width - 1)
  {
  }

  lemma {:induction false} ReadWhole(n: nat, rest: string)
    requires rest == [] || (!IsDigit(rest[0]) && rest[0] != '.')
    ensures ReadPlain(Digits(n) + rest) == Some((n * MICRO, rest))
  {
    hide Digits;
    var s := Digits(n);
    ValueOfDigits(n);
    RunOfDigits(s, rest);
    assert (s + rest)[..|s|] == s && (s + rest)[|s|..] == rest;
  }

  lemma {:induction false} ReadWithPlaces(n: nat, part: nat, rest: string)
    requires 0 < part < Pow10(6)
    requires rest == [] || !IsDigit(rest[0])
    ensures ReadPlain(Digits(n) + "." + Places(part, 6) + rest) == Some((n * MICRO + part, rest))
  {
    hide Digits, Places, Pow10, PlacesValue;
    var s, places := Digits(n), Places(part, 6);
    ValueOfDigits(n);
    ValueOfPlaces(part, 6);
    ReadSplit(s, places, rest);
  }

  lemma {:induction false} ReadSplit(s: string, places: string, rest: string)
    requires s != [] && forall i :: 0 <= i < |s| ==> IsDigit(s[i])
    requires 0 < |places| <= 6 && forall i :: 0 <= i < |places| ==> IsDigit(places[i])
    requires rest == [] || !IsDigit(rest[0])
    ensures ReadPlain(s + "." + places + rest) == Some((DigitsValue(s) * MICRO + PlacesValue(places, 6), rest))
  {
    hide DigitsValue, PlacesValue, DigitRun, ReadPlaces;
    var tail := "." + places + rest;
    assert s + "." + places + rest == s + tail;
    RunOfDigits(s, tail);
    assert (s + tail)[..|s|] == s && (s + tail)[|s|..] == tail;
    ReadTail(DigitsValue(s) * MICRO, places, rest);
  }

  lemma {:induction false} ReadTail(whole: nat, places: string, rest: string)
    requires 0 < |places| <= 6 && forall i :: 0 <= i < |places| ==> IsDigit(places[i])
    requires rest == [] || !IsDigit(rest[0])
    ensures ReadPlaces(whole, "." + places + rest) == Some((whole + PlacesValue(places, 6), rest))
  {
    hide PlacesValue, DigitRun;
    var tail := "." + places + rest;
    assert tail[1..] == places + rest;
    RunOfDigits(places, rest);
    assert tail[1..][..|places|] == places && tail[1 + |places|..] == rest;
  }

  lemma {:induction false} ReadPlainText(n: nat, rest: string)
    requires Follows(rest)
    ensures ReadPlain(PlainText(n) + rest) == Some((n, rest))
    ensures !HasExponent(PlainText(n) + rest)
  {
    hide Digits, Places, ReadPlain, Pow10, Significant;
    PowMicro();
    Recompose(n, MICRO);
    var whole := Digits(n / MICRO);
    if n % MICRO == 0 {
      ReadWhole(n / MICRO, rest);
      WholeSignificant(whole, rest);
      assert PlainText(n) == whole;
    } else {
      ReadWithPlaces(n / MICRO, n % MICRO, rest);
      SplitSignificant(whole, Places(n % MICRO, 6), rest);
      assert PlainText(n) == whole + "." + Places(n % MICRO, 6);
    }
  }

  lemma WholeSignificant(s: string, rest: string)
    requires forall i :: 0 <= i < |s| ==> IsDigit(s[i])
    requires rest == [] || (!IsDigit(rest[0]) && rest[0] != '.')
    ensures Significant(s + rest) == (s, rest)
  {
    hide DigitRun;
    RunOfDigits(s, rest);
    assert (s + rest)[..|s|] == s && (s + rest)[|s|..] == rest;
  }

  lemma SplitSignificant(s: string, places: string, rest: string)
    requires forall i :: 0 <= i < |s| ==> IsDigit(s[i])
    requires forall i :: 0 <= i < |places| ==> IsDigit(places[i])
    requires rest == [] || !IsDigit(rest[0])
    ensures Significant(s + "." + places + rest) == (s + places, rest)
  {
    hide DigitRun;
    var tail := "." + (places + rest);
    assert s + "." + places + rest == s + tail;
    RunOfDigits(s, tail);
    RunOfDigits(places, rest);
    assert (s + tail)[..|s|] == s && (s + tail)[|s| + 1..] == places + rest;
    assert (places + rest)[..|places|] == places && (places + rest)[|places|..] == rest;
  }

  /** The significant digits, moved back by the zeros taken from them, are the number. */
  lemma {:induction false} ShiftedBack(n: nat)
    ensures |Digits(Significand(n))| <= |Digits(n)|
    ensures Significand(n) * Pow10(|Digits(n)| - |Digits(Significand(n))|) == n
  {
    if n > 0 && n % 10 == 0 {
      ShiftedBack(n / 10);
      var z := |Digits(n / 10)| - |Digits(Significand(n / 10))|;
      TenTimes(Significand(n), Pow10(z));
    }
  }

  lemma TenTimes(q: nat, p: nat)
    ensures q * (10 * p) == 10 * (q * p)
  {
  }

  lemma {:induction false} ReadExponentText(n: nat, rest: string)
    requires n >= EXPONENT_FROM && Follows(rest)
    ensures ReadMagnitude(ExponentText(n) + rest) == Some((n, rest))
  {
    hide Digits, Significand, Pow10, Significant, ReadPlain, DigitsValue;
    PowMicro();
    ManyDigits(n, 6);
    var s, exponent := Digits(Significand(n)), Digits(|Digits(n)| - 7);
    var tail := "e+" + (exponent + rest);
    var text := ExponentText(n) + rest;
    if |s| == 1 {
      assert text == s + tail;
      WholeSignificant(s, tail);
    } else {
      assert text == [s[0]] + "." + s[1..] + tail;
      SplitSignificant([s[0]], s[1..], tail);
      assert [s[0]] + s[1..] == s;
    }
    assert tail[2..] == exponent + rest;
    ReadScaledText(n, rest);
  }

  lemma ReadScaledText(n: nat, rest: string)
    requires |Digits(n)| >= 7 && Follows(rest)
    ensures ReadScaled(Digits(Significand(n)), Digits(|Digits(n)| - 7) + rest) == Some((n, rest))
  {
    hide Digits, Significand, Pow10, DigitsValue, DigitRun;
    var e := |Digits(n)| - 7;
    var exponent := Digits(e);
    RunOfDigits(exponent, rest);
    assert (exponent + rest)[..|exponent|] == exponent && (exponent + rest)[|exponent|..] == rest;
    ValueOfDigits(e);
    ValueOfDigits(Significand(n));
    ShiftedBack(n);
  }

  lemma {:induction false} ReadMagnitudeText(n: nat, rest: string)
    requires Follows(rest)
    ensures ReadMagnitude(MagnitudeText(n) + rest) == Some((n, rest))
  {
    if n < EXPONENT_FROM {
      hide ReadPlain, PlainText, HasExponent;
      ReadPlainText(n, rest);
    } else {
      hide ReadMagnitude, ExponentText;
      ReadExponentText(n, rest);
    }
  }

  lemma ReadNumberText(m: int, rest: string)
    requires Follows(rest)
    ensures ReadNumber(NumberText(m) + rest) == Some((m, rest))
  {
    hide MagnitudeText, ReadMagnitude;
    if m < 0 {
      ReadMagnitudeText(-m, rest);
      assert (NumberText(m) + rest)[1..] == MagnitudeText(-m) + rest;
    } else {
      ReadMagnitudeText(m, rest);
      StartsWithDigit(m);
    }
  }

  /** An exponent is written exactly for numbers of 1e21 and above, in either direction. */
  lemma ExponentExactlyWhen(m: int)
    ensures 'e' in NumberText(m) <==> !(-1000000000000000000000000000 < m < 1000000000000000000000000000)
  {
    var n: nat := if m < 0 then -m else m;
    if n < EXPONENT_FROM {
      hide Digits, Places;
      assert forall i :: 0 <= i < |PlainText(n)| ==> PlainText(n)[i] == '.' || IsDigit(PlainText(n)[i]);
    } else {
      hide Digits, Significand;
      var s := Digits(Significand(n));
      var front := [s[0]] + (if |s| == 1 then "" else "." + s[1..]);
      ManyDigitsOf(n);
      assert ExponentText(n) == front + "e+" + Digits(|Digits(n)| - 7);
      assert ExponentText(n)[|front|] == 'e';
      assert NumberText(m)[if m < 0 then |front| + 1 else |front|] == 'e';
    }
  }

  lemma ManyDigitsOf(n: nat)
    requires n >= EXPONENT_FROM
    ensures |Digits(n)| >= 28
  {
    assert Pow10(9) == 1000000000 && Pow10(18) == 1000000000000000000 && Pow10(27) == EXPONENT_FROM;
    ManyDigits(n, 27);
  }

  ghost predicate AllDigits(s: string)
  {
    forall i :: 0 <= i < |s| ==> IsDigit(s[i])
  }

  /** Digits behind the point, the last of which is not zero, or nothing at all. */
  ghost predicate Fraction(s: string)
  {
    s == "" || (|s| > 1 && s[0] == '.' && AllDigits(s[1..]) && s[|s| - 1] != '0')
  }

  /** Digits without leading zeros. */
  ghost predicate Whole(s: string)
  {
    s == "0" || (s != "" && AllDigits(s) && s[0] != '0')
  }

  /** At most six places, and no zero that could be left out. */
  ghost predicate PlainForm(s: string)
  {
    exists a, b :: s == a + b && Whole(a) && Fraction(b) && |b| <= 7
  }

  /** One digit other than zero, places, and a power of ten, with no zero that could be left out. */
  ghost predicate ExponentForm(s: string)
  {
    exists d: char, b, e ::
      s == [d] + b + "e+" + e && '1' <= d <= '9' && Fraction(b) && Whole(e) && e != "0"
  }

  lemma {:induction false} DigitsAreWhole(n: nat)
    ensures Whole(Digits(n)) && (n > 0 ==> Digits(n)[0] != '0')
  {
    if n >= 10 {
      DigitsAreWhole(n / 10);
    }
  }

  lemma {:induction false} PlacesAreShort(k: nat, width: nat)
    requires k < Pow10(width)
    ensures |Places(k, width)| <= width
    ensures k > 0 ==> Places(k, width)[|Places(k, width)| - 1] != '0'
    decreases width
  {
    if k > 0 {
      LeadingDigit(k, width);
      var p := Pow10(width - 1);
      Recompose(k, p);
      PlacesAreShort(k % p, width - 1);
    }
  }

  lemma {:induction false} LastDigit(n: nat)
    ensures DigitValue(Digits(n)[|Digits(n)| - 1]) == n % 10
  {
  }

  lemma {:induction false} NoTrailingZero(n: nat)
    requires n > 0
    ensures Significand(n) > 0 && Significand(n) % 10 != 0
  {
    if n % 10 == 0 {
      NoTrailingZero(n / 10);
    }
  }

  lemma PlainTextForm(n: nat)
    ensures PlainForm(PlainText(n))
  {
    hide Digits, Places, Pow10;
    PowMicro();
    var a, part := Digits(n / MICRO), n % MICRO;
    DigitsAreWhole(n / MICRO);
    PlacesAreShort(part, 6);
    var b := if part == 0 then "" else "." + Places(part, 6);
    assert PlainText(n) == a + b;
  }

  lemma ExponentTextForm(n: nat)
    requires n >= EXPONENT_FROM
    ensures ExponentForm(ExponentText(n))
  {
    hide Digits, Significand, Pow10;
    ManyDigitsOf(n);
    var s, e := Digits(Significand(n)), Digits(|Digits(n)| - 7);
    NoTrailingZero(n);
    DigitsAreWhole(Significand(n));
    DigitsAreWhole(|Digits(n)| - 7);
    LastDigit(Significand(n));
    var b := if |s| == 1 then "" else "." + s[1..];
    assert b != "" ==> b[|b| - 1] == s[|s| - 1] && b[1..] == s[1..];
    assert Fraction(b);
    assert ExponentText(n) == [s[0]] + b + "e+" + e;
  }

  /**
   * Numbers are written as they would be by hand: no zero that could be left
   * out before or after the digits, a sign only below zero, at most six places.
   */
  lemma NumberTextForm(m: int)
    ensures m < 0 ==> NumberText(m) == "-" + NumberText(-m)
    ensures 0 <= m < 1000000000000000000000000000 ==> PlainForm(NumberText(m))
    ensures m >= 1000000000000000000000000000 ==> ExponentForm(NumberText(m))
  {
    hide PlainText, ExponentText, PlainForm, ExponentForm;
    if 0 <= m < EXPONENT_FROM {
      PlainTextForm(m);
    } else if m >= EXPONENT_FROM {
      ExponentTextForm(m);
    }
  }

  lemma StartsWithDigit(n: nat)
    ensures MagnitudeText(n) != [] && IsDigit(MagnitudeText(n)[0])
  {
  }

  // ---------------------------------------------------------------- strings

  function HexChar(d: nat): char
    requires d < 16
  {
    if d < 10 then '0' + d as char else 'a' + (d - 10) as char
  }

  function HexValue(c: char): Option<nat>
  {
    if '0' <= c <= '9' then Some((c - '0') as nat)
    else if 'a' <= c <= 'f' then Some((c - 'a') as nat + 10)
    else None
  }

  function Escaped(c: char): (s: string)
    ensures s != [] && s[0] != '"'
  {
    if c == '"' then "\\\""
    else if c == '\\' then "\\\\"
    else if c == '\n' then "\\n"
    else if c == '\r' then "\\r"
    else if c == '\t' then "\\t"
    else if c == 8 as char then "\\b"
    else if c == 12 as char then "\\f"
    else if c < ' ' then "\\u00" + [HexChar(c as nat / 16), HexChar(c as nat % 16)]
    else [c]
  }

  function EscapedAll(s: string): string
  {
    if s == [] then [] else Escaped(s[0]) + EscapedAll(s[1..])
  }

  function Quote(s: string): string
  {
    "\"" + EscapedAll(s) + "\""
  }

  /** Reads one possibly escaped character. */
  function ReadChar(s: string): (r: Option<(char, string)>)
    ensures r.Some? ==> |r.value.1| < |s|
  {
    if s == [] || s[0] == '"' then None
    else if s[0] != '\\' then Some((s[0], s[1..]))
    else if |s| < 2 then None
    else match s[1]
      case '"' => Some(('"', s[2..]))
      case '\\' => Some(('\\', s[2..]))
      case 'n' => Some(('\n', s[2..]))
      case 'r' => Some(('\r', s[2..]))
      case 't' => Some(('\t', s[2..]))
      case 'b' => Some((8 as char, s[2..]))
      case 'f' => Some((12 as char, s[2..]))
      case 'u' =>
        if |s| < 6 || s[2] != '0' || s[3] != '0' then None
        else (match (HexValue(s[4]), HexValue(s[5]))
              case (Some(a), Some(b)) => Some(((16 * a + b) as char, s[6..]))
              case _ => None)
      case _ => None
  }

  /** Reads the rest of a string after its opening quote, up to and including the closing one. */
  function ReadChars(s: string): (r: Option<(string, string)>)
    ensures r.Some? ==> |r.value.1| < |s|
    decreases |s|
  {
    if s == [] then None
    else if s[0] == '"' then Some(("", s[1..]))
    else match ReadChar(s)
      case None => None
      case Some((c, rest)) =>
        match ReadChars(rest)
        case None => None
        case Some((cs, tail)) => Some(([c] + cs, tail))
  }

  lemma ReadEscaped(c: char, rest: string)
    ensures ReadChar(Escaped(c) + rest) == Some((c, rest))
  {
  }

  /** Two characters stand for quote, backslash and five controls, six for other controls, one for the rest. */
  lemma EscapedExactlyWhen(c: char)
    ensures |Escaped(c)| == 1 <==> c as nat >= 32 && c != '"' && c != '\\'
    ensures |Escaped(c)| == 2 <==> c as nat in {8, 9, 10, 12, 13, 34, 92}
    ensures |Escaped(c)| == 6 <==> c as nat < 32 && c as nat !in {8, 9, 10, 12, 13}
    ensures |Escaped(c)| in {1, 2, 6}
  {
  }

  lemma {:induction false} ReadQuoted(s: string, rest: string)
    ensures ReadChars(EscapedAll(s) + "\"" + rest) == Some((s, rest))
  {
    var text := EscapedAll(s) + "\"" + rest;
    if s == [] {
      assert text == "\"" + rest;
    } else {
      var tail := EscapedAll(s[1..]) + "\"" + rest;
      assert text == Escaped(s[0]) + tail;
      assert text[0] == Escaped(s[0])[0];
      ReadEscaped(s[0], tail);
      ReadQuoted(s[1..], rest);
      assert s == [s[0]] + s[1..];
    }
  }
}
