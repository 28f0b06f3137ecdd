/**
 Decimal numerals: what Python's integer formatting (`f"{n:02d}"`), `int` and `float` do with them.
 */
module Numerals {
  import opened PyText

  predicate IsDigit(c: char) {
    '0' <= c <= '9'
  }

  function DigitValue(c: char): nat
    requires IsDigit(c)
  {
    c as int - '0' as int
  }

  function DigitChar(d: nat): (c: char)
    requires d < 10
    ensures IsDigit(c) && DigitValue(c) == d
  {
    (d + '0' as int) as char
  }

  predicate AllDigits(s: string) {
    forall i | 0 <= i < |s| :: IsDigit(s[i])
  }

  function NatOf(s: string): nat
    requires AllDigits(s)
  {
    if s == "" then 0 else 10 * NatOf(s[..|s| - 1]) + DigitValue(s[|s| - 1])
  }

  function Digits(n: nat): (s: string)
    ensures s != "" && AllDigits(s) && NatOf(s) == n
  {
    if n < 10 then [DigitChar(n)]
    else
      var s := Digits(n / 10) + [DigitChar(n % 10)];
      assert s[..|s| - 1] == Digits(n / 10);
      s
  }

  function ZeroPad(s: string, width: nat): string
    decreases width - |s|
  {
    if |s| < width then ZeroPad("0" + s, width) else s
  }

  /** `f"{n:0{width}d}"`: the sign counts as one of the characters. */
  function FormatInt(n: int, width: nat): string {
    if n >= 0 then ZeroPad(Digits(n), width)
    else "-" + ZeroPad(Digits(-n), if width == 0 then 0 else width - 1)
  }

  lemma {:induction false} LeadingZero(s: string)
    requires AllDigits(s)
    ensures AllDigits("0" + s) && NatOf("0" + s) == NatOf(s)
  {
    var t := "0" + s;
    if s == "" {
      assert t[..0] == "" && t == "0";
    } else {
      LeadingZero(s[..|s| - 1]);
      assert t[..|t| - 1] == "0" + s[..|s| - 1];
    }
  }

  lemma {:induction false} PadKeepsValue(s: string, width: nat)
    requires AllDigits(s)
    ensures AllDigits(ZeroPad(s, width)) && NatOf(ZeroPad(s, width)) == NatOf(s)
    ensures |ZeroPad(s, width)| == if |s| < width then width else |s|
    decreases width - |s|
  {
    if |s| < width {
      LeadingZero(s);
      PadKeepsValue("0" + s, width);
    }
  }

  /** `int(x)` of a float: truncation toward zero. */
  function Trunc(x: real): int {
    if x >= 0.0 then x.Floor else -((-x).Floor)
  }

  // ---------------------------------------------------------------- reading

  /** The value and the number of digits of a numeral; single underscores may stand between digits. */
  function Numeral(s: string): Option<(nat, nat)> {
    if s == "" || !IsDigit(s[|s| - 1]) then None
    else
      var init, d := s[..|s| - 1], DigitValue(s[|s| - 1]);
      if init == "" then Some((d, 1))
      else
        var more := if init[|init| - 1] == '_' then init[..|init| - 1] else init;
        match Numeral(more)
        case None => None
        case Some((v, n)) => Some((10 * v + d, n + 1))
  }

  function Unsigned(s: string): string {
    if s != "" && (s[0] == '+' || s[0] == '-') then s[1..] else s
  }

  predicate Negative(s: string) {
    s != "" && s[0] == '-'
  }

  /** `int(s)`. */
  function PyInt(s: string): Result<int> {
    var t := Strip(s);
    match Numeral(Unsigned(t))
    case None => Raised
    case Some((v, _)) => Ok(if Negative(t) then -(v as int) else v)
  }

  function Pow10(n: nat): (r: real)
    ensures r > 0.0
  {
    if n == 0 then 1.0 else 10.0 * Pow10(n - 1)
  }

  /** The value of `n` digits after the point. */
  function Fraction(v: nat, n: nat): real {
    v as real / Pow10(n)
  }

  /** A numeral with at most one decimal point, and a digit on at least one side of it. */
  function Decimal(s: string): Option<real> {
    var dot := Find(s, ".");
    if dot == -1 then
      match Numeral(s)
      case None => None
      case Some((v, _)) => Some(v as real)
    else
      var whole := if s[..dot] == "" then Some((0, 0)) else Numeral(s[..dot]);
      var part := if s[dot + 1..] == "" then Some((0, 0)) else Numeral(s[dot + 1..]);
      if |s| == 1 || whole.None? || part.None? then None
      else Some(whole.value.0 as real + Fraction(part.value.0, part.value.1))
  }

  /** `float(s)`, for numerals without an exponent. */
  function PyFloat(s: string): Result<real> {
    var t := Strip(s);
    match Decimal(Unsigned(t))
    case None => Raised
    case Some(v) => Ok(if Negative(t) then -v else v)
  }

  // ---------------------------------------------------------------- reading what was written

  lemma {:induction false} NumeralOfDigits(s: string)
    requires s != "" && AllDigits(s)
    ensures Numeral(s) == Some((NatOf(s), |s|))
  {
    if |s| > 1 {
      NumeralOfDigits(s[..|s| - 1]);
    } else {
      assert s[..0] == "";
    }
  }

  lemma DigitsAreNoSpace(s: string)
    requires AllDigits(s)
    ensures NoSpace(s) && NoSpace("-" + s)
  {
  }

  /** `int` reads back what the formatting wrote, for every integer. */
  lemma IntRoundTrip(n: int, width: nat)
    ensures PyInt(FormatInt(n, width)) == Ok(n)
  {
    var w := if n >= 0 then width else if width == 0 then 0 else width - 1;
    var s := ZeroPad(Digits(if n >= 0 then n else -n), w);
    PadKeepsValue(Digits(if n >= 0 then n else -n), w);
    ReadDigits(s);
  }

  lemma SignedNumeral(s: string, sign: string, d: string)
    requires d != "" && AllDigits(d) && s == sign + d && (sign == "" || sign == "+" || sign == "-")
    ensures IsStripped(s) && s != "" && Unsigned(s) == d && (Negative(s) <==> sign == "-")
  {
    if sign == "" {
      assert s == d;
    } else {
      assert s[0] == sign[0] && s[1..] == d && s[|s| - 1] == d[|d| - 1];
    }
  }

  lemma ReadStripped(t: string, s: string, d: string)
    requires Strip(t) == s && Unsigned(s) == d && d != "" && AllDigits(d)
    ensures PyInt(t) == Ok(if Negative(s) then 0 - NatOf(d) else NatOf(d))
  {
    hide Strip, Unsigned, Negative, NatOf;
    NumeralOfDigits(d);
  }

  /** Whitespace around a numeral does not matter, and it may have a sign of either kind. */
  lemma IntReads(before: string, sign: string, d: string, after: string)
    requires AllSpace(before) && AllSpace(after) && d != "" && AllDigits(d)
    requires sign == "" || sign == "+" || sign == "-"
    ensures PyInt(before + sign + d + after) == Ok(if sign == "-" then 0 - NatOf(d) else NatOf(d))
  {
    hide PyInt, NatOf, Strip, Unsigned, Negative;
    var s := sign + d;
    SignedNumeral(s, sign, d);
    assert before + sign + d + after == before + s + after;
    StripPadded(before, s, after);
    ReadStripped(before + sign + d + after, s, d);
  }

  lemma {:induction false} NumeralAcross(d: string, e: string)
    requires d != "" && AllDigits(d) && e != "" && AllDigits(e)
    ensures AllDigits(d + e) && Numeral(d + "_" + e) == Some((NatOf(d + e), |d + e|))
    decreases |e|
  {
    var s, n := d + "_" + e, |e| - 1;
    var init := s[..|s| - 1];
    assert init == d + "_" + e[..n] && (d + e)[..|d + e| - 1] == d + e[..n];
    if n == 0 {
      assert init == d + "_" && init[..|init| - 1] == d && d + e[..n] == d;
      NumeralOfDigits(d);
    } else {
      assert init[|init| - 1] == e[n - 1];
      NumeralAcross(d, e[..n]);
    }
  }

  /** An underscore between two digits is skipped. */
  lemma UnderscoreIsSkipped(d: string, e: string)
    requires d != "" && AllDigits(d) && e != "" && AllDigits(e)
    ensures AllDigits(d + e) && PyInt(d + "_" + e) == Ok(NatOf(d + e))
  {
    var s := d + "_" + e;
    NumeralAcross(d, e);
    assert s[0] == d[0] && s[|s| - 1] == e[|e| - 1];
    StripFixed(s);
  }

  lemma ReadDigits(s: string)
    requires s != "" && AllDigits(s)
    ensures PyInt(s) == Ok(NatOf(s)) && PyInt("-" + s) == Ok(0 - NatOf(s))
  {
    NumeralOfDigits(s);
    DigitsAreNoSpace(s);
    StripFixed(s);
    StripFixed("-" + s);
    assert ("-" + s)[1..] == s;
  }

  predicate IsNumeralChar(c: char) {
    IsDigit(c) || c == '-'
  }

  predicate IsNumeralText(s: string) {
    s != "" && forall c | c in s :: IsNumeralChar(c)
  }

  /** Formatted integers hold nothing but digits and a sign. */
  lemma FormatIntChars(n: int, width: nat)
    ensures IsNumeralText(FormatInt(n, width))
  {
    PadKeepsValue(Digits(if n >= 0 then n else -n), if n >= 0 then width else if width == 0 then 0 else width - 1);
  }

  lemma Written(n: int, width: nat)
    ensures IsNumeralText(FormatInt(n, width)) && PyInt(FormatInt(n, width)) == Ok(n)
  {
    FormatIntChars(n, width);
    IntRoundTrip(n, width);
  }

  lemma FormatNatDigits(n: nat, width: nat)
    ensures AllDigits(FormatInt(n, width)) && NatOf(FormatInt(n, width)) == n && FormatInt(n, width) != ""
    ensures |Digits(n)| <= width ==> |FormatInt(n, width)| == width
  {
    PadKeepsValue(Digits(n), width);
  }

  lemma ThreeDigits(n: nat)
    requires n < 1000
    ensures |Digits(n)| <= 3
  {
    if n >= 100 {
      assert |Digits(n / 10 / 10)| == 1;
    }
  }

  /** Digits on both sides of the first point. */
  lemma DecimalAt(s: string, dot: nat, a: string, b: string)
    requires Find(s, ".") == dot && dot < |s| && s[..dot] == a && s[dot + 1..] == b
    requires AllDigits(a) && AllDigits(b) && a != "" && b != ""
    ensures Decimal(s) == Some(NatOf(a) as real + Fraction(NatOf(b), |b|))
  {
    NumeralOfDigits(a);
    NumeralOfDigits(b);
  }

  lemma AroundPoint(s: string, a: string, b: string)
    requires AllDigits(a) && s == a + ['.'] + b
    ensures Find(s, ".") == |a| && s[..|a|] == a && s[|a| + 1..] == b
  {
    FindChar(a, '.', b);
  }

  lemma DecimalOfDigits(s: string, a: string, b: string)
    requires AllDigits(a) && AllDigits(b) && a != "" && b != "" && s == a + ['.'] + b
    ensures Decimal(s) == Some(NatOf(a) as real + Fraction(NatOf(b), |b|))
  {
    AroundPoint(s, a, b);
    DecimalAt(s, |a|, a, b);
  }

  /** `float` reads digits, a point and more digits as a decimal fraction. */
  lemma FloatOfDecimal(a: string, b: string)
    requires AllDigits(a) && AllDigits(b) && a != "" && b != ""
    ensures PyFloat(a + ['.'] + b) == Ok(NatOf(a) as real + Fraction(NatOf(b), |b|))
  {
    var s := a + ['.'] + b;
    assert s[0] == a[0] && s[|s| - 1] == b[|b| - 1];
    StripFixed(s);
    DecimalOfDigits(s, a, b);
  }

  lemma DecimalToTheLeft(s: string, d: string)
    requires Find(s, ".") == |d| && |s| > |d| && s[..|d|] == d && s[|d| + 1..] == "" && AllDigits(d) && d != ""
    ensures Decimal(s) == Some(NatOf(d) as real)
  {
    hide NatOf, Find;
    NumeralOfDigits(d);
    assert Fraction(0, 0) == 0.0;
  }

  lemma DecimalToTheRight(s: string, d: string)
    requires Find(s, ".") == 0 && s != "" && s[..0] == "" && s[1..] == d && AllDigits(d) && d != ""
    ensures Decimal(s) == Some(Fraction(NatOf(d), |d|))
  {
    hide NatOf, Find, Pow10;
    NumeralOfDigits(d);
  }

  lemma FloatOf(s: string, v: real)
    requires s != "" && IsStripped(s) && s[0] != '-' && s[0] != '+' && Decimal(s) == Some(v)
    ensures PyFloat(s) == Ok(v)
  {
    hide Decimal;
    StripFixed(s);
  }

  /** `float` takes a point with digits on one side only. */
  lemma FloatAtTheEdge(d: string)
    requires AllDigits(d) && d != ""
    ensures PyFloat(d + ['.']) == Ok(NatOf(d) as real) && PyFloat(['.'] + d) == Ok(Fraction(NatOf(d), |d|))
  {
    hide NatOf, PyFloat, Decimal, Pow10;
    var left, right := d + ['.'], ['.'] + d;
    AroundPoint(left, d, "");
    AroundPoint(right, "", d);
    DecimalToTheLeft(left, d);
    DecimalToTheRight(right, d);
    assert left[0] == d[0] && right[|right| - 1] == d[|d| - 1];
    FloatOf(left, NatOf(d) as real);
    FloatOf(right, Fraction(NatOf(d), |d|));
  }

  lemma {:induction false} NumeralStart(s: string)
    requires Numeral(s).Some?
    ensures IsDigit(s[0])
    decreases |s|
  {
    var init := s[..|s| - 1];
    if init != "" {
      var more := if init[|init| - 1] == '_' then init[..|init| - 1] else init;
      NumeralStart(more);
    }
  }

  /** A sign behind the point is no part of a number. */
  lemma SignBehindPoint(a: string, d: string)
    requires AllDigits(a) && AllDigits(d) && a != "" && d != ""
    ensures PyFloat(a + ['.'] + ("-" + d)) == Raised
  {
    var b := "-" + d;
    var s := a + ['.'] + b;
    assert s[0] == a[0] && s[|s| - 1] == d[|d| - 1];
    StripFixed(s);
    AroundPoint(s, a, b);
    assert Numeral(b).None? by {
      if Numeral(b).Some? { NumeralStart(b); }
    }
    NoPartNoNumber(s, |a|);
  }

  lemma NoPartNoNumber(s: string, dot: nat)
    requires Find(s, ".") == dot && dot + 1 < |s| && Numeral(s[dot + 1..]).None?
    ensures Decimal(s) == None
  {
    assert s[dot + 1..] != "";
  }
}
