/**
 Durations for people: `format_time_display` of app/utils/formatting.py and the parser
 `_parse_duration` of app/db/task_backend_db.py that reads them back into the database.
 */
module Durations {
  import opened PyText
  import opened Numerals
  import opened Timestamps

  /** `format_time_display`. */
  function Display(t: real): string {
    if t < 0.0 then "calculating..."
    else if t < 1.0 then "<1s"
    else if t < 60.0 then FormatInt(Trunc(t), 0) + "s"
    else DisplayMinutes((t / 60.0).Floor, Seconds(t))
  }

  /** A minute or more: minutes and seconds, or hours and minutes. */
  function DisplayMinutes(m: int, s: int): string {
    if m < 60 then FormatInt(m, 0) + "m " + FormatInt(s, 0) + "s"
    else FormatInt(m / 60, 0) + "h " + FormatInt(m % 60, 0) + "m"
  }

  // ---------------------------------------------------------------- the pattern

  /** A number followed by a unit, and how many characters they take. */
  datatype Match = Match(value: real, unit: char, length: nat)

  function DigitRun(s: string): (n: nat)
    ensures n <= |s| && AllDigits(s[..n]) && (n < |s| ==> !IsDigit(s[n]))
  {
    if s == "" || !IsDigit(s[0]) then 0
    else
      var n := DigitRun(s[1..]);
      assert s[..n + 1] == [s[0]] + s[1..][..n];
      n + 1
  }

  function SpaceRun(s: string): (n: nat)
    ensures n <= |s|
  {
    if s == "" || !IsSpace(s[0]) then 0 else 1 + SpaceRun(s[1..])
  }

  predicate IsUnit(c: char) {
    c == 'h' || c == 'm' || c == 's'
  }

  /** The unit after a number that takes `n` characters, past any whitespace. */
  function UnitAfter(s: string, n: nat, value: real): Option<Match>
    requires n <= |s|
  {
    var i := n + SpaceRun(s[n..]);
    if i < |s| && IsUnit(s[i]) then Some(Match(value, s[i], i + 1)) else None
  }

  /** The match of `(\d+(?:\.\d+)?)\s*([hms])` at the start of `s`. Giving back digits never helps, for
      the next character would be a digit or a point and not a unit. */
  function MatchHere(s: string): (m: Option<Match>)
    ensures m.Some? ==> 0 < m.value.length <= |s|
  {
    var n := DigitRun(s);
    if n == 0 then None
    else
      var part := if n < |s| && s[n] == '.' then DigitRun(s[n + 1..]) else 0;
      if part > 0 then
        assert AllDigits(s[n + 1..][..part]);
        UnitAfter(s, n + 1 + part,
                  NatOf(s[..n]) as real + Fraction(NatOf(s[n + 1..][..part]), part))
      else UnitAfter(s, n, NatOf(s[..n]) as real)
  }

  /** `re.findall`: the matches from left to right, without overlap. */
  function FindAll(s: string): seq<Match>
    decreases |s|
  {
    if s == "" then []
    else
      match MatchHere(s)
      case Some(m) => [m] + FindAll(s[m.length..])
      case None => FindAll(s[1..])
  }

  /** `s.lower()`, for ASCII letters. */
  function Lower(s: string): (r: string)
    ensures |r| == |s|
  {
    seq(|s|, i requires 0 <= i < |s| =>
      if 'A' <= s[i] <= 'Z' then (s[i] as int + 32) as char else s[i])
  }

  function InSeconds(m: Match): real {
    if m.unit == 'h' then m.value * 3600.0
    else if m.unit == 'm' then m.value * 60.0
    else if m.unit == 's' then m.value
    else 0.0
  }

  function Total(ms: seq<Match>): real {
    if ms == [] then 0.0 else Total(ms[..|ms| - 1]) + InSeconds(ms[|ms| - 1])
  }

  /** What `_parse_duration` returns for a string. */
  function Parsed(raw: string): Option<real> {
    match PyFloat(raw)
    case Ok(v) => Some(v)
    case Raised =>
      var total := Total(FindAll(Lower(raw)));
      if total > 0.0 then Some(total) else None
  }

  method ParseDuration(raw: string) returns (r: Option<real>)
    ensures r == Parsed(raw)
  {
    var direct := PyFloat(raw);
    if direct.Ok? {
      return Some(direct.value);
    }
    var total := 0.0;
    var parts := FindAll(Lower(raw));
    for i := 0 to |parts|
      invariant total == Total(parts[..i])
    {
      assert parts[..i + 1][..i] == parts[..i];
      if parts[i].unit == 'h' {
        total := total + parts[i].value * 3600.0;
      } else if parts[i].unit == 'm' {
        total := total + parts[i].value * 60.0;
      } else if parts[i].unit == 's' {
        total := total + parts[i].value;
      }
    }
    assert parts[..|parts|] == parts;
    r := if total > 0.0 then Some(total) else None;
  }

  // ---------------------------------------------------------------- reading a display

  lemma {:induction false} RunOfDigits(d: string, rest: string)
    requires AllDigits(d) && rest != "" && !IsDigit(rest[0])
    ensures DigitRun(d + rest) == |d|
  {
    if d == "" {
      assert d + rest == rest;
    } else {
      assert (d + rest)[1..] == d[1..] + rest;
      RunOfDigits(d[1..], rest);
    }
  }

  lemma HereIs(s: string, d: string, unit: char)
    requires d != "" && IsUnit(unit) && |s| > |d| && s[..|d|] == d && s[|d|] == unit && DigitRun(s) == |d|
    ensures MatchHere(s) == Some(Match(NatOf(d) as real, unit, |d| + 1))
  {
    assert SpaceRun(s[|d|..]) == 0;
  }

  lemma FirstMatch(s: string, m: Match)
    requires s != "" && MatchHere(s) == Some(m)
    ensures 0 < m.length <= |s| && FindAll(s) == [m] + FindAll(s[m.length..])
  {
  }

  lemma MatchNumber(d: string, unit: char, rest: string)
    requires d != "" && AllDigits(d) && IsUnit(unit)
    ensures FindAll(d + [unit] + rest) == [Match(NatOf(d) as real, unit, |d| + 1)] + FindAll(rest)
  {
    var s, m := d + [unit] + rest, Match(NatOf(d) as real, unit, |d| + 1);
    assert MatchHere(s) == Some(m) by {
      assert s == d + ([unit] + rest);
      RunOfDigits(d, [unit] + rest);
      HereIs(s, d, unit);
    }
    FirstMatch(s, m);
    assert s[m.length..] == rest;
  }

  lemma SkipOther(c: char, rest: string)
    requires !IsDigit(c)
    ensures FindAll([c] + rest) == FindAll(rest)
  {
    assert ([c] + rest)[1..] == rest;
  }

  predicate IsPlain(c: char) {
    IsDigit(c) || IsUnit(c) || c == ' ' || c == '<'
  }

  lemma LowerPlain(s: string)
    requires forall c | c in s :: !('A' <= c <= 'Z')
    ensures Lower(s) == s
  {
    forall i | 0 <= i < |s| ensures Lower(s)[i] == s[i] {
      assert s[i] in s;
    }
  }

  lemma NoPoint(s: string)
    requires '.' !in s
    ensures Find(s, ".") == -1
  {
    forall k ensures !OccursAt(s, ".", k) {
      if OccursAt(s, ".", k) {
        OccursChar(s, '.', k);
      }
    }
  }

  /** A text that ends in a letter and has no point is no number. */
  lemma NoNumberAtEnd(s: string)
    requires s != "" && IsStripped(s) && !IsDigit(s[|s| - 1]) && '.' !in s && s[0] != '+' && s[0] != '-'
    ensures PyFloat(s) == Raised
  {
    StripFixed(s);
    NoPoint(s);
  }

  /** A text of digits, blanks and units that ends in a unit is no number, so the pattern decides. */
  lemma PlainText(s: string)
    requires s != "" && (forall c | c in s :: IsPlain(c)) && IsUnit(s[|s| - 1]) && s[0] != ' '
    ensures Parsed(s) == if Total(FindAll(s)) > 0.0 then Some(Total(FindAll(s))) else None
  {
    PlainEnds(s);
    NoNumberAtEnd(s);
    PatternDecides(s);
  }

  lemma PlainEnds(s: string)
    requires s != "" && (forall c | c in s :: IsPlain(c)) && IsUnit(s[|s| - 1]) && s[0] != ' '
    ensures IsStripped(s) && !IsDigit(s[|s| - 1]) && '.' !in s && s[0] != '+' && s[0] != '-' && Lower(s) == s
  {
    assert s[0] in s;
    LowerPlain(s);
  }

  lemma PatternDecides(s: string)
    requires PyFloat(s) == Raised && Lower(s) == s
    ensures Parsed(s) == if Total(FindAll(s)) > 0.0 then Some(Total(FindAll(s))) else None
  {
  }

  lemma TotalOfTwo(a: Match, b: Match)
    ensures Total([a]) == InSeconds(a) && Total([a, b]) == InSeconds(a) + InSeconds(b)
  {
    assert [a][..0] == [] && [a, b][..1] == [a];
  }

  lemma PlainNumber(n: nat)
    ensures FormatInt(n, 0) == Digits(n) && forall c | c in Digits(n) :: IsPlain(c)
  {
  }

  lemma ReadOne(n: nat)
    ensures Parsed(Digits(n) + "s") == if n > 0 then Some(n as real) else None
  {
    var d := Digits(n);
    PlainNumber(n);
    PlainText(d + "s");
    assert d + "s" == d + ['s'] + "";
    MatchNumber(d, 's', "");
    var m := Match(n as real, 's', |d| + 1);
    assert [m] + [] == [m];
    TotalOfTwo(m, m);
  }

  lemma LastMatch(e: string, v: char)
    requires e != "" && AllDigits(e) && IsUnit(v)
    ensures FindAll([' '] + (e + [v])) == [Match(NatOf(e) as real, v, |e| + 1)]
  {
    SkipOther(' ', e + [v]);
    MatchNumber(e, v, "");
    assert e + [v] + "" == e + [v];
  }

  function TwoFields(d: string, u: char, e: string, v: char): string {
    d + [u] + ([' '] + (e + [v]))
  }

  lemma TwoMatches(d: string, u: char, e: string, v: char)
    requires d != "" && AllDigits(d) && IsUnit(u) && e != "" && AllDigits(e) && IsUnit(v)
    ensures FindAll(TwoFields(d, u, e, v))
            == [Match(NatOf(d) as real, u, |d| + 1), Match(NatOf(e) as real, v, |e| + 1)]
  {
    LastMatch(e, v);
    MatchNumber(d, u, [' '] + (e + [v]));
  }

  lemma TwoFieldsPlain(d: string, u: char, e: string, v: char)
    requires d != "" && AllDigits(d) && IsUnit(u) && e != "" && AllDigits(e) && IsUnit(v)
    ensures var s := TwoFields(d, u, e, v);
            s != "" && (forall c | c in s :: IsPlain(c)) && IsUnit(s[|s| - 1]) && s[0] != ' '
  {
    assert TwoFields(d, u, e, v)[0] == d[0];
  }

  lemma TotalOfFields(d: string, u: char, e: string, v: char)
    requires d != "" && AllDigits(d) && IsUnit(u) && e != "" && AllDigits(e) && IsUnit(v)
    ensures Total(FindAll(TwoFields(d, u, e, v)))
            == InSeconds(Match(NatOf(d) as real, u, |d| + 1)) + InSeconds(Match(NatOf(e) as real, v, |e| + 1))
  {
    TwoMatches(d, u, e, v);
    TotalOfTwo(Match(NatOf(d) as real, u, |d| + 1), Match(NatOf(e) as real, v, |e| + 1));
  }

  lemma ReadTwo(d: string, u: char, e: string, v: char, total: real)
    requires d != "" && AllDigits(d) && IsUnit(u) && e != "" && AllDigits(e) && IsUnit(v)
    requires total == InSeconds(Match(NatOf(d) as real, u, |d| + 1)) + InSeconds(Match(NatOf(e) as real, v, |e| + 1))
    requires total > 0.0
    ensures Parsed(TwoFields(d, u, e, v)) == Some(total)
  {
    var s := TwoFields(d, u, e, v);
    assert Total(FindAll(s)) == total by { TotalOfFields(d, u, e, v); }
    TwoFieldsPlain(d, u, e, v);
    PlainText(s);
  }

  /** The time rounded down to the second below an hour, and to the minute from an hour on. */
  function Rounded(t: real): real {
    if t < 3600.0 then t.Floor as real else 60.0 * (t / 60.0).Floor as real
  }

  lemma MinuteFields(t: real)
    requires t >= 60.0
    ensures var m, s := (t / 60.0).Floor, Seconds(t);
            && m >= 1 && 0 <= s < 60 && (m < 60 <==> t < 3600.0)
            && 60.0 * m as real + s as real == t.Floor as real
  {
    ClockFields(t);
    var m := (t / 60.0).Floor;
    FloorShift(PastMinute(t), 60 * m);
  }

  lemma {:induction false} NoMatchInWords(s: string)
    requires forall c | c in s :: !IsDigit(c)
    ensures FindAll(s) == []
    decreases |s|
  {
    if s != "" {
      assert s[0] in s && s == [s[0]] + s[1..];
      SkipOther(s[0], s[1..]);
      NoMatchInWords(s[1..]);
    }
  }

  /** A text that begins with a letter is no number. */
  lemma NoNumberAtStart(s: string)
    requires s != "" && IsStripped(s) && !IsDigit(s[0]) && s[0] != '.' && s[0] != '+' && s[0] != '-'
    ensures PyFloat(s) == Raised
  {
    StripFixed(s);
    var dot := Find(s, ".");
    if dot != -1 {
      OccursChar(s, '.', dot);
      if Numeral(s[..dot]).Some? { NumeralStart(s[..dot]); }
    } else if Numeral(s).Some? {
      NumeralStart(s);
    }
  }

  /** A text of small letters and points that begins with a letter is no duration. */
  lemma WordsAreNoDuration(s: string)
    requires s != "" && 'a' <= s[0] <= 'z' && IsStripped(s)
    requires forall c | c in s :: 'a' <= c <= 'z' || c == '.'
    ensures Parsed(s) == None
  {
    LowerPlain(s);
    NoMatchInWords(s);
    NoNumberAtStart(s);
    PatternDecides(s);
  }

  lemma UnderASecond()
    ensures Parsed("<1s") == Some(1.0)
  {
    assert "<1s" == ['<'] + "1s" && Digits(1) + "s" == "1s";
    assert FindAll("<1s") == FindAll("1s") by { SkipOther('<', "1s"); }
    assert Parsed("1s") == Some(1.0) by { ReadOne(1); }
    PlainText("<1s");
    PlainText("1s");
  }

  /** Parsing a displayed duration, for every duration: from one second on it is the duration rounded
      down, to the second or from an hour on to the minute; anything shorter reads as a whole second,
      and the placeholder for a negative one as no duration. */
  lemma DisplayReadsBack(t: real)
    ensures Parsed(Display(t)) ==
            if t < 0.0 then None
            else if t < 1.0 then Some(1.0)
            else Some(Rounded(t))
  {
    if t < 0.0 {
      WordsAreNoDuration("calculating...");
    } else if t < 1.0 {
      UnderASecond();
    } else if t < 60.0 {
      PlainNumber(Trunc(t));
      ReadOne(Trunc(t));
    } else {
      ReadLong(t);
    }
  }

  lemma ReadMinutes(m: nat, s: nat)
    requires m >= 1
    ensures Parsed(FormatInt(m, 0) + "m " + FormatInt(s, 0) + "s") == Some(60.0 * m as real + s as real)
  {
    hide Parsed;
    PlainNumber(m);
    PlainNumber(s);
    assert FormatInt(m, 0) + "m " + FormatInt(s, 0) + "s" == TwoFields(Digits(m), 'm', Digits(s), 's');
    ReadTwo(Digits(m), 'm', Digits(s), 's', 60.0 * m as real + s as real);
  }

  lemma ReadHours(h: nat, m: nat, total: real)
    requires h >= 1 && total == 3600.0 * h as real + 60.0 * m as real
    ensures Parsed(FormatInt(h, 0) + "h " + FormatInt(m, 0) + "m") == Some(total)
  {
    PlainNumber(h);
    PlainNumber(m);
    assert FormatInt(h, 0) + "h " + FormatInt(m, 0) + "m" == TwoFields(Digits(h), 'h', Digits(m), 'm');
    ReadTwo(Digits(h), 'h', Digits(m), 'm', total);
  }

  lemma HoursAndMinutes(m: nat)
    ensures 3600.0 * (m / 60) as real + 60.0 * (m % 60) as real == 60.0 * m as real
  {
    var h, k := m / 60, m % 60;
    assert m == 60 * h + k;
    assert (60 * h + k) as real == 60.0 * h as real + k as real;
  }

  lemma ReadDisplayedMinutes(m: nat, s: nat, total: real)
    requires m >= 1 && total == (if m < 60 then 60.0 * m as real + s as real else 60.0 * m as real)
    ensures Parsed(DisplayMinutes(m, s)) == Some(total)
  {
    if m < 60 {
      ReadMinutes(m, s);
    } else {
      var h, k := m / 60, m % 60;
      assert total == 3600.0 * h as real + 60.0 * k as real by { HoursAndMinutes(m); }
      ReadHours(h, k, total);
    }
  }

  lemma ReadLong(t: real)
    requires t >= 60.0
    ensures Parsed(Display(t)) == Some(Rounded(t))
  {
    var m, s := (t / 60.0).Floor, Seconds(t);
    assert m >= 1 && s >= 0 && Rounded(t) == (if m < 60 then 60.0 * m as real + s as real else 60.0 * m as real) by {
      MinuteFields(t);
    }
    ReadDisplayedMinutes(m, s, Rounded(t));
  }

  /** What is displayed: whole seconds below a minute, minutes and seconds below an hour, else hours and
      minutes, all rounded down. */
  lemma DisplayShows(t: real)
    ensures Display(t) ==
              if t < 0.0 then "calculating..."
              else if t < 1.0 then "<1s"
              else if t < 60.0 then Digits(t.Floor) + "s"
              else if t < 3600.0 then Digits(t.Floor / 60) + "m " + Digits(t.Floor % 60) + "s"
              else Digits(t.Floor / 3600) + "h " + Digits(t.Floor % 3600 / 60) + "m"
  {
    if t >= 60.0 {
      ClockParts(t);
      WholeMinutes(t);
    }
  }

  lemma WholeMinutes(t: real)
    requires t >= 60.0
    ensures var m := (t / 60.0).Floor;
            && m == t.Floor / 60 && (m < 60 <==> t < 3600.0)
            && m / 60 == t.Floor / 3600 && m % 60 == t.Floor % 3600 / 60
  {
    ClockParts(t);
    MinuteFields(t);
    var m, s := (t / 60.0).Floor, Seconds(t);
    assert t.Floor == 60 * m + s;
  }

  // ---------------------------------------------------------------- durations that nobody displays

  /** Whole numbers with their units, one blank between two of them. */
  function FieldsText(fields: seq<(nat, char)>): string {
    if fields == [] then ""
    else Digits(fields[0].0) + [fields[0].1] + if |fields| == 1 then "" else " " + FieldsText(fields[1..])
  }

  function SecondsOf(fields: seq<(nat, char)>): nat {
    if fields == [] then 0
    else
      var (n, unit) := fields[0];
      n * (if unit == 'h' then 3600 else if unit == 'm' then 60 else 1) + SecondsOf(fields[1..])
  }

  predicate HaveUnits(fields: seq<(nat, char)>) {
    forall f | f in fields :: f.1 == 'h' || f.1 == 'm' || f.1 == 's'
  }

  lemma {:induction false} TotalCons(m: Match, ms: seq<Match>)
    ensures Total([m] + ms) == InSeconds(m) + Total(ms)
  {
    if ms == [] {
      assert [m] + ms == [m] && [m][..0] == [];
    } else {
      TotalCons(m, ms[..|ms| - 1]);
      assert ([m] + ms)[..|ms|] == [m] + ms[..|ms| - 1];
    }
  }

  lemma {:induction false} TotalOfText(fields: seq<(nat, char)>)
    requires HaveUnits(fields)
    ensures Total(FindAll(FieldsText(fields))) == SecondsOf(fields) as real
  {
    if fields != [] {
      var n, unit, rest := fields[0].0, fields[0].1, fields[1..];
      assert fields[0] in fields;
      TotalOfText(rest);
      var tail := if |fields| == 1 then "" else " " + FieldsText(rest);
      if |fields| > 1 {
        SkipOther(' ', FieldsText(rest));
      }
      assert FindAll(tail) == FindAll(FieldsText(rest));
      MatchNumber(Digits(n), unit, tail);
      TotalCons(Match(n as real, unit, |Digits(n)| + 1), FindAll(tail));
    }
  }

  lemma {:induction false} FieldsArePlain(fields: seq<(nat, char)>)
    requires HaveUnits(fields) && fields != []
    ensures var s := FieldsText(fields);
            s != "" && (forall c | c in s :: IsPlain(c)) && IsUnit(s[|s| - 1]) && s[0] != ' '
  {
    assert fields[0] in fields;
    PlainNumber(fields[0].0);
    if |fields| > 1 {
      FieldsArePlain(fields[1..]);
    }
  }

  /** Any number of whole numbers with units, in any order, is read as the sum of what they stand for. */
  lemma FieldsAreAdded(fields: seq<(nat, char)>)
    requires HaveUnits(fields) && fields != []
    ensures Parsed(FieldsText(fields)) ==
              if SecondsOf(fields) > 0 then Some(SecondsOf(fields) as real) else None
  {
    FieldsArePlain(fields);
    TotalOfText(fields);
    PlainText(FieldsText(fields));
  }

  lemma {:induction false} RunOfSpaces(pad: string, unit: char)
    requires AllSpace(pad) && IsUnit(unit)
    ensures SpaceRun(pad + [unit]) == |pad|
  {
    if pad != "" {
      assert (pad + [unit])[1..] == pad[1..] + [unit];
      RunOfSpaces(pad[1..], unit);
    }
  }

  /** The letter stands for the unit, small or capital. */
  predicate StandsFor(letter: char, unit: char) {
    || (letter == 'h' == unit) || (letter == 'm' == unit) || (letter == 's' == unit)
    || (letter == 'H' && unit == 'h') || (letter == 'M' && unit == 'm') || (letter == 'S' && unit == 's')
  }

  /** A number with a fraction, any whitespace and a unit, in small or capital letters. */
  lemma FractionIsRead(d: string, f: string, pad: string, letter: char, unit: char)
    requires d != "" && AllDigits(d) && f != "" && AllDigits(f) && AllSpace(pad) && StandsFor(letter, unit)
    ensures var value := NatOf(d) as real + NatOf(f) as real / Pow10(|f|);
            var total := value * (if unit == 'h' then 3600.0 else if unit == 'm' then 60.0 else 1.0);
            Parsed(d + ['.'] + f + pad + [letter]) == if total > 0.0 then Some(total) else None
  {
    hide FindAll, MatchHere, PyFloat, NatOf, Pow10, Parsed, Lower, Total, AllDigits, AllSpace, LaidOut;
    var s := d + ['.'] + f + pad + [unit];
    var m := Match(NatOf(d) as real + Fraction(NatOf(f), |f|), unit, |s|);
    FractionLayout(s, d, f, pad, unit);
    FractionIsFound(s, d, f, pad, unit);
    TotalOfTwo(m, m);
    FractionIsText(d, f, pad, letter, unit);
  }

  lemma FractionIsText(d: string, f: string, pad: string, letter: char, unit: char)
    requires d != "" && AllDigits(d) && AllDigits(f) && AllSpace(pad) && StandsFor(letter, unit)
    ensures var total := Total(FindAll(d + ['.'] + f + pad + [unit]));
            Parsed(d + ['.'] + f + pad + [letter]) == if total > 0.0 then Some(total) else None
  {
    hide FindAll, PyFloat, Lower, Total;
    var s := d + ['.'] + f + pad + [letter];
    assert s == d + ['.'] + (f + pad + [letter]);
    FractionIsNoNumber(s, d, f + pad + [letter]);
    FractionIsLower(d, f, pad, letter, unit);
  }

  /** Where the parts of the text stand. */
  predicate LaidOut(s: string, d: string, f: string, pad: string, unit: char) {
    && |s| == |d| + |f| + |pad| + 2 && s == d + (['.'] + (f + (pad + [unit])))
    && s[..|d|] == d && s[|d|] == '.' && s[|d| + 1..] == f + (pad + [unit])
    && s[|d| + 1..][..|f|] == f && s[|d| + 1 + |f|..] == pad + [unit] && s[|s| - 1] == unit
  }

  lemma FractionIsFound(s: string, d: string, f: string, pad: string, unit: char)
    requires d != "" && AllDigits(d) && f != "" && AllDigits(f) && AllSpace(pad) && IsUnit(unit)
    requires LaidOut(s, d, f, pad, unit)
    ensures FindAll(s) == [Match(NatOf(d) as real + Fraction(NatOf(f), |f|), unit, |s|)]
  {
    hide FindAll, MatchHere, NatOf, Pow10;
    FractionMatches(s, d, f, pad, unit);
    OnlyMatch(s, Match(NatOf(d) as real + Fraction(NatOf(f), |f|), unit, |s|));
  }

  lemma OnlyMatch(s: string, m: Match)
    requires s != "" && MatchHere(s) == Some(m) && m.length == |s|
    ensures FindAll(s) == [m]
  {
    FirstMatch(s, m);
    assert s[|s|..] == "";
  }

  lemma FractionIsLower(d: string, f: string, pad: string, letter: char, unit: char)
    requires AllDigits(d) && AllDigits(f) && AllSpace(pad) && StandsFor(letter, unit)
    ensures Lower(d + ['.'] + f + pad + [letter]) == d + ['.'] + f + pad + [unit]
  {
    var front := d + ['.'] + f + pad;
    forall i | 0 <= i < |front| ensures !('A' <= front[i] <= 'Z') {
      assert front[i] in d || front[i] == '.' || front[i] in f || front[i] in pad;
    }
    var low := Lower(front + [letter]);
    assert forall i | 0 <= i < |front| :: low[i] == front[i];
  }

  lemma FractionHere(s: string, n: nat, part: nat, unit: char, pad: nat)
    requires n + 1 + part + pad < |s| && n > 0 && part > 0
    requires DigitRun(s) == n && s[n] == '.' && DigitRun(s[n + 1..]) == part
    requires SpaceRun(s[n + 1 + part..]) == pad && s[n + 1 + part + pad] == unit && IsUnit(unit)
    ensures AllDigits(s[..n]) && AllDigits(s[n + 1..][..part])
    ensures MatchHere(s) == Some(Match(NatOf(s[..n]) as real + Fraction(NatOf(s[n + 1..][..part]), part), unit,
                                       n + 1 + part + pad + 1))
  {
    hide DigitRun, SpaceRun, NatOf, Pow10;
  }

  lemma FractionMatches(s: string, d: string, f: string, pad: string, unit: char)
    requires d != "" && AllDigits(d) && f != "" && AllDigits(f) && AllSpace(pad) && IsUnit(unit)
    requires LaidOut(s, d, f, pad, unit)
    ensures MatchHere(s) == Some(Match(NatOf(d) as real + Fraction(NatOf(f), |f|), unit, |s|))
  {
    hide DigitRun, SpaceRun, NatOf, Pow10, MatchHere;
    FractionRuns(s, d, f, pad, unit);
    FractionHere(s, |d|, |f|, unit, |pad|);
  }

  lemma FractionLayout(s: string, d: string, f: string, pad: string, unit: char)
    requires s == d + ['.'] + f + pad + [unit]
    ensures LaidOut(s, d, f, pad, unit)
  {
  }

  lemma FractionRuns(s: string, d: string, f: string, pad: string, unit: char)
    requires AllDigits(d) && AllDigits(f) && AllSpace(pad) && IsUnit(unit)
    requires s == d + (['.'] + (f + (pad + [unit]))) && s[|d| + 1..] == f + (pad + [unit])
    requires s[|d| + 1 + |f|..] == pad + [unit]
    ensures DigitRun(s) == |d| && DigitRun(s[|d| + 1..]) == |f| && SpaceRun(s[|d| + 1 + |f|..]) == |pad|
  {
    hide DigitRun, SpaceRun;
    RunOfDigits(d, ['.'] + (f + (pad + [unit])));
    assert !IsDigit((pad + [unit])[0]);
    RunOfDigits(f, pad + [unit]);
    RunOfSpaces(pad, unit);
  }

  lemma FractionIsNoNumber(s: string, d: string, rest: string)
    requires d != "" && AllDigits(d) && s == d + ['.'] + rest
    requires rest != "" && !IsDigit(rest[|rest| - 1]) && !IsSpace(rest[|rest| - 1])
    ensures PyFloat(s) == Raised
  {
    StripFixed(s);
    AroundPoint(s, d, rest);
    NoPartNoNumber(s, |d|);
  }
}
