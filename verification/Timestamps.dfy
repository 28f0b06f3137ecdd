/**
 The timestamps of app/utils/formatting.py, app/utils/srt.py and app/routes/subtitles.py.

 Seconds are exact reals. `SrtTimestamp` and `VttTimestamp` are the two printers, `ParseStamp` the
 parser that both formats share up to the mark before the milliseconds, and `ParseStampLoosely` the
 parser of the editing routes.
 */
module Timestamps {
  import opened PyText
  import opened Numerals

  function Hours(t: real): int { (t / 3600.0).Floor }

  /** The seconds past the hour, the minute and the second: `t % 3600`, `t % 60` and `t % 1`. */
  function PastHour(t: real): real { t - 3600.0 * (t / 3600.0).Floor as real }
  function PastMinute(t: real): real { t - 60.0 * (t / 60.0).Floor as real }
  function PastSecond(t: real): real { t - t.Floor as real }

  function Minutes(t: real): int { (PastHour(t) / 60.0).Floor }
  function Seconds(t: real): int { Trunc(PastMinute(t)) }
  function SrtMillis(t: real): int { Trunc((t - Trunc(t) as real) * 1000.0) }
  function VttMillis(t: real): int { Trunc(PastSecond(t) * 1000.0) }

  function StampText(h: string, m: string, s: string, mark: char, ms: string): string {
    h + [':'] + m + [':'] + s + [mark] + ms
  }

  function TimeText(t: real, mark: char, ms: int): string {
    StampText(FormatInt(Hours(t), 2), FormatInt(Minutes(t), 2), FormatInt(Seconds(t), 2), mark, FormatInt(ms, 3))
  }

  /** `format_timestamp`. */
  function SrtTimestamp(t: real): string {
    TimeText(t, ',', SrtMillis(t))
  }

  /** `_format_vtt_timestamp`. */
  function VttTimestamp(t: real): string {
    TimeText(t, '.', VttMillis(t))
  }

  function Stamp(h: int, m: int, s: int, ms: int): real {
    (h * 3600 + m * 60 + s) as real + ms as real / 1000.0
  }

  /** `_parse_srt_timestamp` with mark ',' and `_parse_vtt_timestamp` with mark '.'. A wrong number of
      pieces or a piece that is no integer raises. */
  function ParseStamp(ts: string, mark: char): Result<real> {
    var halves := SplitOn(Strip(ts), [mark]);
    if |halves| != 2 then Raised
    else
      var parts := SplitOn(halves[0], ":");
      if |parts| < 3 then Raised
      else FromFields(PyInt(parts[0]), PyInt(parts[1]), PyInt(parts[2]), PyInt(halves[1]))
  }

  function FromFields(h: Result<int>, m: Result<int>, s: Result<int>, ms: Result<int>): Result<real> {
    if h.Ok? && m.Ok? && s.Ok? && ms.Ok? then Ok(Stamp(h.value, m.value, s.value, ms.value)) else Raised
  }

  function ReplaceChar(s: string, from: char, to: char): (r: string)
    ensures |r| == |s|
  {
    seq(|s|, i requires 0 <= i < |s| => if s[i] == from then to else s[i])
  }

  /** `_parse_timestamp` of the editing routes. */
  function ParseStampLoosely(ts: string): Result<real> {
    var parts := SplitOn(ReplaceChar(ts, ',', '.'), ":");
    if |parts| != 3 then Ok(0.0)
    else
      LooseFields(PyInt(parts[0]), PyInt(parts[1]), PyFloat(parts[2]))
  }

  /** The time rounded down to the millisecond. */
  function FloorMs(t: real): real {
    (t * 1000.0).Floor as real / 1000.0
  }

  // ---------------------------------------------------------------- arithmetic

  /** Hours, minutes and seconds are those of the time rounded down to the second, in range. */
  lemma ClockFields(t: real)
    ensures Hours(t) * 3600 + Minutes(t) * 60 + Seconds(t) == t.Floor
    ensures 0 <= Minutes(t) < 60 && 0 <= Seconds(t) < 60
  {
    var q, p := (t / 3600.0).Floor, (t / 60.0).Floor;
    var m := Minutes(t);
    assert 60.0 * (60 * q + m) as real <= t < 60.0 * (60 * q + m + 1) as real;
    assert p == 60 * q + m;
  }

  lemma ClockParts(t: real)
    ensures Hours(t) == t.Floor / 3600 && Minutes(t) == t.Floor % 3600 / 60 && Seconds(t) == t.Floor % 60
  {
    ClockFields(t);
    var h, m, s := Hours(t), Minutes(t), Seconds(t);
    assert t.Floor == 3600 * h + (60 * m + s) && 0 <= 60 * m + s < 3600;
    assert t.Floor == 60 * (60 * h + m) + s;
  }

  lemma FloorShift(x: real, n: int)
    ensures (x + n as real).Floor == x.Floor + n
  {
  }

  lemma MillisOf(t: real)
    ensures FloorMs(t) == t.Floor as real + (PastSecond(t) * 1000.0).Floor as real / 1000.0
    ensures 0 <= (PastSecond(t) * 1000.0).Floor < 1000
  {
    var x, n := PastSecond(t) * 1000.0, 1000 * t.Floor;
    assert t * 1000.0 == x + n as real;
    FloorShift(x, n);
    assert FloorMs(t) == (x.Floor + n) as real / 1000.0;
  }

  lemma VttMillisExact(t: real)
    ensures t.Floor as real + VttMillis(t) as real / 1000.0 == FloorMs(t)
    ensures 0 <= VttMillis(t) < 1000
  {
    MillisOf(t);
  }

  predicate Whole(t: real) {
    t == t.Floor as real
  }

  /** The SRT milliseconds are measured from the time truncated toward zero, so they agree with the
      other fields exactly for times that are not negative or are whole. */
  lemma SrtMillisExact(t: real)
    ensures t.Floor as real + SrtMillis(t) as real / 1000.0 == FloorMs(t) <==> t >= 0.0 || Whole(t)
    ensures t >= 0.0 ==> SrtMillis(t) == VttMillis(t)
  {
    var f := t.Floor;
    assert (t - f as real) * 1000.0 == t * 1000.0 - (1000 * f) as real;
    if t >= 0.0 {
      VttMillisExact(t);
    } else if Whole(t) {
      assert Trunc(t) == f;
    } else {
      assert Trunc(t) == f + 1;
      var under := (f + 1) as real - t;
      assert SrtMillis(t) == -((under * 1000.0).Floor);
      assert (t * 1000.0).Floor >= 1000 * f;
    }
  }

  // ---------------------------------------------------------------- reading back

  predicate IsStampChar(c: char) {
    IsNumeralChar(c) || c == ':' || c == ',' || c == '.'
  }

  predicate IsStampText(ts: string) {
    ts != "" && (forall c | c in ts :: IsStampChar(c)) && IsStripped(ts)
  }

  lemma SplitClock(h: string, m: string, s: string)
    requires ':' !in h && ':' !in m && ':' !in s
    ensures SplitOn(h + [':'] + m + [':'] + s, ":") == [h, m, s]
  {
    assert h + [':'] + m + [':'] + s == h + [':'] + (m + [':'] + s);
    SplitAtChar(h, ':', m + [':'] + s);
    SplitAtChar(m, ':', s);
    SplitNoChar(s, ':');
  }

  lemma StampTextChars(h: string, m: string, s: string, mark: char, ms: string)
    requires IsNumeralText(h) && IsNumeralText(m) && IsNumeralText(s) && IsNumeralText(ms)
    requires mark == ',' || mark == '.'
    ensures IsStampText(StampText(h, m, s, mark, ms))
  {
    var ts := StampText(h, m, s, mark, ms);
    assert h[0] in h && ms[|ms| - 1] in ms;
    assert ts[0] == h[0] && ts[|ts| - 1] == ms[|ms| - 1];
  }

  lemma ReadText(h: string, m: string, s: string, mark: char, ms: string)
    requires IsNumeralText(h) && IsNumeralText(m) && IsNumeralText(s) && IsNumeralText(ms)
    requires mark == ',' || mark == '.'
    ensures ParseStamp(StampText(h, m, s, mark, ms), mark) == FromFields(PyInt(h), PyInt(m), PyInt(s), PyInt(ms))
  {
    var ts, main := StampText(h, m, s, mark, ms), h + [':'] + m + [':'] + s;
    assert Strip(ts) == ts by {
      StampTextChars(h, m, s, mark, ms);
      StripFixed(ts);
    }
    assert SplitOn(ts, [mark]) == [main, ms] by {
      SplitAtChar(main, mark, ms);
      SplitNoChar(ms, mark);
    }
    assert SplitOn(main, ":") == [h, m, s] by { SplitClock(h, m, s); }
    StampOfParts(ts, main, h, m, s, mark, ms);
  }

  lemma StampOfParts(ts: string, main: string, h: string, m: string, s: string, mark: char, ms: string)
    requires Strip(ts) == ts && SplitOn(ts, [mark]) == [main, ms] && SplitOn(main, ":") == [h, m, s]
    ensures ParseStamp(ts, mark) == FromFields(PyInt(h), PyInt(m), PyInt(s), PyInt(ms))
  {
  }

  lemma ReadInts(h: int, m: int, s: int, mark: char, ms: int)
    requires mark == ',' || mark == '.'
    ensures var ts := StampText(FormatInt(h, 2), FormatInt(m, 2), FormatInt(s, 2), mark, FormatInt(ms, 3));
            IsStampText(ts) && ParseStamp(ts, mark) == Ok(Stamp(h, m, s, ms))
  {
    Written(h, 2);
    Written(m, 2);
    Written(s, 2);
    Written(ms, 3);
    StampTextChars(FormatInt(h, 2), FormatInt(m, 2), FormatInt(s, 2), mark, FormatInt(ms, 3));
    ReadText(FormatInt(h, 2), FormatInt(m, 2), FormatInt(s, 2), mark, FormatInt(ms, 3));
  }

  /** What the printers write is a timestamp text, and is read without an exception. */
  lemma ReadTime(t: real, mark: char, ms: int, value: real)
    requires mark == ',' || mark == '.'
    requires value == t.Floor as real + ms as real / 1000.0
    ensures IsStampText(TimeText(t, mark, ms)) && ParseStamp(TimeText(t, mark, ms), mark) == Ok(value)
  {
    assert Stamp(Hours(t), Minutes(t), Seconds(t), ms) == value by { ClockFields(t); }
    ReadInts(Hours(t), Minutes(t), Seconds(t), mark, ms);
  }

  /** WebVTT timestamps are read back rounded down to the millisecond, for every time. */
  lemma VttRoundTrip(t: real)
    ensures IsStampText(VttTimestamp(t)) && ParseStamp(VttTimestamp(t), '.') == Ok(FloorMs(t))
  {
    assert FloorMs(t) == t.Floor as real + VttMillis(t) as real / 1000.0 by { VttMillisExact(t); }
    ReadTime(t, '.', VttMillis(t), FloorMs(t));
  }

  /** The time that SRT shows. */
  function SrtShown(t: real): real {
    t.Floor as real + SrtMillis(t) as real / 1000.0
  }

  /** SRT timestamps are always read without an exception. */
  lemma SrtRoundTrip(t: real)
    ensures IsStampText(SrtTimestamp(t)) && ParseStamp(SrtTimestamp(t), ',') == Ok(SrtShown(t))
  {
    ReadTime(t, ',', SrtMillis(t), SrtShown(t));
  }

  /** They are read back rounded down to the millisecond exactly when the time is not negative or is a
      whole number of seconds. */
  lemma SrtShowsFloorIff(t: real)
    ensures SrtShown(t) == FloorMs(t) <==> t >= 0.0 || Whole(t)
  {
    SrtMillisExact(t);
  }

  lemma ReplaceInStamp(a: string, b: string)
    requires ',' !in a && ',' !in b
    ensures ReplaceChar(a + [','] + b, ',', '.') == a + ['.'] + b
  {
    var r := ReplaceChar(a + [','] + b, ',', '.');
    assert forall i | 0 <= i < |a| :: r[i] == (a + [','] + b)[i] == a[i];
    assert forall i | |a| < i < |r| :: r[i] == (a + [','] + b)[i] == b[i - |a| - 1];
  }

  lemma LooseParts(h: string, m: string, s: string, ms: string)
    requires IsNumeralText(h) && IsNumeralText(m) && IsNumeralText(s) && IsNumeralText(ms)
    ensures SplitOn(ReplaceChar(StampText(h, m, s, ',', ms), ',', '.'), ":") == [h, m, s + ['.'] + ms]
  {
    var main, secs := h + [':'] + m + [':'] + s, s + ['.'] + ms;
    ReplaceInStamp(main, ms);
    assert main + ['.'] + ms == h + [':'] + m + [':'] + secs;
    SplitClock(h, m, secs);
  }

  function LooseFields(h: Result<int>, m: Result<int>, s: Result<real>): Result<real> {
    if h.Ok? && m.Ok? && s.Ok? then Ok((h.value * 3600 + m.value * 60) as real + s.value) else Raised
  }

  lemma ReadLoosely(h: string, m: string, s: string, ms: string)
    requires IsNumeralText(h) && IsNumeralText(m) && IsNumeralText(s) && IsNumeralText(ms)
    ensures ParseStampLoosely(StampText(h, m, s, ',', ms)) == LooseFields(PyInt(h), PyInt(m), PyFloat(s + ['.'] + ms))
  {
    LooseParts(h, m, s, ms);
  }

  lemma MillisFraction(ms: nat)
    ensures Fraction(ms, 3) == ms as real / 1000.0
  {
    assert Pow10(3) == 10.0 * (10.0 * (10.0 * Pow10(0)));
  }

  lemma ThreeDigitText(ms: nat)
    requires ms < 1000
    ensures var s := FormatInt(ms, 3); s != "" && AllDigits(s) && NatOf(s) == ms && |s| == 3
  {
    FormatNatDigits(ms, 3);
    ThreeDigits(ms);
  }

  lemma ReadSeconds(s: nat, ms: nat)
    requires ms < 1000
    ensures PyFloat(FormatInt(s, 2) + ['.'] + FormatInt(ms, 3)) == Ok(s as real + ms as real / 1000.0)
  {
    hide FormatInt, PyFloat, NatOf;
    var whole, part := FormatInt(s, 2), FormatInt(ms, 3);
    assert whole != "" && AllDigits(whole) && NatOf(whole) == s by { FormatNatDigits(s, 2); }
    assert part != "" && AllDigits(part) && NatOf(part) == ms && |part| == 3 by { ThreeDigitText(ms); }
    assert Fraction(ms, 3) == ms as real / 1000.0 by { MillisFraction(ms); }
    FloatOfDecimal(whole, part);
  }

  lemma FieldsAre(r: Result<real>, a: Result<int>, b: Result<int>, c: Result<real>, h: int, m: int, s: nat, ms: nat)
    requires r == LooseFields(a, b, c)
    requires a == Ok(h) && b == Ok(m) && c == Ok(s as real + ms as real / 1000.0)
    ensures r == Ok(Stamp(h, m, s, ms))
  {
  }

  lemma LooseText(h: int, m: int, s: nat, ms: nat)
    requires ms < 1000
    ensures IsNumeralText(FormatInt(h, 2)) && IsNumeralText(FormatInt(m, 2)) && IsNumeralText(FormatInt(s, 2))
            && IsNumeralText(FormatInt(ms, 3))
  {
    Written(h, 2);
    Written(m, 2);
    FormatIntChars(s, 2);
    FormatIntChars(ms, 3);
  }

  lemma LooseStamp(h: int, m: int, s: nat, ms: nat, hh: string, mm: string, ss: string, f: string)
    requires ms < 1000
    requires hh == FormatInt(h, 2) && mm == FormatInt(m, 2) && ss == FormatInt(s, 2) && f == FormatInt(ms, 3)
    ensures ParseStampLoosely(StampText(hh, mm, ss, ',', f)) == Ok(Stamp(h, m, s, ms))
  {
    var r, a, b, c := ParseStampLoosely(StampText(hh, mm, ss, ',', f)), PyInt(hh), PyInt(mm), PyFloat(ss + ['.'] + f);
    assert a == Ok(h) by { Written(h, 2); }
    assert b == Ok(m) by { Written(m, 2); }
    assert c == Ok(s as real + ms as real / 1000.0) by { ReadSeconds(s, ms); }
    assert r == LooseFields(a, b, c) by {
      LooseText(h, m, s, ms);
      ReadLoosely(hh, mm, ss, f);
    }
    FieldsAre(r, a, b, c, h, m, s, ms);
  }

  /** Milliseconds below zero are printed with a sign, which the lenient parser finds behind a point. */
  lemma LooseSign(h: int, m: int, s: nat, ms: int)
    requires -1000 < ms < 0
    ensures ParseStampLoosely(StampText(FormatInt(h, 2), FormatInt(m, 2), FormatInt(s, 2), ',', FormatInt(ms, 3)))
            == Raised
  {
    hide PyInt, PyFloat, ParseStampLoosely;
    var hh, mm, ss, f := FormatInt(h, 2), FormatInt(m, 2), FormatInt(s, 2), FormatInt(ms, 3);
    Written(h, 2);
    Written(m, 2);
    FormatIntChars(s, 2);
    FormatIntChars(ms, 3);
    FormatNatDigits(s, 2);
    SignedDigits(-ms);
    SignBehindPoint(ss, ZeroPad(Digits(-ms), 2));
    ReadLoosely(hh, mm, ss, f);
  }

  lemma SignedDigits(n: nat)
    requires n > 0
    ensures FormatInt(0 - n, 3) == "-" + ZeroPad(Digits(n), 2)
    ensures AllDigits(ZeroPad(Digits(n), 2)) && ZeroPad(Digits(n), 2) != ""
  {
    PadKeepsValue(Digits(n), 2);
  }

  lemma SrtMillisRange(t: real)
    ensures -1000 < SrtMillis(t) < 1000
    ensures t >= 0.0 ==> SrtMillis(t) >= 0
    ensures t < 0.0 ==> SrtMillis(t) <= 0
  {
    var x := t - Trunc(t) as real;
    assert -1.0 < x < 1.0;
    assert -1000.0 < x * 1000.0 < 1000.0;
  }

  /** The parser of the editing routes reads an SRT timestamp as the time that its fields show, unless the
      milliseconds are below zero; then it raises. */
  lemma LooseReads(t: real)
    ensures ParseStampLoosely(SrtTimestamp(t)) == if SrtMillis(t) >= 0 then Ok(SrtShown(t)) else Raised
  {
    SrtMillisRange(t);
    ClockFields(t);
    if SrtMillis(t) >= 0 {
      LooseStamp(Hours(t), Minutes(t), Seconds(t), SrtMillis(t),
                 FormatInt(Hours(t), 2), FormatInt(Minutes(t), 2), FormatInt(Seconds(t), 2),
                 FormatInt(SrtMillis(t), 3));
      assert Stamp(Hours(t), Minutes(t), Seconds(t), SrtMillis(t)) == SrtShown(t);
    } else {
      LooseSign(Hours(t), Minutes(t), Seconds(t), SrtMillis(t));
    }
  }

  lemma WholeMillis(t: real)
    ensures Whole(t) ==> SrtMillis(t) == 0
  {
    if Whole(t) {
      assert (-t).Floor == -(t.Floor);
      assert Trunc(t) == t.Floor;
    }
  }

  /** So it reads back the time rounded down to the millisecond exactly if the time is not negative or is a
      whole number of seconds. */
  lemma LooseRoundTrip(t: real)
    ensures ParseStampLoosely(SrtTimestamp(t)) == Ok(FloorMs(t)) <==> t >= 0.0 || Whole(t)
  {
    hide ParseStampLoosely, SrtTimestamp, SrtShown, SrtMillis, FloorMs;
    LooseReads(t);
    SrtShowsFloorIff(t);
    SrtMillisRange(t);
    WholeMillis(t);
  }
}
