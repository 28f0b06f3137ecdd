/**
 What stands in a printed subtitle file, line by line and block by block, and which blocks the parsers take
 that no printer writes: the shape of the files of app/utils/srt.py, apart from reading them back.
 */
module PrintedFiles {
  import opened PyText
  import opened Numerals
  import opened Timestamps
  import opened SubtitleFiles
  import opened LineBreak
  import opened RoundTrips

  // ---------------------------------------------------------------- lines

  lemma {:induction false} SplitOfJoin(lines: seq<string>)
    requires lines != [] && forall line | line in lines :: OneLine(line)
    ensures SplitOn(Join("\n", lines), "\n") == lines
  {
    assert OneLine(lines[0]);
    if |lines| == 1 {
      SplitNoChar(lines[0], '\n');
    } else {
      SplitOfJoin(lines[1..]);
      SplitAtChar(lines[0], '\n', Join("\n", lines[1..]));
    }
  }

  lemma {:induction false} CueLineAt(items: seq<Item>, i: nat)
    requires i < |items|
    ensures |CueLines(items)| == 4 * |items| && CueLines(items)[4 * i..4 * i + 4] == ItemLines(items[i])
    decreases i
  {
    var all, rest := CueLines(items), items[1..];
    CueLinesCount(items);
    if i > 0 {
      CueLineAt(rest, i - 1);
      assert all == ItemLines(items[0]) + CueLines(rest);
      assert all[4 * i..4 * i + 4] == CueLines(rest)[4 * (i - 1)..4 * (i - 1) + 4];
    }
  }

  lemma {:induction false} CueLinesCount(items: seq<Item>)
    ensures |CueLines(items)| == 4 * |items|
  {
    if items != [] {
      CueLinesCount(items[1..]);
    }
  }

  predicate OneLiner(item: Item) {
    OneLine(item.index) && OneLine(item.from + ARROW + item.to) && OneLine(item.shown)
  }

  lemma {:induction false} CueLinesAreLines(items: seq<Item>)
    requires forall item | item in items :: OneLiner(item)
    ensures forall line | line in CueLines(items) :: OneLine(line)
  {
    if items != [] {
      assert OneLiner(items[0]);
      CueLinesAreLines(items[1..]);
    }
  }

  lemma ItemIsOneLiner(seg: Seg, number: nat, fmt: Format, speakers: bool)
    requires OneLine(Shown(seg, fmt, speakers))
    ensures OneLiner(ItemOf(seg, number, fmt, speakers))
  {
    var item := ItemOf(seg, number, fmt, speakers);
    ItemIsGood(seg, number, fmt, speakers);
    NoArrowInNumber(item.index);
    SplitTimes(item.from, item.to);
  }

  lemma PrintedItems(segs: seq<Seg>, fmt: Format, speakers: bool)
    requires forall seg | seg in segs :: OneLine(Shown(seg, fmt, speakers))
    ensures forall item | item in Items(segs, 1, fmt, speakers) :: OneLiner(item)
  {
    var items := Items(segs, 1, fmt, speakers);
    forall item | item in items ensures OneLiner(item) {
      var i :| 0 <= i < |items| && items[i] == item;
      ItemAt(segs, 1, fmt, speakers, i, segs[i], i + 1);
      assert segs[i] in segs;
      ItemIsOneLiner(segs[i], i + 1, fmt, speakers);
    }
  }

  lemma LinesOfFile(segs: seq<Seg>, fmt: Format, speakers: bool)
    requires segs != [] && forall seg | seg in segs :: OneLine(Shown(seg, fmt, speakers))
    ensures SplitOn(Printed(segs, fmt, speakers), "\n")
            == (if fmt.Vtt? then ["WEBVTT", ""] else []) + CueLines(Items(segs, 1, fmt, speakers))
  {
    var items := Items(segs, 1, fmt, speakers);
    PrintedItems(segs, fmt, speakers);
    CueLinesAreLines(items);
    CueLinesCount(items);
    SplitOfJoin((if fmt.Vtt? then ["WEBVTT", ""] else []) + CueLines(items));
  }

  /** The text of a cue: stripped, behind the name of its speaker where there is one to show. */
  function Labelled(seg: Seg, fmt: Format, speakers: bool): string {
    if !speakers || seg.speaker == None || seg.speaker == Some("") then Strip(seg.text)
    else if fmt.Srt? then "[" + seg.speaker.value + "] " + Strip(seg.text)
    else "<v " + seg.speaker.value + ">" + Strip(seg.text)
  }

  lemma ShownIsLabelled(seg: Seg, fmt: Format, speakers: bool)
    ensures Shown(seg, fmt, speakers) == Labelled(seg, fmt, speakers)
  {
    if seg.speaker.Some? {
      assert seg.speaker == Some(seg.speaker.value);
    }
  }

  /** Segment by segment a printed file holds four lines: the number of the segment counted from 1, its times
      around an arrow, its text and an empty line. A WebVTT file has two lines before that. */
  lemma PrintedLines(segs: seq<Seg>, fmt: Format, speakers: bool, i: nat)
    requires i < |segs| && forall seg | seg in segs :: OneLine(Labelled(seg, fmt, speakers))
    ensures var lines, at := SplitOn(Printed(segs, fmt, speakers), "\n"), 4 * i + (if fmt.Vtt? then 2 else 0);
            && |lines| == 4 * |segs| + (if fmt.Vtt? then 2 else 0)
            && PyInt(lines[at]) == Ok(i + 1) && AllDigits(lines[at])
            && lines[at + 1] == TimeIn(fmt, segs[i].start) + " --> " + TimeIn(fmt, segs[i].end)
            && lines[at + 2] == Labelled(segs[i], fmt, speakers) && lines[at + 3] == ""
            && (fmt.Vtt? ==> lines[0] == "WEBVTT" && lines[1] == "")
  {
    hide Shown, Labelled, SplitOn, CueLines, Items, PyInt, TimeIn, OneLine, Printed;
    forall seg | seg in segs ensures OneLine(Shown(seg, fmt, speakers)) {
      ShownIsLabelled(seg, fmt, speakers);
    }
    ShownIsLabelled(segs[i], fmt, speakers);
    var items := Items(segs, 1, fmt, speakers);
    LinesOfFile(segs, fmt, speakers);
    ItemAt(segs, 1, fmt, speakers, i, segs[i], i + 1);
    CueLineAt(items, i);
    FourLines(if fmt.Vtt? then ["WEBVTT", ""] else [], CueLines(items), items[i], i);
    ReadDigits(Digits(i + 1));
  }

  lemma FourLines(header: seq<string>, lines: seq<string>, item: Item, i: nat)
    requires 4 * i + 4 <= |lines| && lines[4 * i..4 * i + 4] == ItemLines(item)
    ensures var all, at := header + lines, |header| + 4 * i;
            && all[at] == item.index && all[at + 1] == item.from + ARROW + item.to
            && all[at + 2] == item.shown && all[at + 3] == ""
  {
    var four := lines[4 * i..4 * i + 4];
    assert four[0] == lines[4 * i] && four[1] == lines[4 * i + 1];
    assert four[2] == lines[4 * i + 2] && four[3] == lines[4 * i + 3];
  }

  // ---------------------------------------------------------------- times

  lemma MillisAre(t: real, fmt: Format)
    requires t >= 0.0
    ensures var ms := match fmt case Srt => SrtMillis(t) case Vtt => VttMillis(t);
            ms == ((t - t.Floor as real) * 1000.0).Floor && 0 <= ms < 1000
  {
    SrtMillisExact(t);
    VttMillisExact(t);
  }

  lemma TwoDigits(n: nat)
    requires n < 60
    ensures |FormatInt(n, 2)| == 2
  {
    if n >= 10 {
      assert |Digits(n / 10)| == 1;
    }
    FormatNatDigits(n, 2);
  }

  /** A time is printed as hours, minutes, seconds and milliseconds of the time rounded down, with colons and a
      comma or a point between them, in two digits or more, two, two and three. */
  lemma TimeShows(t: real, fmt: Format)
    requires t >= 0.0
    ensures var parts := SplitOn(TimeIn(fmt, t), ":");
            && |parts| == 3
            && PyInt(parts[0]) == Ok(t.Floor / 3600) && |parts[0]| >= 2
            && PyInt(parts[1]) == Ok(t.Floor % 3600 / 60) && |parts[1]| == 2
            && var last := SplitOn(parts[2], if fmt.Srt? then "," else ".");
               && |last| == 2
               && PyInt(last[0]) == Ok(t.Floor % 60) && |last[0]| == 2
               && PyInt(last[1]) == Ok(((t - t.Floor as real) * 1000.0).Floor) && |last[1]| == 3
  {
    hide PyInt, FormatInt, SplitOn;
    ClockFields(t);
    ClockParts(t);
    MillisAre(t, fmt);
    var ms := match fmt case Srt => SrtMillis(t) case Vtt => VttMillis(t);
    TextShows(Hours(t), Minutes(t), Seconds(t), if fmt.Srt? then ',' else '.', ms);
  }

  lemma TextShows(h: int, m: int, s: int, mark: char, ms: int)
    requires h >= 0 && 0 <= m < 60 && 0 <= s < 60 && 0 <= ms < 1000 && (mark == ',' || mark == '.')
    ensures var a, b, c, d := FormatInt(h, 2), FormatInt(m, 2), FormatInt(s, 2), FormatInt(ms, 3);
            && SplitOn(StampText(a, b, c, mark, d), ":") == [a, b, c + [mark] + d]
            && SplitOn(c + [mark] + d, [mark]) == [c, d]
            && PyInt(a) == Ok(h) && PyInt(b) == Ok(m) && PyInt(c) == Ok(s) && PyInt(d) == Ok(ms)
            && |a| >= 2 && |b| == 2 && |c| == 2 && |d| == 3
  {
    hide PyInt, FormatInt;
    var a, b, c, d := FormatInt(h, 2), FormatInt(m, 2), FormatInt(s, 2), FormatInt(ms, 3);
    Written(h, 2);
    Written(m, 2);
    Written(s, 2);
    Written(ms, 3);
    TwoDigits(m);
    TwoDigits(s);
    ThreeDigitText(ms);
    PaddedLength(h);
    assert StampText(a, b, c, mark, d) == a + [':'] + b + [':'] + (c + [mark] + d);
    SplitClock(a, b, c + [mark] + d);
    SplitAtChar(c, mark, d);
    SplitNoChar(d, mark);
  }

  lemma PaddedLength(h: nat)
    ensures |FormatInt(h, 2)| >= 2
  {
    PadKeepsValue(Digits(h), 2);
  }

  lemma SplitOfMissing(s: string, c: char)
    requires c !in s
    ensures SplitOn(Strip(s), [c]) == [Strip(s)] && c !in Strip(s)
  {
    var a, b := StripSplits(s);
    SplitNoChar(Strip(s), c);
  }

  /** A time without its mark or without a colon raises in the strict parsers; the parser of the editing routes
      reads a text without a colon as 0. */
  lemma MalformedTimes(ts: string, mark: char)
    requires mark == ',' || mark == '.'
    ensures mark !in ts ==> ParseStamp(ts, mark) == Raised
    ensures ':' !in ts ==> ParseStamp(ts, mark) == Raised && ParseStampLoosely(ts) == Ok(0.0)
  {
    if mark !in ts {
      SplitOfMissing(ts, mark);
    }
    if ':' !in ts {
      var halves := SplitOn(Strip(ts), [mark]);
      SplitOfMissing(ts, ':');
      JoinOfSplit(Strip(ts), [mark]);
      FirstPart(halves, [mark]);
      assert forall c | c in halves[0] :: c in Strip(ts);
      SplitNoChar(halves[0], ':');
      var replaced := ReplaceChar(ts, ',', '.');
      assert ':' !in replaced;
      SplitNoChar(replaced, ':');
    }
  }

  lemma FirstPart(parts: seq<string>, sep: string)
    requires parts != []
    ensures parts[0] <= Join(sep, parts)
  {
  }

  // ---------------------------------------------------------------- blocks

  /** The blocks between the blank lines are the cues, one each, even where a cue has no text. */
  lemma {:induction false} CoreBlocks(items: seq<Item>)
    requires items != [] && forall item | item in items :: GoodItem(item) && Clean(item)
    ensures var blocks := SplitOn(Core(items), BLANK_LINE);
            |blocks| == |items| && forall i | 0 <= i < |items| :: Strip(blocks[i]) == Block(items[i])
  {
    var item, rest := items[0], items[1..];
    assert item in items;
    BlockIsStripped(item);
    StripFixed(Block(item));
    if rest == [] {
      LastBlockSplits(item);
    } else {
      CoreBlocks(rest);
      CoreIsStripped(rest);
      if item.shown == "" {
        EmptyBlockFirst(item, Core(rest));
      } else {
        TextBlockFirst(item, Core(rest));
      }
    }
  }

  lemma EmptyBlockFirst(item: Item, core: string)
    requires GoodItem(item) && item.shown == "" && core != "" && !IsSpace(core[0])
    ensures var blocks := SplitOn(Head(item) + BLANK_LINE + ("\n" + core), BLANK_LINE);
            var parts := SplitOn(core, BLANK_LINE);
            && |blocks| == |parts| + 1 && blocks[0] == Head(item)
            && forall i | 0 <= i < |parts| :: Strip(blocks[i + 1]) == Strip(parts[i])
  {
    hide SplitOn;
    CleanBlock(item, "");
    SplitAtBlankLine(Head(item), "\n" + core);
    SplitAfterNewline(core);
    var parts := SplitOn(core, BLANK_LINE);
    assert ("\n" + parts[0])[1..] == parts[0];
    assert Strip("\n" + parts[0]) == Strip(parts[0]);
  }

  lemma TextBlockFirst(item: Item, core: string)
    requires GoodItem(item) && Clean(item) && item.shown != ""
    ensures var block := Head(item) + ['\n'] + item.shown;
            && SplitOn(block + BLANK_LINE + core, BLANK_LINE) == [block] + SplitOn(core, BLANK_LINE)
            && Strip(block) == Block(item)
  {
    var block := Head(item) + ['\n'] + item.shown;
    ShownStart(item);
    CleanBlock(item, item.shown);
    assert block[|block| - 1] == item.shown[|item.shown| - 1];
    SplitAtBlankLine(block, core);
    StripOfPadded(item);
  }

  lemma StrippedSrt(items: seq<Item>)
    requires items != [] && forall item | item in items :: GoodItem(item)
    ensures Strip(Join("\n", CueLines(items))) == Core(items)
  {
    hide GoodItem, Core, CueLines, Join, Strip;
    var pad := PrintedCore(items);
    CoreIsStripped(items);
    assert "" + Core(items) + pad == Core(items) + pad;
    StripPadded("", Core(items), pad);
  }

  lemma StrippedVtt(items: seq<Item>)
    requires items != [] && forall item | item in items :: GoodItem(item)
    ensures Strip(Join("\n", ["WEBVTT", ""] + CueLines(items))) == "WEBVTT" + BLANK_LINE + Core(items)
  {
    hide GoodItem, Core, Join, Strip;
    var pad := PrintedCore(items);
    CoreIsStripped(items);
    HeaderLines(CueLines(items));
    CueLinesCount(items);
    StrippedBehindHeader(Core(items), pad);
  }

  lemma StrippedBehindHeader(core: string, pad: string)
    requires IsStripped(core) && core != "" && AllSpace(pad)
    ensures Strip("WEBVTT" + BLANK_LINE + (core + pad)) == "WEBVTT" + BLANK_LINE + core
  {
    var body := "WEBVTT" + BLANK_LINE + core;
    assert body[0] == 'W' && body[|body| - 1] == core[|core| - 1];
    assert "WEBVTT" + BLANK_LINE + (core + pad) == "" + body + pad;
    StripPadded("", body, pad);
  }

  lemma GoodItems(segs: seq<Seg>, fmt: Format, speakers: bool)
    requires NoBlankLines(segs, fmt, speakers)
    ensures forall item | item in Items(segs, 1, fmt, speakers) :: GoodItem(item) && Clean(item)
  {
    hide GoodItem, Clean, ItemOf, ReadsTimes;
    KeptIsExpected(segs, 1, fmt, speakers, if fmt.Srt? then Strict(',') else Strict('.'));
    ItemsAreClean(segs, 1, fmt, speakers);
  }

  lemma BlocksOfFile(segs: seq<Seg>, fmt: Format, speakers: bool)
    requires segs != [] && NoBlankLines(segs, fmt, speakers)
    ensures SplitOn(Strip(Printed(segs, fmt, speakers)), BLANK_LINE)
            == (if fmt.Vtt? then ["WEBVTT"] else []) + SplitOn(Core(Items(segs, 1, fmt, speakers)), BLANK_LINE)
    ensures forall item | item in Items(segs, 1, fmt, speakers) :: GoodItem(item) && Clean(item)
  {
    hide GoodItem, Clean, Core, CueLines, Join, Strip, SplitOn, NoBlankLines;
    var items := Items(segs, 1, fmt, speakers);
    GoodItems(segs, fmt, speakers);
    if fmt.Vtt? {
      StrippedVtt(items);
      NoBlankLineInHeader();
      SplitAtBlankLine("WEBVTT", Core(items));
    } else {
      StrippedSrt(items);
      assert [] + CueLines(items) == CueLines(items);
      assert [] + SplitOn(Core(items), BLANK_LINE) == SplitOn(Core(items), BLANK_LINE);
    }
  }

  /** Whatever the texts hold but a blank line, the file has a block for every segment, and the first lines of
      the blocks read as 1, 2, 3 and so on. */
  lemma BlocksAreNumbered(segs: seq<Seg>, fmt: Format, speakers: bool, i: nat)
    requires i < |segs| && NoBlankLines(segs, fmt, speakers)
    ensures var blocks, first := SplitOn(Strip(Printed(segs, fmt, speakers)), "\n\n"), if fmt.Vtt? then 1 else 0;
            && |blocks| == first + |segs|
            && (fmt.Vtt? ==> blocks[0] == "WEBVTT")
            && PyInt(SplitOn(Strip(blocks[first + i]), "\n")[0]) == Ok(i + 1)
  {
    hide SplitOn, Core, Items, Printed, GoodItem, Clean, Block, Strip, PyInt, NoBlankLines;
    var items := Items(segs, 1, fmt, speakers);
    BlocksOfFile(segs, fmt, speakers);
    CoreBlocks(items);
    assert items[i] in items;
    ItemAt(segs, 1, fmt, speakers, i, segs[i], i + 1);
    BlockIsNumbered(items[i], i + 1);
  }

  lemma BlockIsNumbered(item: Item, n: nat)
    requires GoodItem(item) && item.index == Digits(n)
    ensures PyInt(SplitOn(Block(item), "\n")[0]) == Ok(n)
  {
    LinesOfBlock(item);
    ReadDigits(Digits(n));
  }

  // ---------------------------------------------------------------- blocks that no printer writes

  /** The strict parsers take the first line with an arrow for the times and what follows for the text,
      whatever stands before, a number or not. */
  lemma FirstArrowDecides(before: seq<string>, from: string, to: string, after: seq<string>, mark: char)
    requires (forall line | line in before :: !Contains(line, " --> ")) && IsStampText(from) && IsStampText(to)
    requires |before| + |after| > 0
    ensures var r, text := StrictCue(before + [from + " --> " + to] + after, mark), Strip(Join("\n", after));
            match (ParseStamp(from, mark), ParseStamp(to, mark))
            case (Ok(start), Ok(end)) => r == Ok(if text == "" then None else Some(Cue(start, end, text)))
            case _ => r == Raised
  {
    hide Strip, Join, ParseStamp, SplitOn, Contains, StrictCue, ArrowLine, IsStampText;
    var lines := before + [from + ARROW + to] + after;
    SplitTimes(from, to);
    assert lines[|before|] == from + ARROW + to && lines[|before| + 1..] == after;
    FirstIs(lines, |before|);
    ReadAtArrow(lines, |before|, from, to, Strip(Join("\n", after)), mark);
  }

  lemma ReadAtArrow(lines: seq<string>, at: nat, from: string, to: string, text: string, mark: char)
    requires |lines| >= 2 && at < |lines| && ArrowLine(lines) == at && SplitOn(lines[at], ARROW) == [from, to]
    requires Strip(Join("\n", lines[at + 1..])) == text
    ensures var cue := CueFrom(ParseStamp(from, mark), ParseStamp(to, mark), text);
            StrictCue(lines, mark) == if cue.Ok? && text == "" then Ok(None) else cue
  {
    hide Strip, Join, ParseStamp, SplitOn, ArrowLine, CueFrom, Contains, Find;
  }

  lemma {:induction false} FirstIs(lines: seq<string>, n: nat)
    requires n < |lines| && Contains(lines[n], ARROW) && forall k | 0 <= k < n :: !Contains(lines[k], ARROW)
    ensures ArrowLine(lines) == n
  {
    if n > 0 {
      FirstIs(lines[1..], n - 1);
    }
  }

  /** A file of one cue without a number: the strict parser reads it, the one of the editing routes does not. */
  lemma NumberIsOptional(start: real, end: real, text: string)
    requires IsStripped(text) && text != "" && OneLine(text)
    ensures var content := SrtTimestamp(start) + " --> " + SrtTimestamp(end) + "\n" + text;
            && ParsedSrt(content, Strict(',')) == Ok([Cue(SrtShown(start), SrtShown(end), text)])
            && ParsedSrt(content, Loose) == Ok([])
  {
    hide SrtTimestamp, SrtShown, ParseStamp, ParsedSrt, Strip, SplitOn, Join, StrictCue, Contains, IsStampText;
    var from, to := SrtTimestamp(start), SrtTimestamp(end);
    SrtRoundTrip(start);
    SrtRoundTrip(end);
    CueOfTwoLines(from, to, text, start, end);
  }

  lemma CueOfTwoLines(from: string, to: string, text: string, start: real, end: real)
    requires IsStripped(text) && text != "" && OneLine(text) && IsStampText(from) && IsStampText(to)
    requires ParseStamp(from, ',') == Ok(SrtShown(start)) && ParseStamp(to, ',') == Ok(SrtShown(end))
    ensures var content := from + " --> " + to + "\n" + text;
            && ParsedSrt(content, Strict(',')) == Ok([Cue(SrtShown(start), SrtShown(end), text)])
            && ParsedSrt(content, Loose) == Ok([])
  {
    hide SrtShown, ParseStamp, ParsedSrt, Strip, SplitOn, Join, StrictCue, Contains, IsStampText;
    var times, content := from + ARROW + to, from + ARROW + to + "\n" + text;
    TwoLineBlock(from, to, text);
    FirstArrowDecides([], from, to, [text], ',');
    assert [] + [times] + [text] == [times, text];
    JoinOne(text);
    StripFixed(text);
    OnlyBlock(content, Strict(','), Some(Cue(SrtShown(start), SrtShown(end), text)));
    OnlyBlock(content, Loose, None);
  }

  lemma JoinOne(text: string)
    ensures Join("\n", [text]) == text
  {
  }

  lemma TwoLineBlock(from: string, to: string, text: string)
    requires IsStripped(text) && text != "" && OneLine(text) && IsStampText(from) && IsStampText(to)
    ensures var times, content := from + ARROW + to, from + ARROW + to + "\n" + text;
            && Strip(content) == content && SplitOn(content, BLANK_LINE) == [content]
            && SplitOn(content, "\n") == [times, text]
  {
    hide Strip, SplitOn;
    var times, content := from + ARROW + to, from + ARROW + to + "\n" + text;
    SplitTimes(from, to);
    assert content[0] == from[0] && content[|content| - 1] == text[|text| - 1];
    StripFixed(content);
    OneBlock(times, text);
    SplitTwoLines(times, text);
  }

  lemma OnlyBlock(block: string, reader: Reader, cue: Option<Cue>)
    requires BlockCue(block, reader) == Ok(cue) && Strip(block) == block && SplitOn(block, BLANK_LINE) == [block]
    ensures ParsedSrt(block, reader) == Ok(Listed(cue))
  {
    assert [block] == [block] + [] && Listed(cue) + [] == Listed(cue);
    BlockCuesCons(block, [], reader);
  }

  lemma OneBlock(a: string, b: string)
    requires OneLine(a) && OneLine(b) && a != "" && b != ""
    ensures SplitOn(a + "\n" + b, BLANK_LINE) == [a + "\n" + b]
  {
    var s := a + "\n" + b;
    assert forall j | 0 <= j < |a| :: s[j] == a[j];
    assert forall j | |a| < j < |s| :: s[j] == b[j - |a| - 1];
    forall k ensures !OccursAt(s, BLANK_LINE, k) {
      if OccursAt(s, BLANK_LINE, k) {
        NewlinePair(s, k);
      }
    }
    SplitAbsent(s, BLANK_LINE);
  }

  /** Everything of a WebVTT file up to its first blank line is skipped if it begins with the magic word, and
      nothing otherwise. */
  lemma HeaderDecides(header: string, body: string)
    requires IsStripped(body) && body != "" && header != "" && !IsSpace(header[0])
    requires !Contains(header, "\n\n") && header[|header| - 1] != '\n'
    ensures ParsedVtt(header + "\n\n" + body)
            == if |header| >= 6 && header[..6] == "WEBVTT" then ParsedSrt(body, Strict('.'))
               else ParsedSrt(header + "\n\n" + body, Strict('.'))
  {
    var content := header + BLANK_LINE + body;
    assert content[0] == header[0] && content[|content| - 1] == body[|body| - 1];
    StripFixed(content);
    FindBlankLine(header, body);
    assert content[|header| + 2..] == body;
    HeaderIsMagic(header, body);
  }

  lemma HeaderIsMagic(header: string, body: string)
    ensures StartsWith(header + "\n\n" + body, "WEBVTT") <==> |header| >= 6 && header[..6] == "WEBVTT"
  {
    var content := header + "\n\n" + body;
    if |header| >= 6 {
      assert content[..6] == header[..6];
    } else {
      assert content[|header|] == '\n';
      assert |content| >= 6 ==> content[..6][|header|] == '\n';
    }
  }
}
