/**
 Reading subtitle files back: what the parsers of app/utils/srt.py and app/routes/subtitles.py return
 for the files that the printers of app/utils/srt.py write.
 */
module RoundTrips {
  import opened PyText
  import opened Numerals
  import opened Timestamps
  import opened SubtitleFiles
  import opened LineBreak

  // ---------------------------------------------------------------- blank lines

  predicate EndsLine(s: string) {
    s != "" && s[|s| - 1] == '\n'
  }

  lemma BlankLineBefore(a: string, b: string, k: int)
    requires OccursAt(a + BLANK_LINE + b, BLANK_LINE, k) && k < |a|
    ensures Contains(a, BLANK_LINE) || EndsLine(a)
  {
    var s := a + BLANK_LINE + b;
    assert s[k] == s[k..k + 2][0] && s[k] == a[k];
    if k + 2 <= |a| {
      assert a[k..k + 2] == s[k..k + 2];
      assert OccursAt(a, BLANK_LINE, k);
    }
  }

  lemma FindBlankLine(a: string, b: string)
    requires !Contains(a, BLANK_LINE) && !EndsLine(a)
    ensures Find(a + BLANK_LINE + b, BLANK_LINE) == |a|
  {
    var s := a + BLANK_LINE + b;
    assert s[|a|..|a| + 2] == BLANK_LINE;
    assert OccursAt(s, BLANK_LINE, |a|);
    forall k | OccursAt(s, BLANK_LINE, k) ensures k >= |a| {
      if k < |a| {
        BlankLineBefore(a, b, k);
      }
    }
  }

  lemma SplitAtBlankLine(a: string, b: string)
    requires !Contains(a, BLANK_LINE) && !EndsLine(a)
    ensures SplitOn(a + BLANK_LINE + b, BLANK_LINE) == [a] + SplitOn(b, BLANK_LINE)
  {
    FindBlankLine(a, b);
    SplitFirst(a, BLANK_LINE, b);
  }

  /** One more newline in front of a text joins its first block and makes no block of its own. */
  lemma NoneAcross(s: string, t: string)
    requires s != "" && s[0] != '\n' && t == "\n" + s
    ensures forall k | OccursAt(t, BLANK_LINE, k) :: OccursAt(s, BLANK_LINE, k - 1)
  {
    forall k | OccursAt(t, BLANK_LINE, k) ensures OccursAt(s, BLANK_LINE, k - 1) {
      assert t[k..k + 2][1] == t[k + 1];
      assert k > 0;
      assert s[k - 1..k + 1] == t[k..k + 2];
    }
  }

  lemma FindAfterNewline(s: string, t: string)
    requires s != "" && s[0] != '\n' && t == "\n" + s
    ensures Find(t, BLANK_LINE) == if Find(s, BLANK_LINE) == -1 then -1 else Find(s, BLANK_LINE) + 1
  {
    NoneAcross(s, t);
    var i := Find(s, BLANK_LINE);
    if i != -1 {
      assert t[i + 1..i + 3] == s[i..i + 2];
      assert OccursAt(t, BLANK_LINE, i + 1);
    }
  }

  lemma SplitAfterNewline(s: string)
    requires s != "" && s[0] != '\n'
    ensures var parts := SplitOn(s, BLANK_LINE);
            SplitOn("\n" + s, BLANK_LINE) == ["\n" + parts[0]] + parts[1..]
  {
    var t, i := "\n" + s, Find(s, BLANK_LINE);
    FindAfterNewline(s, t);
    if i == -1 {
      SplitAbsent(s, BLANK_LINE);
      SplitAbsent(t, BLANK_LINE);
    } else {
      SplitAt(s, i);
      SplitAt(t, i + 1);
      assert t[..i + 1] == "\n" + s[..i] && t[i + 3..] == s[i + 2..];
    }
  }

  lemma SplitAt(s: string, i: nat)
    requires Find(s, BLANK_LINE) == i
    ensures i + 2 <= |s| && SplitOn(s, BLANK_LINE) == [s[..i]] + SplitOn(s[i + 2..], BLANK_LINE)
  {
  }

  // ---------------------------------------------------------------- one block

  /** Cues as the printers make them: plain numbers and times, and a text that is stripped but for one
      blank after a speaker's label. */
  predicate GoodItem(item: Item) {
    && item.index != "" && AllDigits(item.index)
    && IsStampText(item.from) && IsStampText(item.to)
    && (item.shown == "" || item.shown == Strip(item.shown) || item.shown == Strip(item.shown) + " ")
    && (item.shown != "" ==> Strip(item.shown) != "")
  }

  function Times(item: Item): string {
    item.from + ARROW + item.to
  }

  function Head(item: Item): string {
    item.index + ['\n'] + Times(item)
  }

  /** The block of a cue, with the text stripped. */
  function Block(item: Item): string {
    if item.shown == "" then Head(item) else Head(item) + ['\n'] + Strip(item.shown)
  }

  lemma ArrowBefore(from: string, to: string, k: int)
    requires OccursAt(from + ARROW + to, ARROW, k) && k < |from|
    ensures ' ' in from
  {
    var s := from + ARROW + to;
    assert s[k] == s[k..k + 5][0] && s[k] == from[k];
  }

  lemma SplitTimes(from: string, to: string)
    requires IsStampText(from) && IsStampText(to)
    ensures SplitOn(from + ARROW + to, ARROW) == [from, to]
    ensures Contains(from + ARROW + to, ARROW)
    ensures '\n' !in from + ARROW + to
  {
    var s := from + ARROW + to;
    assert ARROW[0] == ' ';
    assert s[|from|..|from| + 5] == ARROW;
    assert OccursAt(s, ARROW, |from|);
    forall k | OccursAt(s, ARROW, k) ensures k >= |from| {
      if k < |from| {
        ArrowBefore(from, to, k);
      }
    }
    SplitFirst(from, ARROW, to);
    forall k ensures !OccursAt(to, ARROW, k) {
      if OccursAt(to, ARROW, k) {
        OccursBrings(to, ARROW, k, 0);
      }
    }
    SplitAbsent(to, ARROW);
  }

  lemma NoArrowInNumber(index: string)
    requires AllDigits(index)
    ensures !Contains(index, ARROW) && '\n' !in index
  {
    forall k ensures !OccursAt(index, ARROW, k) {
      if OccursAt(index, ARROW, k) {
        OccursBrings(index, ARROW, k, 0);
      }
    }
  }

  lemma HeadLines(item: Item)
    requires GoodItem(item)
    ensures SplitOn(Head(item), "\n") == [item.index, Times(item)]
    ensures IsStripped(Head(item)) && Head(item) != ""
  {
    NoArrowInNumber(item.index);
    SplitTimes(item.from, item.to);
    SplitAtChar(item.index, '\n', Times(item));
    SplitNoChar(Times(item), '\n');
    assert Head(item)[0] == item.index[0];
    var to := item.to;
    assert Head(item)[|Head(item)| - 1] == to[|to| - 1];
  }

  lemma TextLines(item: Item, text: string)
    requires GoodItem(item)
    ensures SplitOn(Head(item) + ['\n'] + text, "\n") == [item.index, Times(item)] + SplitOn(text, "\n")
  {
    NoArrowInNumber(item.index);
    SplitTimes(item.from, item.to);
    assert Head(item) + ['\n'] + text == item.index + ['\n'] + (Times(item) + ['\n'] + text);
    SplitAtChar(item.index, '\n', Times(item) + ['\n'] + text);
    SplitAtChar(Times(item), '\n', text);
  }

  lemma BlockIsStripped(item: Item)
    requires GoodItem(item)
    ensures IsStripped(Block(item)) && Block(item) != "" && !IsSpace(Block(item)[0])
  {
    HeadLines(item);
    var text := Strip(item.shown);
    var _, _ := StripSplits(item.shown);
    if item.shown != "" {
      assert Block(item)[0] == Head(item)[0];
      assert Block(item)[|Block(item)| - 1] == text[|text| - 1];
    }
  }

  /** What the parsers should make of a printed cue. */
  function CueOf(item: Item, reader: Reader): Result<Option<Cue>> {
    if item.shown == "" then Ok(None)
    else
      match reader
      case Strict(mark) => CueFrom(ParseStamp(item.from, mark), ParseStamp(item.to, mark), Strip(item.shown))
      case Loose => CueFrom(ParseStampLoosely(item.from), ParseStampLoosely(item.to), Strip(item.shown))
  }

  predicate ReadsTimes(item: Item, reader: Reader) {
    match reader
    case Strict(mark) => ParseStamp(item.from, mark).Ok? && ParseStamp(item.to, mark).Ok?
    case Loose => true
  }

  lemma LinesOfBlock(item: Item)
    requires GoodItem(item)
    ensures var lines := SplitOn(Block(item), "\n");
            && |lines| >= 2 && lines[0] == item.index && lines[1] == Times(item)
            && Strip(Join("\n", lines[2..])) == Strip(item.shown)
            && (|lines| == 2 <==> item.shown == "")
  {
    var text := Strip(item.shown);
    var lines := SplitOn(Block(item), "\n");
    if item.shown == "" {
      HeadLines(item);
      assert lines[2..] == [];
    } else {
      TextLines(item, text);
      assert lines[2..] == SplitOn(text, "\n");
      JoinOfSplit(text, "\n");
      var _, _ := StripSplits(item.shown);
      StripFixed(text);
    }
  }

  lemma ReadStrictLines(lines: seq<string>, mark: char, from: string, to: string, text: string)
    requires |lines| >= 2 && !Contains(lines[0], ARROW) && Contains(lines[1], ARROW)
    requires SplitOn(lines[1], ARROW) == [from, to] && Strip(Join("\n", lines[2..])) == text
    requires ParseStamp(from, mark).Ok? && ParseStamp(to, mark).Ok?
    ensures StrictCue(lines, mark) == if text == "" then Ok(None)
                                      else CueFrom(ParseStamp(from, mark), ParseStamp(to, mark), text)
  {
    assert ArrowLine(lines) == 1;
  }

  lemma ReadLooseLines(lines: seq<string>, from: string, to: string, text: string)
    requires |lines| >= 2 && (|lines| == 2 <==> text == "")
    requires SplitOn(lines[1], ARROW) == [from, to] && Strip(Join("\n", lines[2..])) == text
    requires Strip(from) == from && Strip(to) == to
    ensures LooseCue(lines) == if text == "" then Ok(None)
                               else CueFrom(ParseStampLoosely(from), ParseStampLoosely(to), text)
  {
  }

  /** Reading a printed block gives its times and its text, whatever the text contains. */
  lemma ReadBlock(item: Item, reader: Reader)
    requires GoodItem(item) && ReadsTimes(item, reader)
    ensures BlockCue(Block(item), reader) == CueOf(item, reader)
  {
    BlockIsStripped(item);
    StripFixed(Block(item));
    var lines, text := SplitOn(Block(item), "\n"), Strip(item.shown);
    LinesOfBlock(item);
    NoArrowInNumber(item.index);
    SplitTimes(item.from, item.to);
    match reader {
      case Strict(mark) =>
        ReadStrictLines(lines, mark, item.from, item.to, text);
      case Loose =>
        StripFixed(item.from);
        StripFixed(item.to);
        ReadLooseLines(lines, item.from, item.to, text);
    }
  }

  // ---------------------------------------------------------------- the whole file

  /** A text that the format can carry: without a blank line. */
  predicate Clean(item: Item) {
    !Contains(item.shown, BLANK_LINE)
  }

  /** The file without the whitespace at its end. */
  function Core(items: seq<Item>): string
    requires items != []
  {
    var item, rest := items[0], items[1..];
    if rest == [] then Block(item)
    else if item.shown == "" then Head(item) + BLANK_LINE + ("\n" + Core(rest))
    else (Head(item) + ['\n'] + item.shown) + BLANK_LINE + Core(rest)
  }

  lemma JoinCons(p: string, rest: seq<string>)
    ensures Join("\n", [p] + rest) == if rest == [] then p else p + ['\n'] + Join("\n", rest)
  {
    assert ([p] + rest)[1..] == rest;
  }

  lemma Regrouped(a: string, b: string, c: string, d: string)
    ensures a + ['\n'] + (b + ['\n'] + (c + ['\n'] + d)) == (a + ['\n'] + b) + ['\n'] + c + ['\n'] + d
  {
  }

  lemma JoinBlank(rest: seq<string>)
    ensures Join("\n", [""] + rest) == if rest == [] then "" else ['\n'] + Join("\n", rest)
  {
    JoinCons("", rest);
  }

  lemma JoinThree(a: string, b: string, c: string, lines: seq<string>)
    requires lines != []
    ensures Join("\n", [a] + ([b] + ([c] + lines)))
            == (a + ['\n'] + b) + ['\n'] + c + ['\n'] + Join("\n", lines)
  {
    JoinCons(a, [b] + ([c] + lines));
    JoinCons(b, [c] + lines);
    JoinCons(c, lines);
    Regrouped(a, b, c, Join("\n", lines));
  }

  lemma JoinCue(item: Item, rest: seq<string>)
    ensures Join("\n", ItemLines(item) + rest)
            == Head(item) + ['\n'] + item.shown + ['\n'] + (if rest == [] then "" else ['\n'] + Join("\n", rest))
  {
    var lines := [""] + rest;
    assert ItemLines(item) + rest == [item.index] + ([Times(item)] + ([item.shown] + lines));
    JoinThree(item.index, Times(item), item.shown, lines);
    JoinBlank(rest);
  }

  lemma LastBlock(item: Item) returns (pad: string)
    requires GoodItem(item)
    ensures AllSpace(pad) && Head(item) + ['\n'] + item.shown + ['\n'] == Block(item) + pad
  {
    var text := Strip(item.shown);
    pad := (if item.shown == "" then ['\n'] else item.shown[|text|..]) + ['\n'];
    if item.shown != "" {
      assert item.shown == text + item.shown[|text|..];
    }
  }

  /** The printed lines are the core and some whitespace. */
  lemma {:induction false} PrintedCore(items: seq<Item>) returns (pad: string)
    requires items != [] && forall item | item in items :: GoodItem(item)
    ensures AllSpace(pad) && Join("\n", CueLines(items)) == Core(items) + pad
  {
    var item, rest := items[0], items[1..];
    JoinCue(item, CueLines(rest));
    if rest == [] {
      pad := LastBlock(item);
    } else {
      pad := PrintedCore(rest);
      assert CueLines(rest) != [];
      var front, tail := Head(item) + ['\n'] + item.shown + ['\n'], Join("\n", CueLines(rest));
      assert Join("\n", CueLines(items)) == front + (['\n'] + tail);
      AcrossBlankLine(item, Core(rest), pad);
    }
  }

  lemma AcrossBlankLine(item: Item, core: string, pad: string)
    ensures Head(item) + ['\n'] + item.shown + ['\n'] + (['\n'] + (core + pad))
            == (if item.shown == "" then Head(item) + BLANK_LINE + ("\n" + core)
                else (Head(item) + ['\n'] + item.shown) + BLANK_LINE + core) + pad
  {
  }

  lemma {:induction false} CoreIsStripped(items: seq<Item>)
    requires items != [] && forall item | item in items :: GoodItem(item)
    ensures IsStripped(Core(items)) && Core(items) != "" && !IsSpace(Core(items)[0])
  {
    var item, rest := items[0], items[1..];
    assert GoodItem(item);
    HeadLines(item);
    if rest == [] {
      BlockIsStripped(item);
    } else {
      CoreIsStripped(rest);
      assert Core(items)[0] == Head(item)[0];
      assert Core(items)[|Core(items)| - 1] == Core(rest)[|Core(rest)| - 1];
    }
  }

  lemma NewlinePair(s: string, k: int)
    requires OccursAt(s, BLANK_LINE, k)
    ensures 0 <= k && k + 1 < |s| && s[k] == s[k + 1] == '\n'
  {
    var pair := s[k..k + 2];
    assert pair[0] == s[k] && pair[1] == s[k + 1];
  }

  lemma TextHoldsPair(item: Item, text: string, k: int)
    requires GoodItem(item) && (text != "" ==> text[0] != '\n')
    requires OccursAt(Head(item) + ['\n'] + text, BLANK_LINE, k)
    ensures Contains(text, BLANK_LINE)
  {
    var s, n := Head(item) + ['\n'] + text, |Head(item)|;
    NewlinePair(s, k);
    NoArrowInNumber(item.index);
    SplitTimes(item.from, item.to);
    var i := |item.index|;
    assert forall j | 0 <= j < i :: s[j] == item.index[j];
    assert forall j | i < j < n :: s[j] == Times(item)[j - i - 1];
    assert k > n;
    assert s[n + 1..] == text;
    assert text[k - n - 1..k - n + 1] == s[k..k + 2];
    assert OccursAt(text, BLANK_LINE, k - n - 1);
  }

  /** Only the text can bring a blank line into a block. */
  lemma CleanBlock(item: Item, text: string)
    requires GoodItem(item) && (text != "" ==> text[0] != '\n') && !Contains(text, BLANK_LINE)
    ensures !Contains(Head(item), BLANK_LINE) && !EndsLine(Head(item))
    ensures !Contains(Head(item) + ['\n'] + text, BLANK_LINE)
  {
    HeadLines(item);
    var s := Head(item) + ['\n'] + text;
    if Contains(s, BLANK_LINE) {
      TextHoldsPair(item, text, Find(s, BLANK_LINE));
    }
    assert s[0..|Head(item)|] == Head(item);
    if Contains(Head(item), BLANK_LINE) {
      ContainsPart(s, BLANK_LINE, 0, |Head(item)|);
    }
  }

  lemma ShownStart(item: Item)
    requires GoodItem(item) && item.shown != ""
    ensures item.shown[0] != '\n' && !EndsLine(item.shown) && Strip(item.shown)[0] != '\n'
    ensures item.shown[0..|Strip(item.shown)|] == Strip(item.shown)
  {
    var _, _ := StripSplits(item.shown);
    assert item.shown[0] == Strip(item.shown)[0];
  }

  lemma StripOfPadded(item: Item)
    requires GoodItem(item) && item.shown != ""
    ensures Strip(Head(item) + ['\n'] + item.shown) == Block(item)
  {
    BlockIsStripped(item);
    var text := Strip(item.shown);
    var pad := item.shown[|text|..];
    assert item.shown == text + pad;
    assert Head(item) + ['\n'] + item.shown == "" + Block(item) + pad;
    StripPadded("", Block(item), pad);
  }

  /** What the parser returns for printed cues, item by item. */
  function KeptCues(items: seq<Item>, reader: Reader): Result<seq<Cue>> {
    if items == [] then Ok([])
    else
      match CueOf(items[0], reader)
      case Raised => Raised
      case Ok(cue) => Append(Listed(cue), KeptCues(items[1..], reader))
  }

  lemma BlockCuesCons(block: string, rest: seq<string>, reader: Reader)
    ensures BlockCues([block] + rest, reader) ==
            match BlockCue(block, reader)
            case Raised => Raised
            case Ok(cue) => Append(Listed(cue), BlockCues(rest, reader))
  {
    assert ([block] + rest)[1..] == rest;
  }

  predicate Readable(items: seq<Item>, reader: Reader) {
    forall item | item in items :: GoodItem(item) && ReadsTimes(item, reader) && Clean(item)
  }

  lemma {:induction false} CoreCues(items: seq<Item>, reader: Reader)
    requires items != [] && Readable(items, reader)
    ensures BlockCues(SplitOn(Core(items), BLANK_LINE), reader) == KeptCues(items, reader)
  {
    var item, rest := items[0], items[1..];
    assert item in items;
    ReadBlock(item, reader);
    if rest == [] {
      LastBlockSplits(item);
      BlockCuesCons(Block(item), [], reader);
    } else {
      assert Readable(rest, reader);
      CoreCues(rest, reader);
      CoreIsStripped(rest);
      if item.shown == "" {
        EmptyCueSplits(item, Core(rest), reader);
      } else {
        TextCueSplits(item, Core(rest), reader);
      }
    }
  }

  lemma LastBlockSplits(item: Item)
    requires GoodItem(item) && Clean(item)
    ensures SplitOn(Block(item), BLANK_LINE) == [Block(item)]
  {
    var text := Strip(item.shown);
    if item.shown != "" {
      ShownStart(item);
      if Contains(text, BLANK_LINE) {
        ContainsPart(item.shown, BLANK_LINE, 0, |text|);
      }
      CleanBlock(item, text);
    } else {
      CleanBlock(item, "");
    }
    SplitAbsent(Block(item), BLANK_LINE);
  }

  /** A cue without text ends in two blank lines; the second newline goes to the next block, where
      stripping removes it. */
  lemma EmptyCueSplits(item: Item, core: string, reader: Reader)
    requires GoodItem(item) && item.shown == "" && core != "" && !IsSpace(core[0])
    ensures BlockCues(SplitOn(Head(item) + BLANK_LINE + ("\n" + core), BLANK_LINE), reader)
            == match BlockCue(Block(item), reader)
               case Raised => Raised
               case Ok(cue) => Append(Listed(cue), BlockCues(SplitOn(core, BLANK_LINE), reader))
  {
    CleanBlock(item, "");
    SplitAtBlankLine(Head(item), "\n" + core);
    SplitAfterNewline(core);
    var parts := SplitOn(core, BLANK_LINE);
    BlockCuesCons(Head(item), ["\n" + parts[0]] + parts[1..], reader);
    BlockCuesCons("\n" + parts[0], parts[1..], reader);
    BlockCuesCons(parts[0], parts[1..], reader);
    assert parts == [parts[0]] + parts[1..];
    NewlineInFront(parts[0], reader);
  }

  lemma NewlineInFront(block: string, reader: Reader)
    ensures BlockCue("\n" + block, reader) == BlockCue(block, reader)
  {
    assert ("\n" + block)[1..] == block;
    assert Strip("\n" + block) == Strip(block);
  }

  lemma TextCueSplits(item: Item, core: string, reader: Reader)
    requires GoodItem(item) && Clean(item) && item.shown != ""
    ensures BlockCues(SplitOn((Head(item) + ['\n'] + item.shown) + BLANK_LINE + core, BLANK_LINE), reader)
            == match BlockCue(Block(item), reader)
               case Raised => Raised
               case Ok(cue) => Append(Listed(cue), BlockCues(SplitOn(core, BLANK_LINE), reader))
  {
    var block := Head(item) + ['\n'] + item.shown;
    ShownStart(item);
    CleanBlock(item, item.shown);
    assert block[|block| - 1] == item.shown[|item.shown| - 1];
    SplitAtBlankLine(block, core);
    BlockCuesCons(block, SplitOn(core, BLANK_LINE), reader);
    StripOfPadded(item);
    BlockIsStripped(item);
    StripFixed(Block(item));
    SameStripSameCue(block, Block(item), reader);
  }

  lemma SameStripSameCue(a: string, b: string, reader: Reader)
    requires Strip(a) == Strip(b)
    ensures BlockCue(a, reader) == BlockCue(b, reader)
  {
  }

  // ---------------------------------------------------------------- no parser returns a blank line

  lemma {:induction false} TailIsPart(parts: seq<string>, k: nat) returns (n: nat)
    requires k <= |parts|
    ensures n <= |Join("\n", parts)| && Join("\n", parts[k..]) == Join("\n", parts)[n..]
  {
    if k == 0 {
      n := 0;
      assert parts[0..] == parts;
    } else if k == |parts| {
      n := |Join("\n", parts)|;
    } else {
      var m := TailIsPart(parts[1..], k - 1);
      n := |parts[0]| + 1 + m;
      assert parts[1..][k - 1..] == parts[k..];
      assert Join("\n", parts) == parts[0] + "\n" + Join("\n", parts[1..]);
    }
  }

  lemma StripIsPart(s: string)
    requires Contains(Strip(s), BLANK_LINE)
    ensures Contains(s, BLANK_LINE)
  {
    var a, b := StripSplits(s);
    ContainsPart(s, BLANK_LINE, a, b);
  }

  lemma TailIsClean(block: string, k: nat)
    requires !Contains(block, BLANK_LINE) && k <= |SplitOn(Strip(block), "\n")|
    ensures !Contains(Strip(Join("\n", SplitOn(Strip(block), "\n")[k..])), BLANK_LINE)
  {
    var lines := SplitOn(Strip(block), "\n");
    JoinOfSplit(Strip(block), "\n");
    var n := TailIsPart(lines, k);
    var tail := Join("\n", lines[k..]);
    if Contains(Strip(tail), BLANK_LINE) {
      StripIsPart(tail);
      assert Strip(block)[n..|Strip(block)|] == tail;
      ContainsPart(Strip(block), BLANK_LINE, n, |Strip(block)|);
      StripIsPart(block);
    }
  }

  lemma StrictTextIsClean(block: string, mark: char)
    requires !Contains(block, BLANK_LINE)
    ensures var r := StrictCue(SplitOn(Strip(block), "\n"), mark);
            r.Ok? && r.value.Some? ==> !Contains(r.value.value.text, BLANK_LINE)
  {
    var lines := SplitOn(Strip(block), "\n");
    if ArrowLine(lines) < |lines| {
      TailIsClean(block, ArrowLine(lines) + 1);
    }
  }

  lemma LooseTextIsClean(block: string)
    requires !Contains(block, BLANK_LINE)
    ensures var r := LooseCue(SplitOn(Strip(block), "\n"));
            r.Ok? && r.value.Some? ==> !Contains(r.value.value.text, BLANK_LINE)
  {
    var lines := SplitOn(Strip(block), "\n");
    if |lines| >= 3 {
      TailIsClean(block, 2);
    }
  }

  lemma BlockTextIsClean(block: string, reader: Reader)
    requires !Contains(block, BLANK_LINE)
    ensures var r := BlockCue(block, reader);
            r.Ok? && r.value.Some? ==> !Contains(r.value.value.text, BLANK_LINE)
  {
    match reader {
      case Strict(mark) => StrictTextIsClean(block, mark);
      case Loose => LooseTextIsClean(block);
    }
  }

  lemma {:induction false} BlockTextsAreClean(blocks: seq<string>, reader: Reader)
    requires forall block | block in blocks :: !Contains(block, BLANK_LINE)
    ensures BlockCues(blocks, reader).Ok? ==>
              forall cue | cue in BlockCues(blocks, reader).value :: !Contains(cue.text, BLANK_LINE)
  {
    if blocks != [] {
      BlockTextIsClean(blocks[0], reader);
      BlockTextsAreClean(blocks[1..], reader);
    }
  }

  /** No parser returns a text with a blank line in it, whatever the file. */
  lemma ParsedTextsAreClean(content: string, reader: Reader)
    ensures ParsedSrt(content, reader).Ok? ==>
              forall cue | cue in ParsedSrt(content, reader).value :: !Contains(cue.text, BLANK_LINE)
  {
    SplitPartsAreFree(Strip(content), BLANK_LINE);
    BlockTextsAreClean(SplitOn(Strip(content), BLANK_LINE), reader);
  }

  // ---------------------------------------------------------------- main results

  /** The parsers that go with a format. */
  predicate Fitting(fmt: Format, reader: Reader) {
    match fmt
    case Srt => reader == Strict(',') || reader == Loose
    case Vtt => reader == Strict('.')
  }

  /** What the lenient parser asks of the times of a cue that is read: no milliseconds below zero. */
  predicate TimeFits(seg: Seg, fmt: Format, speakers: bool, reader: Reader) {
    reader.Loose? && Shown(seg, fmt, speakers) != "" ==> SrtMillis(seg.start) >= 0 && SrtMillis(seg.end) >= 0
  }

  predicate TimesFit(segs: seq<Seg>, fmt: Format, speakers: bool, reader: Reader) {
    forall seg | seg in segs :: TimeFits(seg, fmt, speakers, reader)
  }

  /** The time that a format shows: for WebVTT always the time rounded down to the millisecond; for SRT
      that too, when it is not negative (`Timestamps.SrtShowsFloorIff`). */
  function TimeShown(fmt: Format, t: real): real {
    match fmt
    case Srt => SrtShown(t)
    case Vtt => FloorMs(t)
  }

  /** The segments as they should come back: in order, times as shown, texts stripped, and those
      without text left out. */
  function Expected(segs: seq<Seg>, fmt: Format, speakers: bool): seq<Cue> {
    if segs == [] then []
    else
      var seg, text := segs[0], Strip(Shown(segs[0], fmt, speakers));
      (if text == "" then [] else [Cue(TimeShown(fmt, seg.start), TimeShown(fmt, seg.end), text)])
      + Expected(segs[1..], fmt, speakers)
  }

  lemma ShownIsGood(seg: Seg, fmt: Format, speakers: bool)
    ensures var shown := Shown(seg, fmt, speakers);
            && (shown == "" || shown == Strip(shown) || shown == Strip(shown) + " ")
            && (shown != "" ==> Strip(shown) != "")
  {
    var text, shown := Strip(seg.text), Shown(seg, fmt, speakers);
    var _, _ := StripSplits(seg.text);
    if speakers && seg.speaker.Some? && seg.speaker.value != "" && text == "" && fmt.Srt? {
      var tag := "[" + seg.speaker.value + "]";
      assert shown == "" + tag + " ";
      StripPadded("", tag, " ");
    } else {
      StripFixed(shown);
    }
  }

  lemma TimesRead(t: real, fmt: Format, reader: Reader)
    requires Fitting(fmt, reader)
    ensures IsStampText(TimeIn(fmt, t))
    ensures match reader
            case Strict(mark) => ParseStamp(TimeIn(fmt, t), mark) == Ok(TimeShown(fmt, t))
            case Loose =>
              ParseStampLoosely(TimeIn(fmt, t)) == if SrtMillis(t) >= 0 then Ok(TimeShown(fmt, t)) else Raised
  {
    match fmt {
      case Srt =>
        SrtRoundTrip(t);
        if reader.Loose? {
          LooseReads(t);
        }
      case Vtt =>
        VttRoundTrip(t);
    }
  }

  lemma CueOfItem(item: Item, reader: Reader, start: real, end: real)
    requires match reader
             case Strict(mark) => ParseStamp(item.from, mark) == Ok(start) && ParseStamp(item.to, mark) == Ok(end)
             case Loose => ParseStampLoosely(item.from) == Ok(start) && ParseStampLoosely(item.to) == Ok(end)
    ensures ReadsTimes(item, reader)
    ensures CueOf(item, reader) == if item.shown == "" then Ok(None) else Ok(Some(Cue(start, end, Strip(item.shown))))
  {
  }

  lemma CueRaises(item: Item, reader: Reader)
    requires reader.Loose? && item.shown != ""
    requires ParseStampLoosely(item.from).Raised? || ParseStampLoosely(item.to).Raised?
    ensures CueOf(item, reader) == Raised
  {
  }

  lemma ItemIsGood(seg: Seg, number: nat, fmt: Format, speakers: bool)
    ensures GoodItem(ItemOf(seg, number, fmt, speakers))
  {
    var reader := if fmt.Srt? then Strict(',') else Strict('.');
    TimesRead(seg.start, fmt, reader);
    TimesRead(seg.end, fmt, reader);
    ShownIsGood(seg, fmt, speakers);
  }

  /** What a parser makes of the block of a segment. */
  lemma ItemReads(seg: Seg, number: nat, fmt: Format, speakers: bool, reader: Reader)
    requires Fitting(fmt, reader)
    ensures var item, text := ItemOf(seg, number, fmt, speakers), Strip(Shown(seg, fmt, speakers));
            && GoodItem(item) && ReadsTimes(item, reader)
            && CueOf(item, reader) == if !TimeFits(seg, fmt, speakers, reader) then Raised
                                      else if text == "" then Ok(None)
                                      else Ok(Some(Cue(TimeShown(fmt, seg.start), TimeShown(fmt, seg.end), text)))
  {
    hide ParseStamp, ParseStampLoosely, TimeShown, SrtMillis, TimeIn;
    var item := ItemOf(seg, number, fmt, speakers);
    var start, end := TimeShown(fmt, seg.start), TimeShown(fmt, seg.end);
    ItemIsGood(seg, number, fmt, speakers);
    ShownIsGood(seg, fmt, speakers);
    TimesRead(seg.start, fmt, reader);
    TimesRead(seg.end, fmt, reader);
    if item.shown == "" {
    } else if TimeFits(seg, fmt, speakers, reader) {
      CueOfItem(item, reader, start, end);
    } else {
      CueRaises(item, reader);
    }
  }

  lemma KeptOfCons(items: seq<Item>, reader: Reader, cue: Option<Cue>, rest: seq<Cue>)
    requires items != [] && CueOf(items[0], reader) == Ok(cue) && KeptCues(items[1..], reader) == Ok(rest)
    ensures KeptCues(items, reader) == Ok(Listed(cue) + rest)
  {
  }

  lemma KeptRaises(items: seq<Item>, reader: Reader)
    requires items != [] && (CueOf(items[0], reader).Raised? || KeptCues(items[1..], reader).Raised?)
    ensures KeptCues(items, reader) == Raised
  {
  }

  /** The blocks of a file without blank lines in its texts, read one by one. */
  function Reread(segs: seq<Seg>, fmt: Format, speakers: bool, reader: Reader): Result<seq<Cue>> {
    if TimesFit(segs, fmt, speakers, reader) then Ok(Expected(segs, fmt, speakers)) else Raised
  }

  lemma RereadCons(segs: seq<Seg>, fmt: Format, speakers: bool, reader: Reader)
    requires segs != []
    ensures TimesFit(segs, fmt, speakers, reader) <==>
              TimeFits(segs[0], fmt, speakers, reader) && TimesFit(segs[1..], fmt, speakers, reader)
  {
    hide TimeFits;
    assert segs == [segs[0]] + segs[1..];
  }

  lemma {:induction false} KeptIsExpected(segs: seq<Seg>, number: nat, fmt: Format, speakers: bool, reader: Reader)
    requires Fitting(fmt, reader)
    ensures var items := Items(segs, number, fmt, speakers);
            && KeptCues(items, reader) == Reread(segs, fmt, speakers, reader)
            && forall item | item in items :: GoodItem(item) && ReadsTimes(item, reader)
  {
    hide TimeFits, TimesFit, CueOf, ItemOf, GoodItem, ReadsTimes;
    if segs == [] {
      assert TimesFit(segs, fmt, speakers, reader) by { NothingMisfits(fmt, speakers, reader); }
    } else {
      var item := ItemOf(segs[0], number, fmt, speakers);
      ItemReads(segs[0], number, fmt, speakers, reader);
      KeptIsExpected(segs[1..], number + 1, fmt, speakers, reader);
      RereadCons(segs, fmt, speakers, reader);
      var items := Items(segs, number, fmt, speakers);
      assert items[0] == item && items[1..] == Items(segs[1..], number + 1, fmt, speakers);
      if CueOf(item, reader).Raised? || KeptCues(items[1..], reader).Raised? {
        KeptRaises(items, reader);
      } else {
        KeptOfCons(items, reader, CueOf(item, reader).value, Expected(segs[1..], fmt, speakers));
      }
    }
  }

  lemma NothingMisfits(fmt: Format, speakers: bool, reader: Reader)
    ensures TimesFit([], fmt, speakers, reader)
  {
  }

  predicate NoBlankLines(segs: seq<Seg>, fmt: Format, speakers: bool) {
    forall seg | seg in segs :: !Contains(Shown(seg, fmt, speakers), BLANK_LINE)
  }

  /** What a parser makes of the printed file: a VTT file has its own parser, and an SRT file two. */
  function ReadBack(segs: seq<Seg>, fmt: Format, speakers: bool, reader: Reader): Result<seq<Cue>> {
    match fmt
    case Srt => ParsedSrt(Printed(segs, Srt, speakers), reader)
    case Vtt => ParsedVtt(Printed(segs, Vtt, speakers))
  }

  lemma ParsedCore(items: seq<Item>, reader: Reader)
    requires items != [] && Readable(items, reader)
    ensures ParsedSrt(Join("\n", CueLines(items)), reader) == KeptCues(items, reader)
    ensures ParsedSrt(Core(items), reader) == KeptCues(items, reader)
  {
    var pad := PrintedCore(items);
    CoreIsStripped(items);
    assert "" + Core(items) + pad == Core(items) + pad;
    StripPadded("", Core(items), pad);
    StripFixed(Core(items));
    CoreCues(items, reader);
  }

  /** The WebVTT header goes first and is skipped. */
  lemma HeaderIsSkipped(core: string, pad: string)
    requires IsStripped(core) && core != "" && AllSpace(pad)
    ensures ParsedVtt("WEBVTT" + BLANK_LINE + core + pad) == ParsedSrt(core, Strict('.'))
  {
    var body := "WEBVTT" + BLANK_LINE + core;
    assert body + pad == "" + body + pad;
    assert body[0] == 'W' && body[|body| - 1] == core[|core| - 1];
    StripPadded("", body, pad);
    NoBlankLineInHeader();
    FindBlankLine("WEBVTT", core);
    assert body[..6] == "WEBVTT" && body[8..] == core;
  }

  lemma ParsedVttCore(items: seq<Item>)
    requires items != [] && Readable(items, Strict('.'))
    ensures ParsedVtt(Join("\n", ["WEBVTT", ""] + CueLines(items))) == KeptCues(items, Strict('.'))
  {
    ParsedCore(items, Strict('.'));
    var pad := PrintedCore(items);
    CoreIsStripped(items);
    HeaderLines(CueLines(items));
    HeaderIsSkipped(Core(items), pad);
    assert "WEBVTT" + BLANK_LINE + Core(items) + pad == "WEBVTT" + BLANK_LINE + (Core(items) + pad);
  }

  lemma HeaderLines(lines: seq<string>)
    ensures Join("\n", ["WEBVTT", ""] + lines)
            == if lines == [] then "WEBVTT\n" else "WEBVTT" + BLANK_LINE + Join("\n", lines)
  {
    assert ["WEBVTT", ""] + lines == ["WEBVTT"] + ([""] + lines);
    JoinCons("WEBVTT", [""] + lines);
    JoinCons("", lines);
  }

  lemma NoBlankLineInHeader()
    ensures !Contains("WEBVTT", BLANK_LINE) && !EndsLine("WEBVTT")
  {
    forall k ensures !OccursAt("WEBVTT", BLANK_LINE, k) {
      if OccursAt("WEBVTT", BLANK_LINE, k) {
        OccursBrings("WEBVTT", BLANK_LINE, k, 0);
      }
    }
  }

  lemma EmptyFiles(speakers: bool, reader: Reader)
    ensures ParsedSrt(Printed([], Srt, speakers), reader) == Ok([])
    ensures ParsedVtt(Printed([], Vtt, speakers)) == Ok([])
  {
    hide ParsedSrt, ParsedVtt;
    NothingPrinted(speakers);
    EmptySrt(reader);
    OnlyHeader();
  }

  lemma NothingPrinted(speakers: bool)
    ensures Printed([], Srt, speakers) == "" && Printed([], Vtt, speakers) == "WEBVTT\n"
  {
    HeaderLines([]);
    assert CueLines(Items([], 1, Vtt, speakers)) == [] && ["WEBVTT", ""] + [] == ["WEBVTT", ""];
  }

  lemma EmptySrt(reader: Reader)
    ensures ParsedSrt("", reader) == Ok([])
  {
    hide SplitOn, StrictCue, LooseCue;
    SplitAbsent("", BLANK_LINE);
    EmptyBlock(reader);
    var blocks := [""];
    assert Strip("") == "" && blocks == [""] + [];
    BlockCuesCons("", [], reader);
    AppendNone(BlockCues([], reader));
  }

  lemma EmptyBlock(reader: Reader)
    ensures BlockCue("", reader) == Ok(None)
  {
    assert Strip("") == "";
    SplitAbsent("", "\n");
  }

  lemma OnlyHeader()
    ensures ParsedVtt("WEBVTT\n") == Ok([])
  {
    hide ParsedSrt;
    StripPadded("", "WEBVTT", "\n");
    assert "" + "WEBVTT" + "\n" == "WEBVTT\n";
    NoBlankLineInHeader();
  }

  lemma {:induction false} ItemsAreClean(segs: seq<Seg>, number: nat, fmt: Format, speakers: bool)
    requires NoBlankLines(segs, fmt, speakers)
    ensures forall item | item in Items(segs, number, fmt, speakers) :: Clean(item)
  {
    if segs != [] {
      assert segs[0] in segs;
      ItemsAreClean(segs[1..], number + 1, fmt, speakers);
      var items := Items(segs, number, fmt, speakers);
      assert items[0] == ItemOf(segs[0], number, fmt, speakers);
      assert items[1..] == Items(segs[1..], number + 1, fmt, speakers);
      assert items == [items[0]] + items[1..];
    }
  }

  /** Printing and then parsing returns the segments, for every list of segments whose shown texts have
      no blank line; only the lenient parser raises, when the milliseconds of a shown time are below zero. */
  lemma ReadsBack(segs: seq<Seg>, fmt: Format, speakers: bool, reader: Reader)
    requires Fitting(fmt, reader) && NoBlankLines(segs, fmt, speakers)
    ensures ReadBack(segs, fmt, speakers, reader)
            == if TimesFit(segs, fmt, speakers, reader) then Ok(Expected(segs, fmt, speakers)) else Raised
  {
    var items := Items(segs, 1, fmt, speakers);
    KeptIsExpected(segs, 1, fmt, speakers, reader);
    ItemsAreClean(segs, 1, fmt, speakers);
    if segs == [] {
      EmptyFiles(speakers, reader);
    } else {
      assert Readable(items, reader);
      ReadsBackItems(segs, items, fmt, speakers, reader);
    }
  }

  lemma ReadsBackItems(segs: seq<Seg>, items: seq<Item>, fmt: Format, speakers: bool, reader: Reader)
    requires Fitting(fmt, reader) && items == Items(segs, 1, fmt, speakers)
    requires items != [] && Readable(items, reader)
    ensures ReadBack(segs, fmt, speakers, reader) == KeptCues(items, reader)
  {
    match fmt
    case Srt =>
      assert [] + CueLines(items) == CueLines(items);
      ParsedCore(items, reader);
    case Vtt =>
      ParsedVttCore(items);
  }

  lemma BlankLineIsExpected(segs: seq<Seg>, i: nat, fmt: Format, speakers: bool)
    requires i < |segs| && Contains(Shown(segs[i], fmt, speakers), BLANK_LINE)
    ensures exists cue :: cue in Expected(segs, fmt, speakers) && Contains(cue.text, BLANK_LINE)
  {
    if i > 0 {
      BlankLineIsExpected(segs[1..], i - 1, fmt, speakers);
      var cue :| cue in Expected(segs[1..], fmt, speakers) && Contains(cue.text, BLANK_LINE);
      assert cue in Expected(segs, fmt, speakers);
    } else {
      var shown := Shown(segs[0], fmt, speakers);
      var text, k := Strip(shown), Find(shown, BLANK_LINE);
      ShownIsGood(segs[0], fmt, speakers);
      NewlinePair(shown, k);
      assert k + 2 <= |text|;
      assert shown[..|text|] == text;
      assert text[k..k + 2] == shown[k..k + 2];
      assert OccursAt(text, BLANK_LINE, k);
      var cue := Cue(TimeShown(fmt, segs[0].start), TimeShown(fmt, segs[0].end), text);
      assert cue in Expected(segs, fmt, speakers);
    }
  }

  /** No file parses to a text with a blank line, for any of the three parsers. */
  lemma ReadBackIsClean(segs: seq<Seg>, fmt: Format, speakers: bool, reader: Reader)
    ensures ReadBack(segs, fmt, speakers, reader).Ok? ==>
              forall cue | cue in ReadBack(segs, fmt, speakers, reader).value :: !Contains(cue.text, BLANK_LINE)
  {
    hide BlockCues, SplitOn, Printed, Strip;
    var content := Printed(segs, fmt, speakers);
    ParsedTextsAreClean(content, reader);
    var body := Strip(content);
    var idx := Find(body, BLANK_LINE);
    if idx != -1 {
      ParsedTextsAreClean(body[idx + 2..], Strict('.'));
    }
    ParsedTextsAreClean(body, Strict('.'));
  }

  /** Parsing undoes printing exactly when no shown text has a blank line in it and, for the lenient parser,
      no shown time has milliseconds below zero. */
  lemma ReadsBackIff(segs: seq<Seg>, fmt: Format, speakers: bool, reader: Reader)
    requires Fitting(fmt, reader)
    ensures ReadBack(segs, fmt, speakers, reader) == Ok(Expected(segs, fmt, speakers))
            <==> NoBlankLines(segs, fmt, speakers) && TimesFit(segs, fmt, speakers, reader)
  {
    if NoBlankLines(segs, fmt, speakers) {
      ReadsBack(segs, fmt, speakers, reader);
    } else {
      var i :| 0 <= i < |segs| && Contains(Shown(segs[i], fmt, speakers), BLANK_LINE);
      BlankLineIsExpected(segs, i, fmt, speakers);
      ReadBackIsClean(segs, fmt, speakers, reader);
    }
  }

  // ---------------------------------------------------------------- break, print, parse

  function BrokenSeg(seg: Seg, maxChars: nat, maxLines: int): Seg {
    seg.(text := Broken(seg.text, maxChars, maxLines))
  }

  /** What `format_segments_with_linebreaks` returns. */
  function Formatted(segs: seq<Seg>, maxChars: nat, maxLines: int): (r: seq<Seg>)
    ensures |r| == |segs|
    ensures forall i | 0 <= i < |segs| :: r[i] == BrokenSeg(segs[i], maxChars, maxLines)
  {
    seq(|segs|, i requires 0 <= i < |segs| => BrokenSeg(segs[i], maxChars, maxLines))
  }

  method FormatSegments(segs: seq<Seg>, maxChars: nat, maxLines: int) returns (r: seq<Seg>)
    ensures r == Formatted(segs, maxChars, maxLines)
    ensures |r| == |segs|
    ensures forall i | 0 <= i < |segs| ::
              && r[i].text == Broken(segs[i].text, maxChars, maxLines)
              && r[i].start == segs[i].start && r[i].end == segs[i].end && r[i].speaker == segs[i].speaker
  {
    r := [];
    for i := 0 to |segs|
      invariant |r| == i && forall k | 0 <= k < i :: r[k] == BrokenSeg(segs[k], maxChars, maxLines)
    {
      var text := BreakLine(segs[i].text, maxChars, maxLines);
      r := r + [segs[i].(text := text)];
    }
  }

  lemma {:induction false} CleanLinesAreClean(a: string)
    requires IsStripped(a) && 1 <= |SplitOn(a, "\n")| <= 2
    requires forall line | line in SplitOn(a, "\n") :: line != "" && OneLine(line)
    ensures !Contains(a, BLANK_LINE)
  {
    var lines := SplitOn(a, "\n");
    JoinOfSplit(a, "\n");
    assert lines[0] in lines;
    var n := |lines[0]|;
    assert |lines| == 1 ==> a == lines[0];
    if |lines| == 2 {
      assert lines[1] in lines && lines[1..] == [lines[1]];
      assert a == lines[0] + "\n" + lines[1];
      assert forall j | n < j < |a| :: a[j] == lines[1][j - n - 1];
    }
    assert forall j | 0 <= j < n :: a[j] == lines[0][j];
    forall k ensures !OccursAt(a, BLANK_LINE, k) {
      if OccursAt(a, BLANK_LINE, k) {
        NewlinePair(a, k);
      }
    }
  }

  /** A text of one line, broken, is shown as it is and has no blank line. */
  lemma BrokenIsClean(seg: Seg, maxChars: nat, maxLines: int, fmt: Format)
    requires maxLines >= 2 && OneLine(Strip(seg.text))
    ensures var shown := Shown(BrokenSeg(seg, maxChars, maxLines), fmt, false);
            && shown == Broken(seg.text, maxChars, maxLines) && Strip(shown) == shown
            && !Contains(shown, BLANK_LINE)
            && (shown == "" <==> Strip(seg.text) == "")
  {
    var r := Broken(seg.text, maxChars, maxLines);
    if Strip(seg.text) == "" {
      assert r == "";
      SplitAbsent("", BLANK_LINE);
    } else {
      LinesAreClean(seg.text, maxChars, maxLines);
      StripFixed(r);
      CleanLinesAreClean(r);
    }
  }

  function BrokenCue(seg: Seg, maxChars: nat, maxLines: int, fmt: Format): Cue {
    Cue(TimeShown(fmt, seg.start), TimeShown(fmt, seg.end), Broken(seg.text, maxChars, maxLines))
  }

  function BrokenCues(segs: seq<Seg>, maxChars: nat, maxLines: int, fmt: Format): (cues: seq<Cue>)
    ensures |cues| == |segs|
    ensures forall i | 0 <= i < |segs| :: cues[i] == BrokenCue(segs[i], maxChars, maxLines, fmt)
  {
    seq(|segs|, i requires 0 <= i < |segs| => BrokenCue(segs[i], maxChars, maxLines, fmt))
  }

  lemma ShownBroken(seg: Seg, maxChars: nat, maxLines: int, fmt: Format)
    requires maxLines >= 2 && OneLine(Strip(seg.text)) && Strip(seg.text) != ""
    ensures var broken := BrokenSeg(seg, maxChars, maxLines);
            var text := Strip(Shown(broken, fmt, false));
            text != "" && Cue(TimeShown(fmt, broken.start), TimeShown(fmt, broken.end), text)
                          == BrokenCue(seg, maxChars, maxLines, fmt)
  {
    BrokenIsClean(seg, maxChars, maxLines, fmt);
  }

  lemma FormattedTail(segs: seq<Seg>, maxChars: nat, maxLines: int, fmt: Format)
    requires segs != []
    ensures var formatted := Formatted(segs, maxChars, maxLines);
            && formatted[0] == BrokenSeg(segs[0], maxChars, maxLines)
            && formatted[1..] == Formatted(segs[1..], maxChars, maxLines)
    ensures BrokenCues(segs, maxChars, maxLines, fmt)
            == [BrokenCue(segs[0], maxChars, maxLines, fmt)] + BrokenCues(segs[1..], maxChars, maxLines, fmt)
  {
  }

  lemma {:induction false} ExpectedOfBroken(segs: seq<Seg>, maxChars: nat, maxLines: int, fmt: Format)
    requires maxLines >= 2 && forall seg | seg in segs :: OneLine(Strip(seg.text)) && Strip(seg.text) != ""
    ensures Expected(Formatted(segs, maxChars, maxLines), fmt, false) == BrokenCues(segs, maxChars, maxLines, fmt)
  {
    if segs == [] {
      assert BrokenCues(segs, maxChars, maxLines, fmt) == [];
    } else {
      assert segs[0] in segs;
      ExpectedOfBroken(segs[1..], maxChars, maxLines, fmt);
      ShownBroken(segs[0], maxChars, maxLines, fmt);
      FormattedTail(segs, maxChars, maxLines, fmt);
    }
  }

  /** One-line texts, broken on two lines or more and printed without labels, come back segment for
      segment with the broken text. */
  lemma BrokenFilesReadBack(segs: seq<Seg>, maxChars: nat, maxLines: int, fmt: Format, reader: Reader)
    requires Fitting(fmt, reader) && TimesFit(segs, fmt, false, reader) && maxLines >= 2
    requires forall seg | seg in segs :: OneLine(Strip(seg.text)) && Strip(seg.text) != ""
    ensures var r := ReadBack(Formatted(segs, maxChars, maxLines), fmt, false, reader);
            && r.Ok? && |r.value| == |segs|
            && forall i | 0 <= i < |segs| :: r.value[i] == BrokenCue(segs[i], maxChars, maxLines, fmt)
  {
    var broken := Formatted(segs, maxChars, maxLines);
    forall seg | seg in broken
      ensures !Contains(Shown(seg, fmt, false), BLANK_LINE) && TimeFits(seg, fmt, false, reader)
    {
      var i :| 0 <= i < |segs| && seg == broken[i];
      assert segs[i] in segs;
      BrokenFits(segs[i], maxChars, maxLines, fmt, reader);
    }
    ReadsBack(broken, fmt, false, reader);
    ExpectedOfBroken(segs, maxChars, maxLines, fmt);
  }

  lemma BrokenFits(seg: Seg, maxChars: nat, maxLines: int, fmt: Format, reader: Reader)
    requires maxLines >= 2 && OneLine(Strip(seg.text)) && Strip(seg.text) != "" && TimeFits(seg, fmt, false, reader)
    ensures var broken := BrokenSeg(seg, maxChars, maxLines);
            !Contains(Shown(broken, fmt, false), BLANK_LINE) && TimeFits(broken, fmt, false, reader)
  {
    BrokenIsClean(seg, maxChars, maxLines, fmt);
    assert Shown(seg, fmt, false) != "";
  }

  /** On every printed file without blank lines the two SRT parsers return the same cues exactly if no shown
      time has milliseconds below zero; otherwise the lenient one raises. */
  lemma SrtParsersAgreeIff(segs: seq<Seg>, speakers: bool)
    requires NoBlankLines(segs, Srt, speakers)
    ensures ParsedSrt(Printed(segs, Srt, speakers), Loose) == ParsedSrt(Printed(segs, Srt, speakers), Strict(','))
            <==> TimesFit(segs, Srt, speakers, Loose)
  {
    ReadsBack(segs, Srt, speakers, Loose);
    ReadsBack(segs, Srt, speakers, Strict(','));
  }
}
