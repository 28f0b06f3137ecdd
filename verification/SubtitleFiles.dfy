/**
 Subtitle files: the two printers and three parsers of app/utils/srt.py and app/routes/subtitles.py.

 Printing is written as the lines it joins (`CueLines`), parsing as a function of the blocks between
 blank lines (`BlockCue`). When parsing undoes printing is proved in `RoundTrips`.
 */
module SubtitleFiles {
  import opened PyText
  import opened Numerals
  import opened Timestamps

  datatype Seg = Seg(start: real, end: real, text: string, speaker: Option<string>)

  datatype Cue = Cue(start: real, end: real, text: string)

  datatype Format = Srt | Vtt

  /** `parse_srt` and `parse_vtt` differ from each other in the mark before the milliseconds; the
      parser of the editing routes takes the second line for the times and reads it leniently. */
  datatype Reader = Strict(mark: char) | Loose

  const ARROW := " --> "
  const BLANK_LINE := "\n\n"

  // ---------------------------------------------------------------- printing

  /** The text of a cue: stripped, with the speaker's label in front when there is one to show. */
  function Shown(seg: Seg, fmt: Format, speakers: bool): string {
    var text := Strip(seg.text);
    if speakers && seg.speaker.Some? && seg.speaker.value != "" then
      match fmt
      case Srt => "[" + seg.speaker.value + "] " + text
      case Vtt => "<v " + seg.speaker.value + ">" + text
    else text
  }

  function TimeIn(fmt: Format, t: real): string {
    match fmt
    case Srt => SrtTimestamp(t)
    case Vtt => VttTimestamp(t)
  }

  /** A cue as it is printed: its number, its two times and its text. */
  datatype Item = Item(index: string, from: string, to: string, shown: string)

  function ItemOf(seg: Seg, number: nat, fmt: Format, speakers: bool): Item {
    Item(Digits(number), TimeIn(fmt, seg.start), TimeIn(fmt, seg.end), Shown(seg, fmt, speakers))
  }

  /** The cues of a file, numbered from the first. */
  function Items(segs: seq<Seg>, number: nat, fmt: Format, speakers: bool): (items: seq<Item>)
    ensures |items| == |segs|
  {
    if segs == [] then []
    else [ItemOf(segs[0], number, fmt, speakers)] + Items(segs[1..], number + 1, fmt, speakers)
  }

  function ItemLines(item: Item): seq<string> {
    [item.index, item.from + ARROW + item.to, item.shown, ""]
  }

  function CueLines(items: seq<Item>): seq<string> {
    if items == [] then [] else ItemLines(items[0]) + CueLines(items[1..])
  }

  /** What `segments_to_srt` and `segments_to_vtt` return. */
  function Printed(segs: seq<Seg>, fmt: Format, speakers: bool): string {
    var header := if fmt.Vtt? then ["WEBVTT", ""] else [];
    Join("\n", header + CueLines(Items(segs, 1, fmt, speakers)))
  }

  lemma {:induction false} CueLinesSnoc(items: seq<Item>, item: Item)
    ensures CueLines(items + [item]) == CueLines(items) + ItemLines(item)
  {
    if items == [] {
      assert [item][1..] == [] && [] + [item] == [item];
    } else {
      assert (items + [item])[1..] == items[1..] + [item];
      CueLinesSnoc(items[1..], item);
    }
  }

  lemma {:induction false} ItemAt(segs: seq<Seg>, number: nat, fmt: Format, speakers: bool, i: nat, seg: Seg, n: nat)
    requires i < |segs| && seg == segs[i] && n == number + i
    ensures Items(segs, number, fmt, speakers)[i] == ItemOf(seg, n, fmt, speakers)
    decreases i
  {
    hide ItemOf;
    if i > 0 {
      ItemAt(segs[1..], number + 1, fmt, speakers, i - 1, seg, n);
    }
  }

  lemma OneMoreCue(items: seq<Item>, i: nat)
    requires i < |items|
    ensures CueLines(items[..i + 1]) == CueLines(items[..i]) + ItemLines(items[i])
  {
    assert items[..i + 1] == items[..i] + [items[i]];
    CueLinesSnoc(items[..i], items[i]);
  }

  method PrintSegments(segs: seq<Seg>, fmt: Format, speakers: bool) returns (content: string)
    ensures content == Printed(segs, fmt, speakers)
  {
    var lines := PrintCues(segs, fmt, speakers);
    content := Join("\n", (if fmt.Vtt? then ["WEBVTT", ""] else []) + lines);
  }

  method PrintCues(segs: seq<Seg>, fmt: Format, speakers: bool) returns (lines: seq<string>)
    ensures lines == CueLines(Items(segs, 1, fmt, speakers))
  {
    lines := [];
    ghost var items := Items(segs, 1, fmt, speakers);
    var i := 0;
    while i < |segs|
      invariant 0 <= i <= |segs|
      invariant lines == CueLines(items[..i])
    {
      var seg, number := segs[i], i + 1;
      var cue := PrintCue(seg, number, fmt, speakers);
      ItemAt(segs, 1, fmt, speakers, i, seg, number);
      OneMoreCue(items, i);
      lines := lines + cue;
      i := i + 1;
    }
    assert items[..i] == items;
  }

  /** One turn of the printing loop: the four lines of a cue. */
  method PrintCue(seg: Seg, number: nat, fmt: Format, speakers: bool) returns (lines: seq<string>)
    ensures lines == ItemLines(ItemOf(seg, number, fmt, speakers))
  {
    var start := TimeIn(fmt, seg.start);
    var end := TimeIn(fmt, seg.end);
    var text := Strip(seg.text);
    if speakers && seg.speaker.Some? && seg.speaker.value != "" {
      text := if fmt.Srt? then "[" + seg.speaker.value + "] " + text else "<v " + seg.speaker.value + ">" + text;
    }
    lines := [Digits(number), start + ARROW + end, text, ""];
  }

  // ---------------------------------------------------------------- parsing

  /** The first line that contains the arrow, or the number of lines. */
  function ArrowLine(lines: seq<string>): (i: nat)
    ensures i <= |lines|
    ensures i < |lines| ==> Contains(lines[i], ARROW)
    ensures forall k | 0 <= k < i :: !Contains(lines[k], ARROW)
  {
    if lines == [] || Contains(lines[0], ARROW) then 0 else 1 + ArrowLine(lines[1..])
  }

  function CueFrom(start: Result<real>, end: Result<real>, text: string): Result<Option<Cue>> {
    if start.Raised? || end.Raised? then Raised
    else Ok(Some(Cue(start.value, end.value, text)))
  }

  function StrictCue(lines: seq<string>, mark: char): Result<Option<Cue>> {
    var at := ArrowLine(lines);
    if |lines| < 2 || at == |lines| then Ok(None)
    else
      var parts := SplitOn(lines[at], ARROW);
      if |parts| != 2 then Ok(None)
      else
        var text := Strip(Join("\n", lines[at + 1..]));
        var cue := CueFrom(ParseStamp(parts[0], mark), ParseStamp(parts[1], mark), text);
        if cue.Ok? && text == "" then Ok(None) else cue
  }

  function LooseCue(lines: seq<string>): Result<Option<Cue>> {
    if |lines| < 3 then Ok(None)
    else
      var parts := SplitOn(lines[1], ARROW);
      if |parts| != 2 then Ok(None)
      else
        CueFrom(ParseStampLoosely(Strip(parts[0])), ParseStampLoosely(Strip(parts[1])), Strip(Join("\n", lines[2..])))
  }

  /** The cue of one block, none when the block is skipped, or an exception. */
  function BlockCue(block: string, reader: Reader): Result<Option<Cue>> {
    match reader
    case Strict(mark) => StrictCue(SplitOn(Strip(block), "\n"), mark)
    case Loose => LooseCue(SplitOn(Strip(block), "\n"))
  }

  /** The cues found so far followed by what the rest of the parse gives. */
  function Append(cues: seq<Cue>, rest: Result<seq<Cue>>): Result<seq<Cue>> {
    match rest
    case Raised => Raised
    case Ok(more) => Ok(cues + more)
  }

  function Listed(cue: Option<Cue>): seq<Cue> {
    if cue.Some? then [cue.value] else []
  }

  /** The cues of a list of blocks; the first exception ends the parse. */
  function BlockCues(blocks: seq<string>, reader: Reader): Result<seq<Cue>> {
    if blocks == [] then Ok([])
    else
      match BlockCue(blocks[0], reader)
      case Raised => Raised
      case Ok(cue) => Append(Listed(cue), BlockCues(blocks[1..], reader))
  }

  lemma AppendTwice(a: seq<Cue>, b: seq<Cue>, rest: Result<seq<Cue>>)
    ensures Append(a, Append(b, rest)) == Append(a + b, rest)
  {
    if rest.Ok? {
      assert a + (b + rest.value) == a + b + rest.value;
    }
  }

  /** What `parse_srt` and the parser of the editing routes return. */
  function ParsedSrt(content: string, reader: Reader): Result<seq<Cue>> {
    BlockCues(SplitOn(Strip(content), BLANK_LINE), reader)
  }

  /** What `parse_vtt` returns. */
  function ParsedVtt(content: string): Result<seq<Cue>> {
    var body := Strip(content);
    if StartsWith(body, "WEBVTT") then
      var idx := Find(body, BLANK_LINE);
      if idx == -1 then Ok([])
      else ParsedSrt(body[idx + 2..], Strict('.'))
    else ParsedSrt(body, Strict('.'))
  }

  method ParseSrt(content: string, reader: Reader) returns (r: Result<seq<Cue>>)
    ensures r == ParsedSrt(content, reader)
  {
    r := ParseBlocks(SplitOn(Strip(content), BLANK_LINE), reader);
  }

  lemma AppendNone(rest: Result<seq<Cue>>)
    ensures Append([], rest) == rest
  {
    if rest.Ok? {
      assert [] + rest.value == rest.value;
    }
  }

  lemma NextBlock(segments: seq<Cue>, blocks: seq<string>, i: nat, reader: Reader)
    requires i < |blocks|
    ensures Append(segments, BlockCues(blocks[i..], reader)) ==
              match BlockCue(blocks[i], reader)
              case Raised => Raised
              case Ok(cue) => Append(segments + Listed(cue), BlockCues(blocks[i + 1..], reader))
  {
    assert blocks[i..][0] == blocks[i] && blocks[i..][1..] == blocks[i + 1..];
    var cue := BlockCue(blocks[i], reader);
    if cue.Ok? {
      AppendTwice(segments, Listed(cue.value), BlockCues(blocks[i + 1..], reader));
    }
  }

  method ParseBlocks(blocks: seq<string>, reader: Reader) returns (r: Result<seq<Cue>>)
    ensures r == BlockCues(blocks, reader)
  {
    var segments: seq<Cue> := [];
    var i := 0;
    assert blocks[0..] == blocks;
    AppendNone(BlockCues(blocks, reader));
    while i < |blocks|
      invariant 0 <= i <= |blocks|
      invariant BlockCues(blocks, reader) == Append(segments, BlockCues(blocks[i..], reader))
    {
      var cue := ParseBlock(blocks[i], reader);
      NextBlock(segments, blocks, i, reader);
      if cue.Raised? {
        return Raised;
      }
      segments := segments + Listed(cue.value);
      i := i + 1;
    }
    assert blocks[i..] == [] && segments + [] == segments;
    r := Ok(segments);
  }

  method ParseBlock(block: string, reader: Reader) returns (cue: Result<Option<Cue>>)
    ensures cue == BlockCue(block, reader)
  {
    var lines := SplitOn(Strip(block), "\n");
    match reader {
      case Strict(mark) => cue := ParseStrictly(lines, mark);
      case Loose => cue := ParseLoosely(lines);
    }
  }

  /** One turn of the loop of `parse_srt` and `parse_vtt`. */
  method ParseStrictly(lines: seq<string>, mark: char) returns (cue: Result<Option<Cue>>)
    ensures cue == StrictCue(lines, mark)
  {
    if |lines| < 2 {
      return Ok(None);
    }
    var at := FindArrow(lines);
    if at == |lines| {
      return Ok(None);
    }
    var parts := SplitOn(lines[at], ARROW);
    if |parts| != 2 {
      return Ok(None);
    }
    var start, end := ParseStamp(parts[0], mark), ParseStamp(parts[1], mark);
    if start.Raised? || end.Raised? {
      return Raised;
    }
    var text := Strip(Join("\n", lines[at + 1..]));
    cue := if text != "" then Ok(Some(Cue(start.value, end.value, text))) else Ok(None);
  }

  method FindArrow(lines: seq<string>) returns (at: nat)
    ensures at == ArrowLine(lines)
  {
    at := 0;
    while at < |lines| && !Contains(lines[at], ARROW)
      invariant 0 <= at <= |lines|
      invariant forall k | 0 <= k < at :: !Contains(lines[k], ARROW)
    {
      at := at + 1;
    }
  }

  /** One turn of the loop of the parser of the editing routes. */
  method ParseLoosely(lines: seq<string>) returns (cue: Result<Option<Cue>>)
    ensures cue == LooseCue(lines)
  {
    if |lines| < 3 {
      return Ok(None);
    }
    var parts := SplitOn(lines[1], ARROW);
    if |parts| != 2 {
      return Ok(None);
    }
    var start, end := ParseStampLoosely(Strip(parts[0])), ParseStampLoosely(Strip(parts[1]));
    if start.Raised? || end.Raised? {
      return Raised;
    }
    cue := Ok(Some(Cue(start.value, end.value, Strip(Join("\n", lines[2..])))));
  }

  method ParseVtt(content: string) returns (r: Result<seq<Cue>>)
    ensures r == ParsedVtt(content)
  {
    var stripped := Strip(content);
    var body := stripped;
    if StartsWith(stripped, "WEBVTT") {
      var idx := Find(stripped, BLANK_LINE);
      if idx == -1 {
        return Ok([]);
      }
      body := stripped[idx + 2..];
    }
    r := ParseSrt(body, Strict('.'));
  }
}
