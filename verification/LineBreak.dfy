/**
 `break_line` of app/utils/subtitle_format.py: fit a subtitle text on two lines.

 `BreakLine` is the loop as the program runs it. `Broken` is the text it returns, written as the
 rule that applies (`Rule`) and what that rule does to the text (`Render`). The lemmas say when the
 two lines fit, which characters can be lost, and what shape the result has.
 */
module LineBreak {
  import opened PyText

  const SENTENCE_SEPARATORS: seq<string> := [". ", "! ", "? ", "; "]
  const CLAUSE_SEPARATORS: seq<string> := [", ", ": ", " - "]

  /** How a text is broken. `Hard` is the fallback that cuts at the character limit. */
  datatype Break = Whole | Clipped | AtCut(cut: nat) | AtWord(k: nat) | Hard

  // ---------------------------------------------------------------- separators

  /** The place where the text is cut when it is broken at `sep`: the blank that ends `sep`. */
  function CutFor(text: string, sep: string): Option<nat>
    requires sep != ""
  {
    var idx := Find(text, sep);
    if 0 < idx < |text| - 2 then Some(idx + |sep| - 1) else None
  }

  predicate Fits(text: string, cut: nat, maxChars: nat)
    requires cut <= |text|
  {
    |Strip(text[..cut])| <= maxChars && |Strip(text[cut..])| <= maxChars
  }

  predicate EndsInBlank(sep: string) {
    1 <= |sep| <= 3 && sep[|sep| - 1] == ' '
  }

  lemma CutIsBlank(text: string, sep: string)
    requires EndsInBlank(sep) && CutFor(text, sep).Some?
    ensures 0 < CutFor(text, sep).value < |text| && text[CutFor(text, sep).value] == ' '
  {
    var idx := Find(text, sep);
    assert text[idx..idx + |sep|][|sep| - 1] == sep[|sep| - 1];
  }

  /** The cut at the first separator of the list that gives two lines that fit. */
  function FirstFit(text: string, seps: seq<string>, maxChars: nat): (cut: Option<nat>)
    requires forall sep | sep in seps :: EndsInBlank(sep)
    ensures cut.Some? ==> 0 < cut.value < |text| && text[cut.value] == ' ' && Fits(text, cut.value, maxChars)
  {
    if seps == [] then None
    else
      assert EndsInBlank(seps[0]);
      var here := CutFor(text, seps[0]);
      if here.Some? && (CutIsBlank(text, seps[0]); Fits(text, here.value, maxChars)) then here
      else FirstFit(text, seps[1..], maxChars)
  }

  // ---------------------------------------------------------------- the boundary nearest the middle

  /** The number of characters of the first `k` words, each with one blank after it. */
  function Reach(words: seq<string>, k: nat): nat
    requires k <= |words|
  {
    if k == 0 then 0 else Reach(words, k - 1) + |words[k - 1]| + 1
  }

  function Off(words: seq<string>, mid: int, k: nat): nat
    requires k <= |words|
  {
    var d := Reach(words, k) - mid;
    if d < 0 then -d else d
  }

  /** Of the word boundaries 1 to `n`, the first of those nearest to `mid`. */
  function Nearest(words: seq<string>, mid: int, n: nat): (k: nat)
    requires 1 <= n <= |words|
    ensures 1 <= k <= n
    ensures forall j | 1 <= j <= n :: Off(words, mid, k) <= Off(words, mid, j)
    ensures forall j | 1 <= j < k :: Off(words, mid, k) < Off(words, mid, j)
  {
    if n == 1 then 1
    else
      var k := Nearest(words, mid, n - 1);
      if Off(words, mid, n) < Off(words, mid, k) then n else k
  }

  // ---------------------------------------------------------------- the rule and what it does

  /** The rule that applies to a stripped text. */
  function Rule(t: string, maxChars: nat, maxLines: int): Break {
    if |t| <= maxChars then Whole
    else if maxLines < 2 then Clipped
    else
      var sentence := FirstFit(t, SENTENCE_SEPARATORS, maxChars);
      if sentence.Some? then AtCut(sentence.value)
      else
        var clause := FirstFit(t, CLAUSE_SEPARATORS, maxChars);
        if clause.Some? then AtCut(clause.value)
        else
          MiddleRule(t, maxChars)
  }

  /** The rule when no separator will do: the boundary nearest the middle, or the hard break. */
  function MiddleRule(t: string, maxChars: nat): Break
    requires maxChars < |t|
  {
    var words := Words(t);
    if |words| < 2 then Whole
    else
      var k := Nearest(words, |t| / 2, |words| - 1);
      if |Join(" ", words[..k])| <= maxChars && |Join(" ", words[k..])| <= maxChars then AtWord(k)
      else if ' ' in t[..maxChars] then Hard
      else Whole
  }

  function Render(t: string, rule: Break, maxChars: nat): string
    requires rule.AtCut? ==> rule.cut <= |t|
    requires rule.AtWord? ==> rule.k <= |Words(t)|
    requires rule.Hard? ==> maxChars <= |t|
  {
    match rule
    case Whole => t
    case Clipped => BeforeLastSpace(Take(t, maxChars))
    case AtCut(cut) => Strip(t[..cut]) + "\n" + Strip(t[cut..])
    case AtWord(k) => Join(" ", Words(t)[..k]) + "\n" + Join(" ", Words(t)[k..])
    case Hard => BeforeLastSpace(t[..maxChars]) + "\n" + Strip(t[maxChars..])
  }

  /** What `break_line(text, max_chars, max_lines)` returns. */
  function Broken(text: string, maxChars: nat, maxLines: int): string {
    Render(Strip(text), Rule(Strip(text), maxChars, maxLines), maxChars)
  }

  // ---------------------------------------------------------------- the program

  lemma NextSeparator(text: string, seps: seq<string>, i: nat, maxChars: nat)
    requires i < |seps| && forall sep | sep in seps :: EndsInBlank(sep)
    ensures EndsInBlank(seps[i])
    ensures var here := CutFor(text, seps[i]);
            && (here.Some? ==> here.value < |text|)
            && FirstFit(text, seps[i..], maxChars)
               == if here.Some? && Fits(text, here.value, maxChars) then here
                  else FirstFit(text, seps[i + 1..], maxChars)
  {
    assert EndsInBlank(seps[i]) && seps[i..][0] == seps[i] && seps[i..][1..] == seps[i + 1..];
    if CutFor(text, seps[i]).Some? {
      CutIsBlank(text, seps[i]);
    }
  }

  /** The two lines of a cut. */
  function Lines(text: string, cut: nat): string
    requires cut <= |text|
  {
    Strip(text[..cut]) + "\n" + Strip(text[cut..])
  }

  method TrySeparator(text: string, sep: string, maxChars: nat) returns (r: Option<string>)
    requires EndsInBlank(sep)
    requires CutFor(text, sep).Some? ==> CutFor(text, sep).value < |text|
    ensures var here := CutFor(text, sep);
            r == if here.Some? && Fits(text, here.value, maxChars) then Some(Lines(text, here.value)) else None
  {
    var idx := Find(text, sep);
    if 0 < idx < |text| - 2 {
      var line1 := Strip(text[..idx + |sep| - 1]);
      var line2 := Strip(text[idx + |sep| - 1..]);
      if |line1| <= maxChars && |line2| <= maxChars {
        return Some(line1 + "\n" + line2);
      }
    }
    return None;
  }

  /** One pass over a list of separators. */
  method TrySeparators(text: string, seps: seq<string>, maxChars: nat) returns (r: Option<string>)
    requires forall sep | sep in seps :: EndsInBlank(sep)
    ensures match FirstFit(text, seps, maxChars)
            case None => r == None
            case Some(cut) => r == Some(Lines(text, cut))
  {
    var i := 0;
    while i < |seps|
      invariant 0 <= i <= |seps|
      invariant FirstFit(text, seps, maxChars) == FirstFit(text, seps[i..], maxChars)
    {
      NextSeparator(text, seps, i, maxChars);
      r := TrySeparator(text, seps[i], maxChars);
      if r.Some? {
        return;
      }
      i := i + 1;
    }
    return None;
  }

  /** The boundary nearest the middle, the first of equally near ones. */
  method BestSplit(words: seq<string>, length: nat) returns (bestSplit: nat)
    requires |words| >= 2 && Off(words, length / 2, 1) < length
    ensures bestSplit == Nearest(words, length / 2, |words| - 1)
  {
    var mid := length / 2;
    var bestDiff, pos, i := length, 0, 0;
    bestSplit := 0;
    while i < |words| - 1
      invariant 0 <= i <= |words| - 1
      invariant pos == Reach(words, i)
      invariant i == 0 ==> bestSplit == 0 && bestDiff == length
      invariant i > 0 ==> bestSplit == Nearest(words, mid, i) && bestDiff == Off(words, mid, bestSplit)
    {
      pos := pos + |words[i]| + 1;
      assert pos == Reach(words, i + 1);
      var diff := if pos < mid then mid - pos else pos - mid;
      if diff < bestDiff {
        bestDiff := diff;
        bestSplit := i + 1;
      }
      i := i + 1;
    }
  }

  method BreakLine(text: string, maxChars: nat, maxLines: int) returns (r: string)
    ensures r == Broken(text, maxChars, maxLines)
  {
    var t := Strip(text);
    if |t| <= maxChars {
      return t;
    }
    if maxLines < 2 {
      return BeforeLastSpace(t[..maxChars]);
    }
    var atSentence := TrySeparators(t, SENTENCE_SEPARATORS, maxChars);
    if atSentence.Some? {
      return atSentence.value;
    }
    var atClause := TrySeparators(t, CLAUSE_SEPARATORS, maxChars);
    if atClause.Some? {
      return atClause.value;
    }
    r := BreakInTheMiddle(t, maxChars);
  }

  method BreakInTheMiddle(t: string, maxChars: nat) returns (r: string)
    requires maxChars < |t|
    ensures r == Render(t, MiddleRule(t, maxChars), maxChars)
  {
    var words := Words(t);
    if |words| < 2 {
      return t;
    }
    FirstBoundaryIsInside(t);
    var bestSplit := BestSplit(words, |t|);
    var line1 := Join(" ", words[..bestSplit]);
    var line2 := Join(" ", words[bestSplit..]);
    if |line1| <= maxChars && |line2| <= maxChars {
      return line1 + "\n" + line2;
    }
    r := if ' ' in t[..maxChars] then BeforeLastSpace(t[..maxChars]) + "\n" + Strip(t[maxChars..]) else t;
  }

  // ---------------------------------------------------------------- lengths

  lemma {:induction false} JoinedLength(words: seq<string>, k: nat)
    requires k < |words|
    ensures |Join(" ", words[k..])| == Reach(words, |words|) - Reach(words, k) - 1
    decreases |words| - k
  {
    assert words[k..][0] == words[k] && words[k..][1..] == words[k + 1..];
    if k + 1 < |words| {
      JoinedLength(words, k + 1);
    }
  }

  lemma {:induction false} ReachOfPrefix(words: seq<string>, n: nat, k: nat)
    requires k <= n <= |words|
    ensures Reach(words[..n], k) == Reach(words, k)
  {
    if k > 0 {
      ReachOfPrefix(words, n, k - 1);
    }
  }

  lemma HalfLengths(words: seq<string>, k: nat)
    requires 1 <= k < |words|
    ensures |Join(" ", words[..k])| == Reach(words, k) - 1
    ensures |Join(" ", words[k..])| == Reach(words, |words|) - Reach(words, k) - 1
    ensures |Join(" ", words)| == Reach(words, |words|) - 1
  {
    JoinedLength(words, k);
    JoinedLength(words[..k], 0);
    assert words[..k][0..] == words[..k];
    ReachOfPrefix(words, k, k);
    JoinedLength(words, 0);
    assert words[0..] == words;
  }

  lemma {:induction false} ReachGrows(words: seq<string>, j: nat, k: nat)
    requires j < k <= |words|
    ensures Reach(words, j) < Reach(words, k)
  {
    if j < k - 1 {
      ReachGrows(words, j, k - 1);
    }
  }

  /** The initial `best_diff` is never kept: the first boundary already beats it. */
  lemma FirstBoundaryIsInside(t: string)
    requires |Words(t)| >= 2
    ensures Off(Words(t), |t| / 2, 1) < |t|
  {
    var words := Words(t);
    JoinedWordsLength("", t);
    HalfLengths(words, 1);
    assert Reach(words, 1) == Reach(words, 0) + |words[0]| + 1;
    ReachGrows(words, 1, |words|);
  }

  lemma {:induction false} GapAround(words: seq<string>, mid: nat, n: nat) returns (j: nat)
    requires n <= |words| && mid < Reach(words, n)
    ensures j < n && Reach(words, j) <= mid < Reach(words, j + 1)
  {
    j := n - 1;
    if mid < Reach(words, n - 1) {
      j := GapAround(words, mid, n - 1);
    }
  }

  /** The chosen boundary is within half a word of the middle, unless the middle lies in the first or
      the last word. */
  lemma NearestIsClose(words: seq<string>, mid: nat, w: nat)
    requires |words| >= 2 && mid < Reach(words, |words|)
    requires forall word | word in words :: |word| <= w
    ensures var k := Nearest(words, mid, |words| - 1);
            || Off(words, mid, k) <= (w + 1) / 2
            || (k == 1 && mid < Reach(words, 1))
            || (k == |words| - 1 && Reach(words, k) <= mid)
  {
    var n := |words|;
    var k := Nearest(words, mid, n - 1);
    var j := GapAround(words, mid, n);
    assert |words[j]| <= w;
    if j == 0 {
      if k > 1 { ReachGrows(words, 1, k); }
    } else if j == n - 1 {
      if k < n - 1 { ReachGrows(words, k, n - 1); }
    } else {
      assert Off(words, mid, k) <= Off(words, mid, j) && Off(words, mid, k) <= Off(words, mid, j + 1);
    }
  }

  /** Breaking at the chosen boundary fits when half the text and half a word fit on a line. */
  lemma MiddleFits(words: seq<string>, maxChars: nat, w: nat)
    requires |words| >= 2 && forall word | word in words :: |word| <= w
    requires (|Join(" ", words)| + 1) / 2 + (w + 1) / 2 <= maxChars
    ensures var k := Nearest(words, |Join(" ", words)| / 2, |words| - 1);
            |Join(" ", words[..k])| <= maxChars && |Join(" ", words[k..])| <= maxChars
  {
    var n := |words|;
    HalfLengths(words, 1);
    var mid := |Join(" ", words)| / 2;
    var k := Nearest(words, mid, n - 1);
    NearestIsClose(words, mid, w);
    HalfLengths(words, k);
    assert |words[0]| <= w && |words[n - 1]| <= w;
    assert Reach(words, 1) == Reach(words, 0) + |words[0]| + 1;
    assert Reach(words, n) == Reach(words, n - 1) + |words[n - 1]| + 1;
    ReachGrows(words, 1, n);
    ReachGrows(words, 0, n - 1);
  }

  // ---------------------------------------------------------------- lines

  predicate OneLine(s: string) {
    '\n' !in s
  }

  lemma SplitTwoLines(a: string, b: string)
    requires OneLine(a) && OneLine(b)
    ensures SplitOn(a + "\n" + b, "\n") == [a, b]
  {
    SplitAtChar(a, '\n', b);
    SplitNoChar(b, '\n');
  }

  lemma {:induction false} JoinOneLine(words: seq<string>)
    requires forall w | w in words :: IsWord(w)
    ensures OneLine(Join(" ", words))
  {
    if |words| > 0 {
      assert IsWord(words[0]);
      if |words| > 1 {
        JoinOneLine(words[1..]);
      }
    }
  }

  lemma StripOneLine(s: string)
    requires OneLine(s)
    ensures OneLine(Strip(s))
  {
    var a, b := StripSplits(s);
  }

  // ---------------------------------------------------------------- main results

  /** The one or two lines of a broken text, for every rule but the fallbacks. */
  lemma LinesOf(t: string, rule: Break, maxChars: nat)
    requires OneLine(t) && (rule.AtCut? ==> rule.cut <= |t|) && (rule.AtWord? ==> rule.k <= |Words(t)|)
    requires rule.Whole? || rule.AtCut? || rule.AtWord?
    ensures SplitOn(Render(t, rule, maxChars), "\n") ==
            match rule
            case AtCut(cut) => [Strip(t[..cut]), Strip(t[cut..])]
            case AtWord(k) => [Join(" ", Words(t)[..k]), Join(" ", Words(t)[k..])]
            case _ => [t]
  {
    match rule {
      case Whole =>
        SplitNoChar(t, '\n');
      case AtCut(cut) =>
        StripOneLine(t[..cut]);
        StripOneLine(t[cut..]);
        SplitTwoLines(Strip(t[..cut]), Strip(t[cut..]));
      case AtWord(k) =>
        WordsAreWords("", t);
        JoinOneLine(Words(t)[..k]);
        JoinOneLine(Words(t)[k..]);
        SplitTwoLines(Join(" ", Words(t)[..k]), Join(" ", Words(t)[k..]));
    }
  }

  /** Half the text plus half a word on a line rules the two fallbacks out. */
  lemma RuleWhenHalvesFit(t: string, maxChars: nat, maxLines: int, w: nat)
    requires maxLines >= 2 && t == Join(" ", Words(t))
    requires forall word | word in Words(t) :: |word| <= w
    requires (|t| + 1) / 2 + (w + 1) / 2 <= maxChars
    ensures match Rule(t, maxChars, maxLines)
            case Whole => |t| <= maxChars
            case AtCut(cut) => Fits(t, cut, maxChars)
            case AtWord(k) => |Join(" ", Words(t)[..k])| <= maxChars && |Join(" ", Words(t)[k..])| <= maxChars
            case _ => false
  {
    var words := Words(t);
    if |words| == 1 {
      assert words[0] in words;
    } else if |words| >= 2 {
      MiddleFits(words, maxChars, w);
    }
    RuleWithFit(t, words, maxChars, maxLines);
  }

  lemma RuleWithFit(t: string, words: seq<string>, maxChars: nat, maxLines: int)
    requires maxLines >= 2 && words == Words(t)
    requires |words| < 2 ==> |t| <= maxChars
    requires |words| >= 2 ==>
               var k := Nearest(words, |t| / 2, |words| - 1);
               |Join(" ", words[..k])| <= maxChars && |Join(" ", words[k..])| <= maxChars
    ensures match Rule(t, maxChars, maxLines)
            case Whole => |t| <= maxChars
            case AtCut(cut) => Fits(t, cut, maxChars)
            case AtWord(k) => |Join(" ", Words(t)[..k])| <= maxChars && |Join(" ", Words(t)[k..])| <= maxChars
            case _ => false
  {
    hide Join, FirstFit, Nearest, Words;
  }

  /** A single-spaced text whose half plus half its longest word fits on a line is always shown on at
      most two lines that fit, with exactly its words. */
  lemma TwoLinesFit(text: string, maxChars: nat, maxLines: int, w: nat)
    requires maxLines >= 2
    requires Strip(text) == Join(" ", Words(text))
    requires forall word | word in Words(text) :: |word| <= w
    requires (|Strip(text)| + 1) / 2 + (w + 1) / 2 <= maxChars
    ensures var lines := SplitOn(Broken(text, maxChars, maxLines), "\n");
            |lines| <= 2 && forall line | line in lines :: |line| <= maxChars
    ensures Words(Broken(text, maxChars, maxLines)) == Words(text)
  {
    hide Join;
    var t := Strip(text);
    WordsOfStrip(text);
    WordsAreWords("", text);
    JoinOneLine(Words(text));
    RuleWhenHalvesFit(t, maxChars, maxLines, w);
    LinesOf(t, Rule(t, maxChars, maxLines), maxChars);
    WordsKeptExactly(text, maxChars, maxLines);
  }

  /** What the fallback leaves out: the end of the first `maxChars` characters, after their last blank. */
  function Lost(t: string, maxChars: nat): string
    requires maxChars <= |t|
  {
    t[LastSpace(t[..maxChars]) + 1..maxChars]
  }

  lemma {:induction false} LastSpaceFound(s: string)
    ensures LastSpace(s) == -1 <==> ' ' !in s
  {
  }

  /** The fallback, exactly: it keeps everything before the last blank of the window and everything
      from the limit on, and drops `Lost`. */
  lemma HardBreak(t: string, maxChars: nat)
    requires IsStripped(t) && maxChars < |t| && ' ' in t[..maxChars]
    ensures var head, tail := BeforeLastSpace(t[..maxChars]), t[maxChars..];
            && t == head + " " + Lost(t, maxChars) + tail
            && Render(t, Hard, maxChars) == head + "\n" + Strip(tail)
            && (Words(Render(t, Hard, maxChars)) == Words(t) <==> AllSpace(Lost(t, maxChars)))
  {
    var window := t[..maxChars];
    LastSpaceFound(window);
    var p := LastSpace(window);
    var head, lost, tail := t[..p], Lost(t, maxChars), t[maxChars..];
    assert window[..p] == head;
    assert t == head + " " + lost + tail;
    WordsAcrossGap(head, lost, tail);
  }

  /** Leaving `lost` out between `head` and `tail` keeps the words exactly when it holds none. */
  lemma WordsAcrossGap(head: string, lost: string, tail: string)
    ensures Words(head + "\n" + Strip(tail)) == Words(head + " " + lost + tail) <==> AllSpace(lost)
  {
    if AllSpace(lost) {
      WordsAcrossSpace(head, lost, tail);
    } else {
      InkOfGap(head, lost, tail);
      InkOfSpace(lost);
      InkOfWords("", head + "\n" + Strip(tail));
      InkOfWords("", head + " " + lost + tail);
    }
  }

  lemma WordsAcrossSpace(head: string, lost: string, tail: string)
    requires AllSpace(lost)
    ensures Words(head + "\n" + Strip(tail)) == Words(head + " " + lost + tail)
  {
    WordsOfStrip(tail);
    WordsOfTwoLines(head, '\n', Strip(tail));
    assert head + " " + lost + tail == head + (" " + lost + tail);
    WordsCut("", head, " " + lost + tail);
    assert " " + lost + tail == (" " + lost) + tail + "";
    WordsPad(" " + lost, tail, "");
  }

  lemma InkAround(a: string, c: char, b: string)
    requires IsSpace(c)
    ensures Ink(a + [c] + b) == Ink(a) + Ink(b)
  {
    InkOfConcat(a + [c], b);
    InkOfConcat(a, [c]);
    InkOfSpace([c]);
  }

  lemma InkOfGap(head: string, lost: string, tail: string)
    ensures Ink(head + " " + lost + tail) == Ink(head) + Ink(lost) + Ink(tail)
    ensures Ink(head + "\n" + Strip(tail)) == Ink(head) + Ink(tail)
  {
    InkOfConcat(head + " " + lost, tail);
    InkAround(head, ' ', lost);
    InkOfStrip(tail);
    InkAround(head, '\n', Strip(tail));
  }

  /** Clipping to one line always loses the last word or a part of it. */
  lemma ClipLosesInk(t: string, maxChars: nat)
    requires IsStripped(t) && maxChars < |t|
    ensures Words(BeforeLastSpace(t[..maxChars])) != Words(t)
  {
    var r := BeforeLastSpace(t[..maxChars]);
    assert t == r + t[|r|..];
    InkOfConcat(r, t[|r|..]);
    InkOfSpace(t[|r|..]);
    assert t[|r|..][|t| - |r| - 1] == t[|t| - 1];
    InkOfWords("", r);
    InkOfWords("", t);
  }

  lemma KeptByCut(t: string, cut: nat)
    requires cut < |t| && IsSpace(t[cut])
    ensures Words(Strip(t[..cut]) + "\n" + Strip(t[cut..])) == Words(t)
  {
    WordsOfPieces(t, cut);
    WordsOfTwoLines(Strip(t[..cut]), '\n', Strip(t[cut..]));
  }

  lemma KeptByWord(t: string, words: seq<string>, k: nat)
    requires words == Words(t) && k <= |words|
    ensures Words(Join(" ", words[..k]) + "\n" + Join(" ", words[k..])) == words
  {
    WordsAreWords("", t);
    WordsOfJoin(' ', words[..k]);
    WordsOfJoin(' ', words[k..]);
    WordsOfTwoLines(Join(" ", words[..k]), '\n', Join(" ", words[k..]));
    assert words == words[..k] + words[k..];
  }

  /** What the rule that `break_line` applies may be. */
  predicate Applies(t: string, rule: Break, maxChars: nat) {
    match rule
    case Whole => true
    case Clipped => maxChars < |t|
    case AtCut(cut) => cut < |t| && IsSpace(t[cut])
    case AtWord(k) => k <= |Words(t)|
    case Hard => maxChars < |t| && ' ' in t[..maxChars]
  }

  lemma RuleApplies(t: string, maxChars: nat, maxLines: int)
    ensures Applies(t, Rule(t, maxChars, maxLines), maxChars)
  {
  }

  lemma KeptByRule(t: string, rule: Break, maxChars: nat)
    requires IsStripped(t) && Applies(t, rule, maxChars)
    ensures Words(Render(t, rule, maxChars)) == Words(t) <==>
              match rule
              case Clipped => false
              case Hard => AllSpace(Lost(t, maxChars))
              case _ => true
  {
    match rule {
      case Whole =>
      case Clipped => ClipLosesInk(t, maxChars);
      case AtCut(cut) => KeptByCut(t, cut);
      case AtWord(k) => KeptByWord(t, Words(t), k);
      case Hard => HardBreak(t, maxChars);
    }
  }

  /** Which calls keep the words: all but the clip to one line, and the fallback when it drops a
      character that is not whitespace. */
  lemma WordsKeptExactly(text: string, maxChars: nat, maxLines: int)
    ensures Words(Broken(text, maxChars, maxLines)) == Words(text) <==>
              match Rule(Strip(text), maxChars, maxLines)
              case Clipped => false
              case Hard => AllSpace(Lost(Strip(text), maxChars))
              case _ => true
  {
    var t := Strip(text);
    assert IsStripped(t) by { var _, _ := StripSplits(text); }
    WordsOfStrip(text);
    RuleApplies(t, maxChars, maxLines);
    KeptByRule(t, Rule(t, maxChars, maxLines), maxChars);
  }

  /** When the blank is the only whitespace, the fallback loses a word exactly when the character
      before the limit is not a blank. */
  lemma LossAtTheLimit(t: string, maxChars: nat)
    requires maxChars <= |t| && ' ' in t[..maxChars]
    requires forall c | c in t && IsSpace(c) :: c == ' '
    ensures AllSpace(Lost(t, maxChars)) <==> t[maxChars - 1] == ' '
  {
    var window := t[..maxChars];
    LastSpaceFound(window);
    var p := LastSpace(window);
    var lost := Lost(t, maxChars);
    if p < maxChars - 1 {
      assert lost[|lost| - 1] == window[maxChars - 1];
    }
  }

  predicate Foreign(sep: string, t: string) {
    exists c | c in sep :: c !in t
  }

  lemma {:induction false} NoSeparator(t: string, seps: seq<string>, maxChars: nat)
    requires forall sep | sep in seps :: EndsInBlank(sep) && Foreign(sep, t)
    ensures FirstFit(t, seps, maxChars) == None
  {
    if seps != [] {
      var sep := seps[0];
      assert Foreign(sep, t);
      var i :| 0 <= i < |sep| && sep[i] !in t;
      forall k ensures !OccursAt(t, sep, k) {
        if OccursAt(t, sep, k) {
          OccursBrings(t, sep, k, i);
        }
      }
      NoSeparator(t, seps[1..], maxChars);
    }
  }

  lemma HardWhen(t: string, words: seq<string>, maxChars: nat)
    requires maxChars < |t| && ' ' in t[..maxChars]
    requires forall sep | sep in SENTENCE_SEPARATORS + CLAUSE_SEPARATORS :: Foreign(sep, t)
    requires Words(t) == words && |words| >= 2
    requires var k := Nearest(words, |t| / 2, |words| - 1);
             Reach(words, k) - 1 > maxChars || Reach(words, |words|) - Reach(words, k) - 1 > maxChars
    ensures Rule(t, maxChars, 2) == Hard
  {
    var k := Nearest(words, |t| / 2, |words| - 1);
    assert FirstFit(t, SENTENCE_SEPARATORS, maxChars) == None by { NoSeparator(t, SENTENCE_SEPARATORS, maxChars); }
    assert FirstFit(t, CLAUSE_SEPARATORS, maxChars) == None by { NoSeparator(t, CLAUSE_SEPARATORS, maxChars); }
    assert |Join(" ", words[..k])| > maxChars || |Join(" ", words[k..])| > maxChars by { HalfLengths(words, k); }
    HardIs(t, words, k, maxChars);
  }

  lemma HardIs(t: string, words: seq<string>, k: nat, maxChars: nat)
    requires maxChars < |t| && ' ' in t[..maxChars]
    requires FirstFit(t, SENTENCE_SEPARATORS, maxChars) == None && FirstFit(t, CLAUSE_SEPARATORS, maxChars) == None
    requires Words(t) == words && |words| >= 2 && k == Nearest(words, |t| / 2, |words| - 1)
    requires |Join(" ", words[..k])| > maxChars || |Join(" ", words[k..])| > maxChars
    ensures Rule(t, maxChars, 2) == Hard
  {
    hide Join, FirstFit, Nearest, Words;
  }

  /** A text that loses a character, to show that the fallback is reached. */
  lemma FallbackLosesInk()
    ensures Rule("a bbbb", 3, 2) == Hard && Lost("a bbbb", 3) == "b"
  {
    FallbackIsReached();
    assert "a bbbb"[..3][1] == ' ';
  }

  lemma FallbackIsReached()
    ensures Rule("a bbbb", 3, 2) == Hard
  {
    var t, words := "a bbbb", ["a", "bbbb"];
    assert Words(t) == words by {
      assert Join(" ", words) == t;
      WordsOfJoin(' ', words);
    }
    assert Reach(words, 1) == 2 && Reach(words, 2) == 7;
    assert t[..3][1] == ' ';
    forall sep | sep in SENTENCE_SEPARATORS + CLAUSE_SEPARATORS ensures Foreign(sep, t) {
      assert sep[0] !in t || sep[1] !in t;
    }
    HardWhen(t, words, 3);
  }

  // ---------------------------------------------------------------- when the middle split fits

  /** Both lines of the split at this boundary fit. */
  predicate FitsAt(words: seq<string>, q: nat, maxChars: nat)
    requires q <= |words|
  {
    |Join(" ", words[..q])| <= maxChars && |Join(" ", words[q..])| <= maxChars
  }

  /** Before this boundary there is too little for the rest to fit. */
  predicate TooEarly(words: seq<string>, p: nat, maxChars: nat)
    requires p <= |words|
  {
    Reach(words, p) + maxChars < |Join(" ", words)|
  }

  /** What comes before this boundary does not fit. */
  predicate TooLate(words: seq<string>, p: nat, maxChars: nat)
    requires p <= |words|
  {
    Reach(words, p) > maxChars + 1
  }

  /** Every boundary that is too early lies further from the middle. */
  predicate BeatsEarly(words: seq<string>, mid: nat, q: nat, maxChars: nat)
    requires q <= |words|
  {
    forall p | 1 <= p < |words| && TooEarly(words, p, maxChars) :: Reach(words, p) + Reach(words, q) < 2 * mid
  }

  /** Every boundary that is too late lies no nearer to the middle. */
  predicate BeatsLate(words: seq<string>, mid: nat, q: nat, maxChars: nat)
    requires q <= |words|
  {
    forall p | 1 <= p < |words| && TooLate(words, p, maxChars) :: Reach(words, p) + Reach(words, q) >= 2 * mid
  }

  /** The boundary fits, and is preferred to every boundary that does not. */
  predicate Wins(words: seq<string>, mid: nat, q: nat, maxChars: nat)
    requires q <= |words|
  {
    FitsAt(words, q, maxChars) && BeatsEarly(words, mid, q, maxChars) && BeatsLate(words, mid, q, maxChars)
  }

  lemma FitsByReach(words: seq<string>, q: nat, maxChars: nat)
    requires 1 <= q < |words|
    ensures FitsAt(words, q, maxChars) <==> !TooEarly(words, q, maxChars) && !TooLate(words, q, maxChars)
  {
    HalfLengths(words, q);
  }

  lemma {:induction false} ReachOrder(words: seq<string>, p: nat, q: nat)
    requires p <= |words| && q <= |words|
    ensures Reach(words, p) < Reach(words, q) <==> p < q
  {
    if p < q {
      ReachGrows(words, p, q);
    } else if q < p {
      ReachGrows(words, q, p);
    }
  }

  /** A boundary that lies before another is preferred to it iff it is no further from the middle. */
  lemma PreferredBySum(words: seq<string>, mid: nat, p: nat, q: nat)
    requires p < q <= |words|
    ensures Off(words, mid, p) <= Off(words, mid, q) <==> Reach(words, p) + Reach(words, q) >= 2 * mid
  {
    ReachGrows(words, p, q);
  }

  lemma ChosenWins(words: seq<string>, mid: nat, maxChars: nat)
    requires |words| >= 2 && FitsAt(words, Nearest(words, mid, |words| - 1), maxChars)
    ensures Wins(words, mid, Nearest(words, mid, |words| - 1), maxChars)
  {
    var k := Nearest(words, mid, |words| - 1);
    FitsByReach(words, k, maxChars);
    HalfLengths(words, k);
    forall p | 1 <= p < |words| && TooEarly(words, p, maxChars) ensures Reach(words, p) + Reach(words, k) < 2 * mid {
      ReachOrder(words, p, k);
      PreferredBySum(words, mid, p, k);
    }
    forall p | 1 <= p < |words| && TooLate(words, p, maxChars) ensures Reach(words, p) + Reach(words, k) >= 2 * mid {
      ReachOrder(words, k, p);
      PreferredBySum(words, mid, k, p);
    }
  }

  lemma WinnerIsChosen(words: seq<string>, mid: nat, q: nat, maxChars: nat)
    requires 1 <= q < |words| && Wins(words, mid, q, maxChars)
    ensures FitsAt(words, Nearest(words, mid, |words| - 1), maxChars)
  {
    var k := Nearest(words, mid, |words| - 1);
    FitsByReach(words, k, maxChars);
    FitsByReach(words, q, maxChars);
    if TooEarly(words, k, maxChars) {
      ReachOrder(words, k, q);
      PreferredBySum(words, mid, k, q);
    }
    if TooLate(words, k, maxChars) {
      ReachOrder(words, q, k);
      PreferredBySum(words, mid, q, k);
    }
  }

  /** The split that the rule chooses fits exactly if some boundary wins, for every list of words and every
      middle. */
  lemma ChosenFitsIff(words: seq<string>, mid: nat, maxChars: nat)
    requires |words| >= 2
    ensures FitsAt(words, Nearest(words, mid, |words| - 1), maxChars)
            <==> exists q :: 1 <= q < |words| && Wins(words, mid, q, maxChars)
  {
    if FitsAt(words, Nearest(words, mid, |words| - 1), maxChars) {
      ChosenWins(words, mid, maxChars);
    }
    if q :| 1 <= q < |words| && Wins(words, mid, q, maxChars) {
      WinnerIsChosen(words, mid, q, maxChars);
    }
  }

  /** For words with one blank between them the second condition is never in the way: the split at the
      middle fits exactly if some boundary fits and every boundary that is too early lies further from the
      middle. */
  lemma MiddleFitsIff(words: seq<string>, maxChars: nat)
    requires |words| >= 2
    ensures var mid := |Join(" ", words)| / 2;
            FitsAt(words, Nearest(words, mid, |words| - 1), maxChars)
            <==> exists q :: 1 <= q < |words| && FitsAt(words, q, maxChars) && BeatsEarly(words, mid, q, maxChars)
  {
    var mid := |Join(" ", words)| / 2;
    ChosenFitsIff(words, mid, maxChars);
    forall q | 1 <= q < |words| && FitsAt(words, q, maxChars) ensures BeatsLate(words, mid, q, maxChars) {
      NoneTooLateIsNearer(words, q, maxChars);
    }
    if q :| 1 <= q < |words| && FitsAt(words, q, maxChars) && BeatsEarly(words, mid, q, maxChars) {
      assert Wins(words, mid, q, maxChars);
    }
  }

  lemma NoneTooLateIsNearer(words: seq<string>, q: nat, maxChars: nat)
    requires 1 <= q < |words| && FitsAt(words, q, maxChars)
    ensures BeatsLate(words, |Join(" ", words)| / 2, q, maxChars)
  {
    FitsByReach(words, q, maxChars);
  }

  /** When the program falls back on showing a long text unbroken or cutting it at the limit: no separator
      cuts it well, and no word boundary wins. */
  lemma FallsBackIff(t: string, maxChars: nat, maxLines: int)
    requires maxLines >= 2 && maxChars < |t|
    ensures Rule(t, maxChars, maxLines).Hard? || Rule(t, maxChars, maxLines).Whole?
            <==> && FirstFit(t, SENTENCE_SEPARATORS, maxChars).None? && FirstFit(t, CLAUSE_SEPARATORS, maxChars).None?
                 && !exists q :: 1 <= q < |Words(t)| && Wins(Words(t), |t| / 2, q, maxChars)
  {
    hide FirstFit, Nearest, Words, BeatsEarly, BeatsLate;
    var words := Words(t);
    if |words| >= 2 {
      ChosenFitsIff(words, |t| / 2, maxChars);
    }
  }

  // ---------------------------------------------------------------- which separator decides

  /** The first occurrence of the separator lies inside the text, and cut behind its first `kept` characters
      the text gives two lines that fit. */
  predicate CutsWell(t: string, sep: string, kept: nat, maxChars: nat) {
    var idx := Find(t, sep);
    && 0 < idx < |t| - 2 && idx + kept <= |t|
    && |Strip(t[..idx + kept])| <= maxChars && |Strip(t[idx + kept..])| <= maxChars
  }

  /** The two lines of that cut. */
  function CutBehind(t: string, sep: string, kept: nat): string
    requires 0 <= Find(t, sep) && Find(t, sep) + kept <= |t|
  {
    Strip(t[..Find(t, sep) + kept]) + "\n" + Strip(t[Find(t, sep) + kept..])
  }

  lemma FirstOfList(t: string, seps: seq<string>, maxChars: nat)
    requires seps != [] && EndsInBlank(seps[0]) && forall sep | sep in seps :: EndsInBlank(sep)
    ensures var sep := seps[0];
            FirstFit(t, seps, maxChars) == if CutsWell(t, sep, |sep| - 1, maxChars) then Some(Find(t, sep) + |sep| - 1)
                                           else FirstFit(t, seps[1..], maxChars)
  {
    NextSeparator(t, seps, 0, maxChars);
    assert seps[0..] == seps;
  }

  lemma SentenceFit(t: string, maxChars: nat)
    ensures FirstFit(t, SENTENCE_SEPARATORS, maxChars) ==
              if CutsWell(t, ". ", 1, maxChars) then Some(Find(t, ". ") + 1)
              else if CutsWell(t, "! ", 1, maxChars) then Some(Find(t, "! ") + 1)
              else if CutsWell(t, "? ", 1, maxChars) then Some(Find(t, "? ") + 1)
              else if CutsWell(t, "; ", 1, maxChars) then Some(Find(t, "; ") + 1) else None
  {
    hide CutsWell;
    var seps := SENTENCE_SEPARATORS;
    assert seps[1..] == ["! ", "? ", "; "] && seps[1..][1..] == ["? ", "; "];
    FirstOfList(t, seps, maxChars);
    FirstOfList(t, ["! ", "? ", "; "], maxChars);
    FirstOfList(t, ["? ", "; "], maxChars);
    FirstOfList(t, ["; "], maxChars);
  }

  lemma ClauseFit(t: string, maxChars: nat)
    ensures FirstFit(t, CLAUSE_SEPARATORS, maxChars) ==
              if CutsWell(t, ", ", 1, maxChars) then Some(Find(t, ", ") + 1)
              else if CutsWell(t, ": ", 1, maxChars) then Some(Find(t, ": ") + 1)
              else if CutsWell(t, " - ", 2, maxChars) then Some(Find(t, " - ") + 2) else None
  {
    hide CutsWell;
    var seps := CLAUSE_SEPARATORS;
    assert seps[1..] == [": ", " - "] && seps[1..][1..] == [" - "];
    FirstOfList(t, seps, maxChars);
    FirstOfList(t, [": ", " - "], maxChars);
    FirstOfList(t, [" - "], maxChars);
  }

  /** A long text on two lines or more is cut behind the mark of the first separator that cuts it well: the
      end of a sentence before a clause, and a dash last. */
  lemma SeparatorDecides(text: string, maxChars: nat, maxLines: int)
    requires maxLines >= 2 && maxChars < |Strip(text)|
    ensures var t, r := Strip(text), Broken(text, maxChars, maxLines);
            if CutsWell(t, ". ", 1, maxChars) then r == CutBehind(t, ". ", 1)
            else if CutsWell(t, "! ", 1, maxChars) then r == CutBehind(t, "! ", 1)
            else if CutsWell(t, "? ", 1, maxChars) then r == CutBehind(t, "? ", 1)
            else if CutsWell(t, "; ", 1, maxChars) then r == CutBehind(t, "; ", 1)
            else if CutsWell(t, ", ", 1, maxChars) then r == CutBehind(t, ", ", 1)
            else if CutsWell(t, ": ", 1, maxChars) then r == CutBehind(t, ": ", 1)
            else if CutsWell(t, " - ", 2, maxChars) then r == CutBehind(t, " - ", 2)
            else r == InTheMiddle(t, maxChars)
  {
    hide CutsWell, CutBehind, Rule, Render;
    var t := Strip(text);
    RuleBySeparator(t, maxChars, maxLines);
    forall sep, kept | CutsWell(t, sep, kept, maxChars)
      ensures Cuttable(t, sep, kept) && Render(t, AtCut(Find(t, sep) + kept), maxChars) == CutBehind(t, sep, kept)
    {
      CutIsRendered(t, sep, kept, maxChars);
    }
  }

  predicate Cuttable(t: string, sep: string, kept: nat) {
    0 <= Find(t, sep) && Find(t, sep) + kept <= |t|
  }

  lemma CutIsRendered(t: string, sep: string, kept: nat, maxChars: nat)
    requires CutsWell(t, sep, kept, maxChars)
    ensures Cuttable(t, sep, kept) && Render(t, AtCut(Find(t, sep) + kept), maxChars) == CutBehind(t, sep, kept)
  {
  }

  lemma RuleBySeparator(t: string, maxChars: nat, maxLines: int)
    requires maxLines >= 2 && maxChars < |t|
    ensures Rule(t, maxChars, maxLines) ==
              if CutsWell(t, ". ", 1, maxChars) then AtCut(Find(t, ". ") + 1)
              else if CutsWell(t, "! ", 1, maxChars) then AtCut(Find(t, "! ") + 1)
              else if CutsWell(t, "? ", 1, maxChars) then AtCut(Find(t, "? ") + 1)
              else if CutsWell(t, "; ", 1, maxChars) then AtCut(Find(t, "; ") + 1)
              else if CutsWell(t, ", ", 1, maxChars) then AtCut(Find(t, ", ") + 1)
              else if CutsWell(t, ": ", 1, maxChars) then AtCut(Find(t, ": ") + 1)
              else if CutsWell(t, " - ", 2, maxChars) then AtCut(Find(t, " - ") + 2)
              else MiddleRule(t, maxChars)
  {
    hide FirstFit, CutsWell, MiddleRule;
    SentenceFit(t, maxChars);
    ClauseFit(t, maxChars);
  }

  /** What is left to do for a long text that no separator cuts well. */
  function InTheMiddle(t: string, maxChars: nat): string
    requires maxChars < |t|
  {
    Render(t, MiddleRule(t, maxChars), maxChars)
  }

  /** How far the end of the first `j` words, with a blank behind them, is from the middle. */
  function FromMiddle(words: seq<string>, mid: int, j: nat): nat
    requires j <= |words|
  {
    var d := |Join(" ", words[..j])| + 1 - mid;
    if d < 0 then -d else d
  }

  /** The first of the word boundaries nearest the middle. */
  predicate IsMiddle(words: seq<string>, mid: int, k: nat) {
    && 1 <= k < |words|
    && (forall j | 1 <= j < |words| :: FromMiddle(words, mid, k) <= FromMiddle(words, mid, j))
    && (forall j | 1 <= j < k :: FromMiddle(words, mid, k) < FromMiddle(words, mid, j))
  }

  lemma MiddleIsNearest(words: seq<string>, mid: int, k: nat)
    requires IsMiddle(words, mid, k)
    ensures k == Nearest(words, mid, |words| - 1)
  {
    forall j | 1 <= j < |words| ensures FromMiddle(words, mid, j) == Off(words, mid, j) {
      HalfLengths(words, j);
    }
    var n := Nearest(words, mid, |words| - 1);
    assert FromMiddle(words, mid, k) <= FromMiddle(words, mid, n);
    assert Off(words, mid, n) <= Off(words, mid, k);
  }

  /** The last blank of the first `maxChars` characters. */
  predicate IsLastBlank(t: string, maxChars: nat, p: nat)
    requires maxChars <= |t|
  {
    p < maxChars && t[p] == ' ' && ' ' !in t[p + 1..maxChars]
  }

  lemma BeforeTheBlank(t: string, maxChars: nat, p: nat)
    requires maxChars <= |t| && IsLastBlank(t, maxChars, p)
    ensures BeforeLastSpace(t[..maxChars]) == t[..p] && ' ' in t[..maxChars]
  {
    var window := t[..maxChars];
    var q := LastSpace(window);
    assert window[p] == ' ';
    assert forall k | p < k < maxChars :: window[k] == t[p + 1..maxChars][k - p - 1];
    assert window[..p] == t[..p];
  }

  /** Then it is split at the first of the word boundaries nearest the middle if both lines fit, else cut at
      the last blank before the limit, and without one left whole. */
  lemma MiddleDecides(t: string, maxChars: nat)
    requires maxChars < |t|
    ensures var words, r := Words(t), InTheMiddle(t, maxChars);
            && (|words| < 2 ==> r == t)
            && (forall k: nat | IsMiddle(words, |t| / 2, k) ::
                  var a, b := Join(" ", words[..k]), Join(" ", words[k..]);
                  if |a| <= maxChars && |b| <= maxChars then r == a + "\n" + b
                  else
                    && (' ' !in t[..maxChars] ==> r == t)
                    && (forall p: nat | IsLastBlank(t, maxChars, p) :: r == t[..p] + "\n" + Strip(t[maxChars..])))
  {
    hide Join, Words;
    forall k: nat | IsMiddle(Words(t), |t| / 2, k) ensures k == Nearest(Words(t), |t| / 2, |Words(t)| - 1) {
      MiddleIsNearest(Words(t), |t| / 2, k);
    }
    forall p: nat | IsLastBlank(t, maxChars, p)
      ensures BeforeLastSpace(t[..maxChars]) == t[..p] && ' ' in t[..maxChars]
    {
      BeforeTheBlank(t, maxChars, p);
    }
  }

  /** A text that fits is only stripped; one that may take a single line ends before the last blank of the
      first `maxChars` characters, or behind them if there is none. */
  lemma OneLineDecides(text: string, maxChars: nat, maxLines: int)
    ensures var t, r := Strip(text), Broken(text, maxChars, maxLines);
            && (|t| <= maxChars ==> r == t)
            && (maxChars < |t| && maxLines < 2 && ' ' !in t[..maxChars] ==> r == t[..maxChars])
            && (maxChars < |t| && maxLines < 2 ==>
                  forall p: nat | IsLastBlank(t, maxChars, p) :: r == t[..p])
  {
    var t := Strip(text);
    if maxChars < |t| {
      LastSpaceFound(t[..maxChars]);
      forall p: nat | IsLastBlank(t, maxChars, p) ensures BeforeLastSpace(t[..maxChars]) == t[..p] {
        BeforeTheBlank(t, maxChars, p);
      }
    }
  }

  /** The middle rule finds a split that fits whenever some word boundary gives one with a character
      to spare, or two when the text has odd length. */
  lemma MiddleNearlyBest(words: seq<string>, j: nat, maxChars: nat)
    requires 1 <= j < |words|
    requires var spare := maxChars - 1 - |Join(" ", words)| % 2;
             |Join(" ", words[..j])| <= spare && |Join(" ", words[j..])| <= spare
    ensures var k := Nearest(words, |Join(" ", words)| / 2, |words| - 1);
            |Join(" ", words[..k])| <= maxChars && |Join(" ", words[k..])| <= maxChars
  {
    var mid := |Join(" ", words)| / 2;
    var k := Nearest(words, mid, |words| - 1);
    HalfLengths(words, j);
    HalfLengths(words, k);
    assert Off(words, mid, k) <= Off(words, mid, j);
  }

  /** Without that slack it can miss. For words of one, two and two letters and lines of four
      characters, the first two words and the last one would fit, yet the rule falls through to the
      fallback, which drops the second word. */
  lemma FittingSplitMissed(a: string, b: string, c: string)
    requires IsWord(a) && IsWord(b) && IsWord(c) && |a| == 1 && |b| == |c| == 2
    requires forall x | x in a + b + c :: x !in ".!?;,:-"
    ensures var words, t := [a, b, c], a + " " + b + " " + c;
            && Words(t) == words
            && |Join(" ", words[..2])| == 4 && |Join(" ", words[2..])| == 2
            && Rule(t, 4, 2) == Hard && Lost(t, 4) == b
  {
    var words, t := [a, b, c], a + " " + b + " " + c;
    JoinOfThree(a, b, c);
    WordsOfJoin(' ', words);
    assert Reach(words, 1) == 2 && Reach(words, 2) == 5 && Reach(words, 3) == 8;
    HalfLengths(words, 2);
    assert Nearest(words, 3, 2) == 1;
    assert forall x | x in t :: x in a + b + c || x == ' ';
    forall sep | sep in SENTENCE_SEPARATORS + CLAUSE_SEPARATORS ensures Foreign(sep, t) {
      assert sep[0] !in t || sep[1] !in t;
    }
    assert t[..4] == a + " " + b;
    assert t[..4][1] == ' ';
    HardWhen(t, words, 4);
    assert LastSpace(t[..4]) == 1;
  }

  lemma JoinOfThree(a: string, b: string, c: string)
    ensures Join(" ", [a, b, c]) == a + " " + b + " " + c
  {
    var two := [b, c];
    assert [a, b, c][1..] == two && two[1..] == [c];
    assert Join(" ", two) == b + " " + c;
    assert Join(" ", [a, b, c]) == a + " " + (b + " " + c);
  }

  predicate CleanLines(r: string) {
    && IsStripped(r) && r != ""
    && 1 <= |SplitOn(r, "\n")| <= 2
    && forall line | line in SplitOn(r, "\n") :: line != "" && OneLine(line)
  }

  /** With two lines or more, a text without newlines gives one or two lines, none empty, with no
      whitespace at either end of the whole. */
  lemma LinesAreClean(text: string, maxChars: nat, maxLines: int)
    requires maxLines >= 2 && OneLine(Strip(text)) && Strip(text) != ""
    ensures var r := Broken(text, maxChars, maxLines);
            && IsStripped(r) && r != ""
            && 1 <= |SplitOn(r, "\n")| <= 2
            && forall line | line in SplitOn(r, "\n") :: line != "" && OneLine(line)
  {
    var t := Strip(text);
    var _, _ := StripSplits(text);
    match Rule(t, maxChars, maxLines) {
      case Whole =>
        SplitNoChar(t, '\n');
      case AtCut(cut) =>
        CutIsClean(t, cut);
      case AtWord(k) =>
        WordSplitIsClean(t, k);
      case Hard =>
        HardIsClean(t, maxChars);
    }
  }

  lemma CutIsClean(t: string, cut: nat)
    requires OneLine(t) && IsStripped(t) && 0 < cut < |t|
    ensures CleanLines(Strip(t[..cut]) + "\n" + Strip(t[cut..]))
  {
    StripNonempty(t[..cut], 0);
    StripNonempty(t[cut..], |t| - cut - 1);
    TwoCleanLines(t[..cut], t[cut..]);
  }

  lemma WordSplitIsClean(t: string, k: nat)
    requires 0 < k < |Words(t)|
    ensures CleanLines(Join(" ", Words(t)[..k]) + "\n" + Join(" ", Words(t)[k..]))
  {
    var words := Words(t);
    WordsAreWords("", t);
    JoinIsClean(words[..k]);
    JoinIsClean(words[k..]);
    JoinOneLine(words[..k]);
    JoinOneLine(words[k..]);
    SplitTwoLines(Join(" ", words[..k]), Join(" ", words[k..]));
  }

  lemma HardIsClean(t: string, maxChars: nat)
    requires IsStripped(t) && OneLine(t) && maxChars < |t| && ' ' in t[..maxChars]
    ensures var r := Render(t, Hard, maxChars);
            && IsStripped(r)
            && SplitOn(r, "\n") == [BeforeLastSpace(t[..maxChars]), Strip(t[maxChars..])]
            && BeforeLastSpace(t[..maxChars]) != "" && Strip(t[maxChars..]) != ""
            && OneLine(BeforeLastSpace(t[..maxChars])) && OneLine(Strip(t[maxChars..]))
  {
    LastSpaceFound(t[..maxChars]);
    var tail := t[maxChars..];
    StripOneLine(tail);
    var _, _ := StripSplits(tail);
    StripNonempty(tail, |tail| - 1);
    SplitTwoLines(BeforeLastSpace(t[..maxChars]), Strip(tail));
  }

  lemma TwoCleanLines(a: string, b: string)
    requires OneLine(a) && OneLine(b) && Strip(a) != "" && Strip(b) != ""
    ensures var r := Strip(a) + "\n" + Strip(b);
            IsStripped(r) && SplitOn(r, "\n") == [Strip(a), Strip(b)] && OneLine(Strip(a)) && OneLine(Strip(b))
  {
    var _, _ := StripSplits(a);
    var _, _ := StripSplits(b);
    SplitTwoLines(Strip(a), Strip(b));
  }

  lemma {:induction false} JoinIsClean(words: seq<string>)
    requires |words| > 0 && forall w | w in words :: IsWord(w)
    ensures Join(" ", words) != "" && IsStripped(Join(" ", words))
  {
    assert IsWord(words[0]);
    if |words| > 1 {
      JoinIsClean(words[1..]);
    }
  }
}
