/**
 `words_to_segments` of app/utils/subtitle_format.py: group timed words into subtitle segments.

 `WordsToSegments` is the loop as the program runs it and `Segments` the list it returns. The main
 result is that the greedy loop makes the fewest segments that the limits allow.
 */
module WordGroups {
  import opened PyText
  import opened LineBreak

  datatype Word = Word(text: string, start: real, end: real)

  datatype Segment = Segment(start: real, end: real, text: string, words: seq<Word>)

  /** A group being built: where its segment starts and the words in it. */
  datatype Group = Group(start: real, run: seq<Word>)

  datatype Limits = Limits(maxChars: nat, maxGap: real, maxDuration: real)

  predicate Blank(w: Word) {
    Strip(w.text) == ""
  }

  predicate NoneBlank(words: seq<Word>) {
    forall w | w in words :: !Blank(w)
  }

  /** The words that are not blank; the others are skipped. */
  function Spoken(words: seq<Word>): (r: seq<Word>)
    ensures NoneBlank(r)
  {
    if words == [] then []
    else (if Blank(words[0]) then [] else [words[0]]) + Spoken(words[1..])
  }

  function Texts(run: seq<Word>): (r: seq<string>)
    ensures |r| == |run| && forall i | 0 <= i < |run| :: r[i] == Strip(run[i].text)
  {
    seq(|run|, i requires 0 <= i < |run| => Strip(run[i].text))
  }

  function TextOf(run: seq<Word>): string {
    Join(" ", Texts(run))
  }

  function Last(run: seq<Word>): Word
    requires run != []
  {
    run[|run| - 1]
  }

  /** Whether a word may join a group that is not empty. */
  predicate Joins(g: Group, w: Word, lim: Limits)
    requires g.run != []
  {
    && w.start - Last(g.run).end <= lim.maxGap
    && w.end - g.start <= lim.maxDuration
    && |TextOf(g.run + [w])| <= 2 * lim.maxChars
  }

  /** The groups made from an open group and the words still to come. */
  function Groups(g: Group, rest: seq<Word>, lim: Limits): seq<Group>
    decreases |rest|
  {
    if rest == [] then (if g.run == [] then [] else [g])
    else if Blank(rest[0]) then Groups(g, rest[1..], lim)
    else if g.run == [] || Joins(g, rest[0], lim) then
      Groups(Group(g.start, g.run + [rest[0]]), rest[1..], lim)
    else [g] + Groups(Group(rest[0].start, [rest[0]]), rest[1..], lim)
  }

  function AllGroups(words: seq<Word>, lim: Limits): seq<Group> {
    if words == [] then [] else Groups(Group(words[0].start, []), words, lim)
  }

  function ToSegment(g: Group, lim: Limits): Segment {
    var end := if g.run == [] then g.start else Last(g.run).end;
    Segment(g.start, end, Broken(TextOf(g.run), lim.maxChars, 2), g.run)
  }

  function ToSegments(gs: seq<Group>, lim: Limits): (segs: seq<Segment>)
    ensures |segs| == |gs|
    ensures forall i | 0 <= i < |gs| :: segs[i] == ToSegment(gs[i], lim)
  {
    seq(|gs|, i requires 0 <= i < |gs| => ToSegment(gs[i], lim))
  }

  /** What `words_to_segments` returns. */
  function Segments(words: seq<Word>, lim: Limits): seq<Segment> {
    ToSegments(AllGroups(words, lim), lim)
  }

  // ---------------------------------------------------------------- the program

  lemma TextOfSnoc(run: seq<Word>, w: Word)
    ensures TextOf(run + [w]) == if run == [] then Strip(w.text) else TextOf(run) + " " + Strip(w.text)
  {
    assert Texts(run + [w]) == Texts(run) + [Strip(w.text)];
    JoinSnoc(Texts(run), Strip(w.text));
  }

  lemma {:induction false} JoinSnoc(parts: seq<string>, p: string)
    ensures Join(" ", parts + [p]) == if parts == [] then p else Join(" ", parts) + " " + p
  {
    if |parts| > 0 {
      assert (parts + [p])[1..] == parts[1..] + [p];
      JoinSnoc(parts[1..], p);
    }
  }

  /** The text of a group begins and ends with a character that is not whitespace. */
  lemma {:induction false} TextIsStripped(run: seq<Word>)
    requires NoneBlank(run)
    ensures IsStripped(TextOf(run)) && (TextOf(run) == "" <==> run == [])
    decreases |run|
  {
    if run != [] {
      var w, init := Last(run), run[..|run| - 1];
      assert w in run && run == init + [w];
      TextIsStripped(init);
      assert IsStripped(Strip(w.text)) && Strip(w.text) != "" by {
        var _, _ := StripSplits(w.text);
      }
      TextOfSnoc(init, w);
      StrippedPair(TextOf(init), Strip(w.text));
    }
  }

  lemma StrippedPair(a: string, b: string)
    requires IsStripped(a) && IsStripped(b) && b != ""
    ensures a != "" ==> IsStripped(a + " " + b)
  {
  }

  /** Adding a word to the running text the way the loop does it: joining and then stripping. */
  lemma Appended(run: seq<Word>, w: Word)
    requires NoneBlank(run) && !Blank(w)
    ensures NoneBlank(run + [w])
    ensures TextOf(run + [w]) ==
            if TextOf(run) != "" then Strip(TextOf(run) + " " + Strip(w.text)) else Strip(w.text)
  {
    TextIsStripped(run);
    TextIsStripped(run + [w]);
    TextOfSnoc(run, w);
  }

  /** What the next word does to the groups. */
  lemma NextWord(g: Group, rest: seq<Word>, lim: Limits)
    requires rest != []
    ensures var w, more := rest[0], rest[1..];
            Groups(g, rest, lim) ==
              if Blank(w) then Groups(g, more, lim)
              else if g.run == [] || Joins(g, w, lim) then Groups(Group(g.start, g.run + [w]), more, lim)
              else [g] + Groups(Group(w.start, [w]), more, lim)
  {
  }

  /** The closed groups and what the open one and the words to come will make are all the groups. */
  ghost predicate Leads(closed: seq<Group>, g: Group, rest: seq<Word>, all: seq<Group>, lim: Limits) {
    closed + Groups(g, rest, lim) == all
  }

  lemma LeadsOn(closed: seq<Group>, g: Group, rest: seq<Word>, all: seq<Group>, lim: Limits)
    requires Leads(closed, g, rest, all, lim) && rest != []
    ensures var w, more := rest[0], rest[1..];
            if Blank(w) then Leads(closed, g, more, all, lim)
            else if g.run == [] || Joins(g, w, lim) then Leads(closed, Group(g.start, g.run + [w]), more, all, lim)
            else Leads(closed + [g], Group(w.start, [w]), more, all, lim)
  {
    NextWord(g, rest, lim);
    var w, more := rest[0], rest[1..];
    if !Blank(w) && g.run != [] && !Joins(g, w, lim) {
      var next := Groups(Group(w.start, [w]), more, lim);
      assert (closed + [g]) + next == closed + ([g] + next);
    }
  }

  method WordsToSegments(words: seq<Word>, lim: Limits) returns (segments: seq<Segment>)
    ensures segments == Segments(words, lim)
  {
    segments := [];
    if words == [] {
      return;
    }
    var currentWords: seq<Word> := [];
    var currentText := "";
    var segStart := words[0].start;
    ghost var closed: seq<Group> := [];
    var i := 0;
    while i < |words|
      invariant 0 <= i <= |words|
      invariant Leads(closed, Group(segStart, currentWords), words[i..], AllGroups(words, lim), lim)
      invariant segments == ToSegments(closed, lim)
      invariant NoneBlank(currentWords) && currentText == TextOf(currentWords)
    {
      var w := words[i];
      assert words[i..][0] == w && words[i..][1..] == words[i + 1..];
      LeadsOn(closed, Group(segStart, currentWords), words[i..], AllGroups(words, lim), lim);
      i := i + 1;
      var wordText := Strip(w.text);
      if wordText == "" {
        continue;
      }
      Appended(currentWords, w);
      Appended([], w);
      var forceSplit := ForceSplit(Group(segStart, currentWords), currentText, w, lim);
      if forceSplit && currentWords != [] {
        segments := Emit(segments, closed, segStart, currentWords, currentText, lim);
        closed := closed + [Group(segStart, currentWords)];
        currentWords, currentText, segStart := [], "", w.start;
        assert [] + [w] == [w];
      }
      currentText := if currentText != "" then Strip(currentText + " " + wordText) else wordText;
      currentWords := currentWords + [w];
    }
    assert words[i..] == [];
    if currentWords != [] {
      segments := Emit(segments, closed, segStart, currentWords, currentText, lim);
    }
  }

  /** The three tests that force a new segment. */
  method ForceSplit(g: Group, text: string, w: Word, lim: Limits) returns (split: bool)
    requires NoneBlank(g.run) && !Blank(w) && text == TextOf(g.run)
    ensures split <==> g.run != [] && !Joins(g, w, lim)
  {
    Appended(g.run, w);
    var newText := if text != "" then Strip(text + " " + Strip(w.text)) else Strip(w.text);
    var duration := w.end - g.start;
    split := false;
    if g.run != [] {
      var gap := w.start - g.run[|g.run| - 1].end;
      if gap > lim.maxGap {
        split := true;
      } else if duration > lim.maxDuration {
        split := true;
      } else if |newText| > lim.maxChars * 2 {
        split := true;
      }
    }
  }

  /** `segments.append({...})` for the group being built. */
  method Emit(segments: seq<Segment>, ghost closed: seq<Group>, start: real, run: seq<Word>, text: string, lim: Limits)
    returns (longer: seq<Segment>)
    requires segments == ToSegments(closed, lim) && run != [] && text == TextOf(run)
    ensures longer == ToSegments(closed + [Group(start, run)], lim)
  {
    var broken := BreakLine(text, lim.maxChars, 2);
    longer := segments + [Segment(start, run[|run| - 1].end, broken, run)];
  }

  // ---------------------------------------------------------------- what the limits allow

  predicate GapAllowed(run: seq<Word>, i: int, lim: Limits)
    requires 0 <= i < |run| - 1
  {
    run[i + 1].start - run[i].end <= lim.maxGap
  }

  predicate GapsAllowed(run: seq<Word>, lim: Limits) {
    forall i | 0 <= i < |run| - 1 :: GapAllowed(run, i, lim)
  }

  /** A run that may be shown as one segment: a single word always may. */
  predicate Allowed(run: seq<Word>, lim: Limits) {
    && run != []
    && (|run| > 1 ==>
          && GapsAllowed(run, lim)
          && Last(run).end - run[0].start <= lim.maxDuration
          && |TextOf(run)| <= 2 * lim.maxChars)
  }

  predicate NotAfter(words: seq<Word>, i: int, j: int)
    requires 0 <= i <= j < |words|
  {
    words[i].start <= words[j].start && words[i].end <= words[j].end
  }

  /** Starts and ends never go back. */
  predicate InOrder(words: seq<Word>) {
    forall i, j | 0 <= i <= j < |words| :: NotAfter(words, i, j)
  }

  function Flatten(runs: seq<seq<Word>>): seq<Word> {
    if runs == [] then [] else runs[0] + Flatten(runs[1..])
  }

  function Runs(gs: seq<Group>): seq<seq<Word>> {
    if gs == [] then [] else [gs[0].run] + Runs(gs[1..])
  }

  /** The start a group should have: that of its first word. */
  predicate WellStarted(g: Group) {
    g.run != [] ==> g.start == g.run[0].start
  }

  lemma PartIsShorter(run: seq<Word>, a: nat, b: nat)
    requires a < b <= |run|
    ensures |TextOf(run[a..b])| <= |TextOf(run)|
  {
    var texts := Texts(run);
    assert Texts(run[a..b]) == texts[..b][a..];
    JoinedLength(texts[..b], a);
    ReachOfPrefix(texts, b, b);
    ReachOfPrefix(texts, b, a);
    JoinedLength(texts, 0);
    assert texts[0..] == texts;
    if b < |texts| { ReachGrows(texts, b, |texts|); }
  }

  lemma PartOfGaps(run: seq<Word>, a: nat, b: nat, lim: Limits)
    requires GapsAllowed(run, lim) && a < b <= |run|
    ensures GapsAllowed(run[a..b], lim)
  {
    forall i | 0 <= i < b - a - 1 ensures GapAllowed(run[a..b], i, lim) {
      assert GapAllowed(run, a + i, lim);
    }
  }

  /** Any part of an allowed run is allowed. */
  lemma PartIsAllowed(run: seq<Word>, a: nat, b: nat, lim: Limits)
    requires Allowed(run, lim) && InOrder(run) && a < b <= |run|
    ensures Allowed(run[a..b], lim)
  {
    if b - a > 1 {
      PartIsShorter(run, a, b);
      PartOfGaps(run, a, b, lim);
      assert NotAfter(run, 0, a) && NotAfter(run, b - 1, |run| - 1);
    }
  }

  /** The three tests of the loop decide exactly whether the longer run is allowed. */
  lemma JoinsIffAllowed(g: Group, w: Word, lim: Limits)
    requires Allowed(g.run, lim) && WellStarted(g)
    ensures Joins(g, w, lim) <==> Allowed(g.run + [w], lim)
  {
    var longer := g.run + [w];
    var n := |g.run|;
    assert longer[..n] == g.run;
    assert GapsAllowed(longer, lim) ==> GapAllowed(longer, n - 1, lim);
    if Joins(g, w, lim) {
      forall i | 0 <= i < n ensures GapAllowed(longer, i, lim) {
        if i < n - 1 { assert GapAllowed(g.run, i, lim); }
      }
    }
  }

  // ---------------------------------------------------------------- main results

  lemma RunsOfCons(g: Group, next: seq<Group>)
    ensures Flatten(Runs([g] + next)) == g.run + Flatten(Runs(next))
  {
    assert ([g] + next)[1..] == next && ([g.run] + Runs(next))[1..] == Runs(next);
  }

  lemma CarryOne(g: Group, w: Word, more: seq<Word>, all: seq<Group>, next: seq<Group>)
    requires !Blank(w)
    requires (all == next && Flatten(Runs(next)) == (g.run + [w]) + Spoken(more))
             || (all == [g] + next && Flatten(Runs(next)) == [w] + Spoken(more))
    ensures Flatten(Runs(all)) == g.run + Spoken([w] + more)
  {
    assert ([w] + more)[1..] == more;
    if all == [g] + next {
      RunsOfCons(g, next);
    }
    assert (g.run + [w]) + Spoken(more) == g.run + ([w] + Spoken(more));
  }

  lemma CarryNone(w: Word, more: seq<Word>)
    requires Blank(w)
    ensures Spoken([w] + more) == Spoken(more)
  {
    assert ([w] + more)[1..] == more;
  }

  /** The groups carry the spoken words in order, each once. */
  lemma {:induction false} GroupsCarryWords(g: Group, rest: seq<Word>, lim: Limits)
    ensures Flatten(Runs(Groups(g, rest, lim))) == g.run + Spoken(rest)
    decreases |rest|
  {
    var all := Groups(g, rest, lim);
    if rest == [] {
      if g.run != [] {
        RunsOfCons(g, []);
      }
    } else {
      var w, more := rest[0], rest[1..];
      assert rest == [w] + more;
      if Blank(w) {
        GroupsCarryWords(g, more, lim);
        CarryNone(w, more);
      } else {
        var open := if g.run == [] || Joins(g, w, lim) then Group(g.start, g.run + [w]) else Group(w.start, [w]);
        var next := Groups(open, more, lim);
        GroupsCarryWords(open, more, lim);
        assert all == next || all == [g] + next by { NextWord(g, rest, lim); }
        CarryOne(g, w, more, all, next);
      }
    }
  }

  lemma {:induction false} GroupsAreAllowed(g: Group, rest: seq<Word>, lim: Limits)
    requires g.run != [] ==> Allowed(g.run, lim)
    requires g.run == [] && rest != [] ==> g.start == rest[0].start && !Blank(rest[0])
    requires WellStarted(g)
    ensures forall h | h in Groups(g, rest, lim) :: Allowed(h.run, lim) && WellStarted(h)
    decreases |rest|
  {
    if rest != [] {
      if Blank(rest[0]) {
        GroupsAreAllowed(g, rest[1..], lim);
      } else {
        if g.run != [] {
          JoinsIffAllowed(g, rest[0], lim);
        }
        if g.run == [] || Joins(g, rest[0], lim) {
          GroupsAreAllowed(Group(g.start, g.run + [rest[0]]), rest[1..], lim);
        } else {
          GroupsAreAllowed(Group(rest[0].start, [rest[0]]), rest[1..], lim);
        }
      }
    }
  }

  lemma {:induction false} BlanksAreSkipped(g: Group, rest: seq<Word>, lim: Limits)
    ensures Groups(g, rest, lim) == Groups(g, Spoken(rest), lim)
    decreases |rest|
  {
    if rest != [] {
      var w, more := rest[0], Spoken(rest[1..]);
      if Blank(w) {
        BlanksAreSkipped(g, rest[1..], lim);
        assert Spoken(rest) == more;
      } else {
        assert Spoken(rest) == [w] + more && Spoken(rest)[1..] == more;
        BlanksAreSkipped(Group(w.start, [w]), rest[1..], lim);
        BlanksAreSkipped(Group(g.start, g.run + [w]), rest[1..], lim);
      }
    }
  }

  /** A way of cutting words into runs that the limits allow. */
  predicate IsCut(cut: seq<seq<Word>>, words: seq<Word>, lim: Limits) {
    Flatten(cut) == words && forall run | run in cut :: Allowed(run, lim)
  }

  lemma FirstRun(cut: seq<seq<Word>>, words: seq<Word>, lim: Limits)
    requires IsCut(cut, words, lim) && words != []
    ensures cut != [] && |cut[0]| <= |words|
    ensures Allowed(words[..|cut[0]|], lim) && IsCut(cut[1..], words[|cut[0]|..], lim)
  {
    var n := |cut[0]|;
    assert cut[0] in cut;
    assert words == cut[0] + Flatten(cut[1..]);
    assert words[..n] == cut[0] && words[n..] == Flatten(cut[1..]);
  }

  lemma PartInOrder(words: seq<Word>, a: nat, b: nat)
    requires InOrder(words) && a <= b <= |words|
    ensures InOrder(words[a..b])
  {
    forall i, j | 0 <= i <= j < b - a ensures NotAfter(words[a..b], i, j) {
      assert NotAfter(words, a + i, a + j);
    }
  }

  lemma SuffixInOrder(words: seq<Word>, a: nat)
    requires InOrder(words) && a <= |words|
    ensures InOrder(words[a..])
  {
    forall i, j | 0 <= i <= j < |words| - a ensures NotAfter(words[a..], i, j) {
      assert NotAfter(words, a + i, a + j);
    }
  }

  /** An allowed run that starts before the group cannot reach past a word that does not join it. */
  lemma FirstRunStops(before: seq<Word>, g: Group, w: Word, all: seq<Word>, n: nat, lim: Limits)
    requires Allowed(g.run, lim) && WellStarted(g) && !Joins(g, w, lim)
    requires before + g.run + [w] <= all && InOrder(all)
    requires n <= |all| && Allowed(all[..n], lim)
    ensures n <= |before| + |g.run|
  {
    var b, e := |before|, |before| + |g.run| + 1;
    if n >= e {
      PartInOrder(all, 0, n);
      PartIsAllowed(all[..n], b, e, lim);
      assert all[..n][b..e] == g.run + [w];
      JoinsIffAllowed(g, w, lim);
    }
  }

  lemma Reslice(all: seq<Word>, n: nat, left: seq<Word>, right: seq<Word>, rest: seq<Word>)
    requires n <= |left| && all == left + rest && right == left[n..]
    ensures all[n..] == right + rest
  {
  }

  /** Dropping the first run of a cut. If that run ends before the group, what is left still covers
      the group; otherwise it covers at least the word that did not join. */
  lemma DropFirstRun(before: seq<Word>, g: Group, rest: seq<Word>, cut: seq<seq<Word>>, lim: Limits)
    returns (left: seq<Word>)
    requires Allowed(g.run, lim) && WellStarted(g) && rest != [] && !Joins(g, rest[0], lim)
    requires InOrder(before + g.run + rest)
    requires IsCut(cut, before + g.run + rest, lim)
    ensures cut != [] && |cut[0]| <= |before| + |g.run|
    ensures left == (before + g.run)[|cut[0]|..]
    ensures InOrder(left + rest) && IsCut(cut[1..], left + rest, lim)
  {
    var all := before + g.run + rest;
    FirstRun(cut, all, lim);
    var n := |cut[0]|;
    assert before + g.run + [rest[0]] <= all;
    FirstRunStops(before, g, rest[0], all, n, lim);
    left := (before + g.run)[n..];
    Reslice(all, n, before + g.run, left, rest);
    SuffixInOrder(all, n);
  }

  /** The greedy loop stays ahead: however `before + g.run + rest` is cut into allowed runs, the loop
      makes no more groups from `g` and `rest` alone. */
  lemma {:induction false} GreedyStaysAhead(before: seq<Word>, g: Group, rest: seq<Word>, cut: seq<seq<Word>>,
                                            lim: Limits)
    requires Allowed(g.run, lim) && WellStarted(g) && NoneBlank(rest)
    requires InOrder(before + g.run + rest)
    requires IsCut(cut, before + g.run + rest, lim)
    ensures |Groups(g, rest, lim)| <= |cut|
    decreases |rest|, |cut|
  {
    if rest == [] {
      FirstRun(cut, before + g.run + rest, lim);
    } else {
      var w, more := rest[0], rest[1..];
      assert w in rest && rest == [w] + more;
      if Joins(g, w, lim) {
        JoinsIffAllowed(g, w, lim);
        assert before + (g.run + [w]) + more == before + g.run + rest;
        GreedyStaysAhead(before, Group(g.start, g.run + [w]), more, cut, lim);
      } else {
        var left := DropFirstRun(before, g, rest, cut, lim);
        if |cut[0]| <= |before| {
          assert left + rest == before[|cut[0]|..] + g.run + rest;
          GreedyStaysAhead(before[|cut[0]|..], g, rest, cut[1..], lim);
        } else {
          assert left + rest == left + [w] + more;
          GreedyStaysAhead(left, Group(w.start, [w]), more, cut[1..], lim);
        }
      }
    }
  }

  /** What every segment shows: its own words, from the start of the first to the end of the last. */
  predicate Faithful(s: Segment, lim: Limits) {
    && Allowed(s.words, lim)
    && s.start == s.words[0].start && s.end == Last(s.words).end
    && s.text == Broken(TextOf(s.words), lim.maxChars, 2)
  }

  function WordsOf(segs: seq<Segment>): seq<Word> {
    if segs == [] then [] else segs[0].words + WordsOf(segs[1..])
  }

  lemma {:induction false} WordsOfSegments(gs: seq<Group>, lim: Limits)
    ensures WordsOf(ToSegments(gs, lim)) == Flatten(Runs(gs))
  {
    if gs != [] {
      WordsOfSegments(gs[1..], lim);
      assert ToSegments(gs, lim)[1..] == ToSegments(gs[1..], lim);
    }
  }

  lemma SegmentsAreFaithful(words: seq<Word>, lim: Limits)
    requires words != [] && !Blank(words[0])
    ensures forall s | s in Segments(words, lim) :: Faithful(s, lim)
  {
    var groups := AllGroups(words, lim);
    GroupsAreAllowed(Group(words[0].start, []), words, lim);
    forall s | s in Segments(words, lim) ensures Faithful(s, lim) {
      var i :| 0 <= i < |groups| && ToSegments(groups, lim)[i] == s;
      assert groups[i] in groups;
    }
  }

  /** The segments carry exactly the spoken words in order; and unless the first word is blank, each of
      them is allowed and shows its own words. */
  lemma SegmentsAreACut(words: seq<Word>, lim: Limits)
    ensures WordsOf(Segments(words, lim)) == Spoken(words)
    ensures words != [] && !Blank(words[0]) ==> forall s | s in Segments(words, lim) :: Faithful(s, lim)
  {
    assert WordsOf(Segments(words, lim)) == Spoken(words) by {
      WordsOfSegments(AllGroups(words, lim), lim);
      if words != [] {
        GroupsCarryWords(Group(words[0].start, []), words, lim);
      }
    }
    if words != [] && !Blank(words[0]) {
      SegmentsAreFaithful(words, lim);
    }
  }

  lemma FewestFromSpoken(words: seq<Word>, cut: seq<seq<Word>>, lim: Limits)
    requires words != [] ==> !Blank(words[0])
    requires InOrder(Spoken(words)) && IsCut(cut, Spoken(words), lim)
    ensures |Segments(words, lim)| <= |cut|
  {
    if words != [] {
      var w, more := words[0], Spoken(words[1..]);
      var first := Group(w.start, [w]);
      assert Group(w.start, [] + [w]) == first;
      BlanksAreSkipped(first, words[1..], lim);
      assert [] + first.run + more == Spoken(words);
      GreedyStaysAhead([], first, more, cut, lim);
    }
  }

  // ---------------------------------------------------------------- a blank first word

  function Moved(w: Word, start: real): Word {
    w.(start := start)
  }

  /** The spoken words as the loop measures them: the first segment starts where the first word of the list
      starts, blank or not. */
  function Rebased(words: seq<Word>): (r: seq<Word>)
    ensures NoneBlank(r)
    ensures words != [] && !Blank(words[0]) ==> r == Spoken(words)
  {
    var spoken := Spoken(words);
    if spoken == [] then [] else
      assert spoken[0] in spoken;
      [Moved(spoken[0], words[0].start)] + spoken[1..]
  }

  /** The same group, but for where the first word says it starts. */
  predicate Alike(g: Group, h: Group) {
    && g.run != [] && |g.run| == |h.run| && h.start == g.start
    && h.run == [Moved(g.run[0], h.run[0].start)] + g.run[1..]
  }

  predicate AllAlike(gs: seq<Group>, hs: seq<Group>) {
    |gs| == |hs| && (gs != [] ==> Alike(gs[0], hs[0]) && gs[1..] == hs[1..])
  }

  lemma AlikeShows(g: Group, h: Group)
    requires Alike(g, h)
    ensures TextOf(g.run) == TextOf(h.run) && Last(g.run).end == Last(h.run).end
  {
    assert Texts(g.run) == Texts(h.run);
  }

  lemma AlikeGrows(g: Group, h: Group, w: Word)
    requires Alike(g, h)
    ensures Alike(Group(g.start, g.run + [w]), Group(h.start, h.run + [w]))
  {
    assert (g.run + [w])[1..] == g.run[1..] + [w];
    assert h.run + [w] == [Moved(g.run[0], h.run[0].start)] + (g.run[1..] + [w]);
  }

  lemma {:induction false} AlikeGroups(g: Group, h: Group, rest: seq<Word>, lim: Limits)
    requires Alike(g, h)
    ensures AllAlike(Groups(g, rest, lim), Groups(h, rest, lim))
    decreases |rest|
  {
    if rest != [] {
      var w, more := rest[0], rest[1..];
      AlikeGrows(g, h, w);
      AlikeShows(g, h);
      AlikeShows(Group(g.start, g.run + [w]), Group(h.start, h.run + [w]));
      NextWord(g, rest, lim);
      NextWord(h, rest, lim);
      if Blank(w) {
        AlikeGroups(g, h, more, lim);
      } else if Joins(g, w, lim) {
        AlikeGroups(Group(g.start, g.run + [w]), Group(h.start, h.run + [w]), more, lim);
      }
    }
  }

  lemma RebasedGroups(words: seq<Word>, lim: Limits)
    ensures AllAlike(AllGroups(words, lim), AllGroups(Rebased(words), lim))
  {
    var spoken := Spoken(words);
    if words != [] {
      BlanksAreSkipped(Group(words[0].start, []), words, lim);
      if spoken != [] {
        var w, more, start := spoken[0], spoken[1..], words[0].start;
        var v := Moved(w, start);
        assert w in spoken && Rebased(words)[1..] == more;
        assert [] + [w] == [w] && [] + [v] == [v];
        AlikeGroups(Group(start, [w]), Group(start, [v]), more, lim);
      }
    }
  }

  lemma AlikeSegments(gs: seq<Group>, hs: seq<Group>, k: nat, lim: Limits)
    requires AllAlike(gs, hs) && k < |gs|
    ensures var a, b := ToSegment(gs[k], lim), ToSegment(hs[k], lim);
            a.start == b.start && a.end == b.end && a.text == b.text
  {
    if k == 0 {
      AlikeShows(gs[0], hs[0]);
    } else {
      assert gs[k] == gs[1..][k - 1] && hs[k] == hs[1..][k - 1];
    }
  }

  /** A blank first word changes nothing but where the first segment starts: the segments have the times
      and texts of those made from the spoken words with the start of the first moved there. */
  lemma BlankFirstWord(words: seq<Word>, lim: Limits)
    ensures var segs, moved := Segments(words, lim), Segments(Rebased(words), lim);
            && |segs| == |moved|
            && forall k | 0 <= k < |segs| ::
                 segs[k].start == moved[k].start && segs[k].end == moved[k].end && segs[k].text == moved[k].text
  {
    RebasedGroups(words, lim);
    var gs, hs := AllGroups(words, lim), AllGroups(Rebased(words), lim);
    forall k | 0 <= k < |gs|
      ensures var a, b := Segments(words, lim)[k], Segments(Rebased(words), lim)[k];
              a.start == b.start && a.end == b.end && a.text == b.text
    {
      AlikeSegments(gs, hs, k, lim);
    }
  }

  lemma {:induction false} SpokenOfSpoken(words: seq<Word>)
    requires NoneBlank(words)
    ensures Spoken(words) == words
  {
    if words != [] {
      assert words[0] in words;
      SpokenOfSpoken(words[1..]);
    }
  }

  /** No way of cutting the spoken words, in time order and measured as the loop measures them, into allowed
      runs uses fewer of them. */
  lemma FewestSegments(words: seq<Word>, cut: seq<seq<Word>>, lim: Limits)
    requires InOrder(Rebased(words)) && IsCut(cut, Rebased(words), lim)
    ensures |Segments(words, lim)| <= |cut|
  {
    BlankFirstWord(words, lim);
    SpokenOfSpoken(Rebased(words));
    FewestFromSpoken(Rebased(words), cut, lim);
  }
}
