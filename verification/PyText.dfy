/**
 The operations of Python's `str` that the subtitle code calls: `strip`, `split`, `find`, `join`
 and `rsplit(" ", 1)[0]`, with the facts about them that the other modules need.
 */
module PyText {

  datatype Option<+T> = None | Some(value: T)

  /** What a call gives back: a value, or a Python exception that leaves the caller. */
  datatype Result<+T> = Ok(value: T) | Raised

  /** The characters for which Python's `str.isspace` holds. */
  predicate IsSpace(c: char) {
    || c == ' ' || '\t' <= c <= '\r' || '\U{1C}' <= c <= '\U{1F}'
    || c == '\U{85}' || c == '\U{A0}' || c == '\U{1680}' || '\U{2000}' <= c <= '\U{200A}'
    || c == '\U{2028}' || c == '\U{2029}' || c == '\U{202F}' || c == '\U{205F}' || c == '\U{3000}'
  }

  predicate AllSpace(s: string) {
    forall i | 0 <= i < |s| :: IsSpace(s[i])
  }

  predicate NoSpace(s: string) {
    forall i | 0 <= i < |s| :: !IsSpace(s[i])
  }

  // ---------------------------------------------------------------- strip

  function LStrip(s: string): string {
    if s != "" && IsSpace(s[0]) then LStrip(s[1..]) else s
  }

  function RStrip(s: string): string {
    if s != "" && IsSpace(s[|s| - 1]) then RStrip(s[..|s| - 1]) else s
  }

  function Strip(s: string): string {
    RStrip(LStrip(s))
  }

  /** No whitespace at either end. */
  predicate IsStripped(s: string) {
    s != "" ==> !IsSpace(s[0]) && !IsSpace(s[|s| - 1])
  }

  lemma {:induction false} LStripSplits(s: string) returns (n: nat)
    ensures n <= |s| && LStrip(s) == s[n..] && AllSpace(s[..n])
    ensures n < |s| ==> !IsSpace(s[n])
  {
    if s != "" && IsSpace(s[0]) {
      var m := LStripSplits(s[1..]);
      n := m + 1;
      assert s[1..][m..] == s[n..];
      assert s[..n] == [s[0]] + s[1..][..m];
    } else {
      n := 0;
      assert s[0..] == s;
    }
  }

  lemma {:induction false} RStripSplits(s: string) returns (n: nat)
    ensures n <= |s| && RStrip(s) == s[..n] && AllSpace(s[n..])
    ensures n > 0 ==> !IsSpace(s[n - 1])
  {
    if s != "" && IsSpace(s[|s| - 1]) {
      var t, c := s[..|s| - 1], s[|s| - 1];
      n := RStripSplits(t);
      assert t[..n] == s[..n];
      assert RStrip(s) == RStrip(t);
      assert AllSpace(s[n..]) by {
        forall k | n <= k < |s| ensures IsSpace(s[k]) {
          assert k < |t| ==> s[k] == t[n..][k - n];
        }
      }
    } else {
      n := |s|;
      assert s[..n] == s;
    }
  }

  /** `strip` removes exactly a whitespace prefix and a whitespace suffix. */
  lemma StripSplits(s: string) returns (a: nat, b: nat)
    ensures a <= b <= |s| && Strip(s) == s[a..b]
    ensures AllSpace(s[..a]) && AllSpace(s[b..])
    ensures IsStripped(Strip(s))
  {
    a := LStripSplits(s);
    var m := RStripSplits(s[a..]);
    b := a + m;
    assert s[a..][..m] == s[a..b];
    assert s[b..] == s[a..][m..];
  }

  lemma StripFixed(s: string)
    requires IsStripped(s)
    ensures Strip(s) == s
  {
  }

  lemma {:induction false} StripPadded(a: string, s: string, b: string)
    requires AllSpace(a) && AllSpace(b) && IsStripped(s) && s != ""
    ensures Strip(a + s + b) == s
    decreases |a|, |b|
  {
    var t := a + s + b;
    if a != "" {
      assert t[1..] == a[1..] + s + b;
      StripPadded(a[1..], s, b);
    } else {
      assert LStrip(t) == t;
      if b != "" {
        assert t[..|t| - 1] == a + s + b[..|b| - 1];
        assert t[|t| - 1] == b[|b| - 1];
        assert LStrip(t[..|t| - 1]) == t[..|t| - 1];
        StripPadded(a, s, b[..|b| - 1]);
      } else {
        assert t == s;
      }
    }
  }

  lemma StripNonempty(s: string, i: nat)
    requires i < |s| && !IsSpace(s[i])
    ensures Strip(s) != ""
  {
    var a, b := StripSplits(s);
    assert forall k | 0 <= k < a :: s[k] == s[..a][k];
    assert forall k | b <= k < |s| :: s[k] == s[b..][k - b];
  }

  // ---------------------------------------------------------------- find

  predicate OccursAt(s: string, sub: string, k: int) {
    0 <= k <= |s| - |sub| && s[k..k + |sub|] == sub
  }

  /** The least index at or after `from` where `sub` occurs, or -1. */
  function FindFrom(s: string, sub: string, from: nat): (r: int)
    ensures r == -1 || (from <= r && OccursAt(s, sub, r))
    ensures forall k | from <= k && OccursAt(s, sub, k) :: r != -1 && r <= k
    decreases |s| - from
  {
    if OccursAt(s, sub, from) then from
    else if from >= |s| then -1
    else FindFrom(s, sub, from + 1)
  }

  function Find(s: string, sub: string): (r: int)
    ensures r == -1 || OccursAt(s, sub, r)
    ensures forall k | OccursAt(s, sub, k) :: r != -1 && r <= k
  {
    FindFrom(s, sub, 0)
  }

  predicate Contains(s: string, sub: string) {
    Find(s, sub) != -1
  }

  predicate StartsWith(s: string, prefix: string) {
    |prefix| <= |s| && s[..|prefix|] == prefix
  }

  lemma OccursChar(s: string, c: char, k: int)
    requires OccursAt(s, [c], k)
    ensures s[k] == c
  {
    assert s[k] == s[k..k + 1][0];
  }

  lemma OccursBrings(s: string, sub: string, k: int, i: nat)
    requires OccursAt(s, sub, k) && i < |sub|
    ensures sub[i] in s
  {
    assert s[k + i] == s[k..k + |sub|][i];
  }

  /** An occurrence inside a part is an occurrence in the whole. */
  lemma OccursInPart(s: string, sub: string, a: nat, b: nat, k: int)
    requires a <= b <= |s| && OccursAt(s[a..b], sub, k)
    ensures OccursAt(s, sub, a + k)
  {
    var t := s[a..b];
    var here, there := s[a + k..a + k + |sub|], t[k..k + |sub|];
    assert forall i | 0 <= i < |sub| :: here[i] == there[i];
  }

  lemma ContainsPart(s: string, sub: string, a: nat, b: nat)
    requires a <= b <= |s| && Contains(s[a..b], sub)
    ensures Contains(s, sub)
  {
    OccursInPart(s, sub, a, b, Find(s[a..b], sub));
  }

  // ---------------------------------------------------------------- split(sep) and join

  /** `s.split(sep)`: cut at every leftmost, non-overlapping occurrence of `sep`. */
  function SplitOn(s: string, sep: string): (parts: seq<string>)
    requires sep != ""
    ensures |parts| >= 1
    decreases |s|
  {
    var i := Find(s, sep);
    if i == -1 then [s] else [s[..i]] + SplitOn(s[i + |sep|..], sep)
  }

  function Join(sep: string, parts: seq<string>): string {
    if |parts| == 0 then ""
    else if |parts| == 1 then parts[0]
    else parts[0] + sep + Join(sep, parts[1..])
  }

  lemma SplitAbsent(s: string, sep: string)
    requires sep != "" && !Contains(s, sep)
    ensures SplitOn(s, sep) == [s]
  {
  }

  /** The first part ends where `sep` first occurs. */
  lemma SplitFirst(a: string, sep: string, b: string)
    requires sep != ""
    requires Find(a + sep + b, sep) == |a|
    ensures SplitOn(a + sep + b, sep) == [a] + SplitOn(b, sep)
  {
    var s := a + sep + b;
    assert s[..|a|] == a;
    assert s[|a| + |sep|..] == b;
  }

  lemma FindChar(a: string, c: char, b: string)
    requires c !in a
    ensures Find(a + [c] + b, [c]) == |a|
  {
    var s := a + [c] + b;
    assert forall k | 0 <= k < |a| :: s[k] == a[k];
    forall k | OccursAt(s, [c], k) ensures k >= |a| {
      OccursChar(s, c, k);
    }
    assert s[|a|..|a| + 1] == [c];
    assert OccursAt(s, [c], |a|);
  }

  /** Splitting at a single character that the first piece does not hold. */
  lemma SplitAtChar(a: string, c: char, b: string)
    requires c !in a
    ensures SplitOn(a + [c] + b, [c]) == [a] + SplitOn(b, [c])
  {
    FindChar(a, c, b);
    SplitFirst(a, [c], b);
  }

  lemma SplitNoChar(a: string, c: char)
    requires c !in a
    ensures SplitOn(a, [c]) == [a]
  {
    forall k ensures !OccursAt(a, [c], k) {
      if OccursAt(a, [c], k) {
        OccursChar(a, c, k);
      }
    }
    SplitAbsent(a, [c]);
  }

  lemma {:induction false} JoinOfSplit(s: string, sep: string)
    requires sep != ""
    ensures Join(sep, SplitOn(s, sep)) == s
    decreases |s|
  {
    var i := Find(s, sep);
    if i != -1 {
      var rest := SplitOn(s[i + |sep|..], sep);
      JoinOfSplit(s[i + |sep|..], sep);
      assert ([s[..i]] + rest)[1..] == rest;
      assert s == s[..i] + s[i..i + |sep|] + s[i + |sep|..];
    }
  }

  /** No part of a split contains the separator. */
  lemma {:induction false} SplitPartsAreFree(s: string, sep: string)
    requires sep != ""
    ensures forall p | p in SplitOn(s, sep) :: !Contains(p, sep)
    decreases |s|
  {
    var i := Find(s, sep);
    if i != -1 {
      SplitPartsAreFree(s[i + |sep|..], sep);
      forall k ensures !OccursAt(s[..i], sep, k) {
        if OccursAt(s[..i], sep, k) {
          OccursInPart(s, sep, 0, i, k);
        }
      }
    }
  }

  /** `s.rsplit(" ", 1)[0]`: everything before the last space, or all of `s`. */
  function LastSpace(s: string): (r: int)
    ensures -1 <= r < |s|
    ensures r >= 0 ==> s[r] == ' '
    ensures forall k | r < k < |s| :: s[k] != ' '
  {
    if s == "" then -1
    else if s[|s| - 1] == ' ' then |s| - 1
    else LastSpace(s[..|s| - 1])
  }

  function BeforeLastSpace(s: string): string {
    var p := LastSpace(s);
    if p == -1 then s else s[..p]
  }

  /** `s[:n]` for a nonnegative `n`. */
  function Take(s: string, n: nat): string {
    if n < |s| then s[..n] else s
  }

  // ---------------------------------------------------------------- split()

  /** The words of `cur + s`, where `cur` is a word not yet ended. */
  function WordsFrom(cur: string, s: string): seq<string>
    decreases |s|
  {
    var done := if cur == "" then [] else [cur];
    if s == "" then done
    else if IsSpace(s[0]) then done + WordsFrom("", s[1..])
    else WordsFrom(cur + [s[0]], s[1..])
  }

  /** `s.split()`: the maximal runs of non-whitespace. */
  function Words(s: string): seq<string> {
    WordsFrom("", s)
  }

  predicate IsWord(w: string) {
    w != "" && NoSpace(w)
  }

  lemma {:induction false} WordsAreWords(cur: string, s: string)
    requires NoSpace(cur)
    ensures forall w | w in WordsFrom(cur, s) :: IsWord(w)
    decreases |s|
  {
    if s != "" {
      if IsSpace(s[0]) {
        WordsAreWords("", s[1..]);
      } else {
        WordsAreWords(cur + [s[0]], s[1..]);
      }
    }
  }

  /** Words cannot run across a whitespace character. */
  lemma {:induction false} WordsCut(cur: string, a: string, b: string)
    requires b == "" || IsSpace(b[0])
    ensures WordsFrom(cur, a + b) == WordsFrom(cur, a) + Words(b)
    decreases |a|
  {
    if a == "" {
      assert a + b == b;
      if b != "" {
        var done := if cur == "" then [] else [cur];
        assert WordsFrom(cur, b) == done + WordsFrom("", b[1..]);
        assert Words(b) == [] + WordsFrom("", b[1..]);
      }
    } else {
      assert (a + b)[1..] == a[1..] + b;
      WordsCut(if IsSpace(a[0]) then "" else cur + [a[0]], a[1..], b);
    }
  }

  lemma {:induction false} WordsOfSpace(cur: string, s: string)
    requires AllSpace(s)
    ensures WordsFrom(cur, s) == if cur == "" then [] else [cur]
    decreases |s|
  {
    if s != "" {
      WordsOfSpace("", s[1..]);
    }
  }

  /** Whitespace before or after a text adds no words. */
  lemma {:induction false} WordsPad(a: string, s: string, b: string)
    requires AllSpace(a) && AllSpace(b)
    ensures Words(a + s + b) == Words(s)
    decreases |a|
  {
    if a == "" {
      assert a + s + b == s + b;
      WordsCut("", s, b);
      WordsOfSpace("", b);
    } else {
      assert (a + s + b)[1..] == a[1..] + s + b;
      WordsPad(a[1..], s, b);
    }
  }

  lemma WordsOfStrip(s: string)
    ensures Words(Strip(s)) == Words(s)
  {
    var a, b := StripSplits(s);
    assert s == s[..a] + s[a..b] + s[b..];
    WordsPad(s[..a], s[a..b], s[b..]);
  }

  /** Cutting a text at a whitespace character and stripping both pieces loses no word. */
  lemma WordsOfPieces(s: string, cut: nat)
    requires cut < |s| && IsSpace(s[cut])
    ensures Words(Strip(s[..cut])) + Words(Strip(s[cut..])) == Words(s)
  {
    assert s == s[..cut] + s[cut..];
    WordsCut("", s[..cut], s[cut..]);
    WordsOfStrip(s[..cut]);
    WordsOfStrip(s[cut..]);
  }

  lemma {:induction false} WordsOfWord(cur: string, w: string)
    requires NoSpace(w)
    ensures WordsFrom(cur, w) == if cur + w == "" then [] else [cur + w]
    decreases |w|
  {
    if w == "" {
      assert cur + w == cur;
    } else {
      assert cur + w == (cur + [w[0]]) + w[1..];
      WordsOfWord(cur + [w[0]], w[1..]);
    }
  }

  /** Two texts on two lines hold the words of the first and then those of the second. */
  lemma WordsOfTwoLines(a: string, sep: char, b: string)
    requires IsSpace(sep)
    ensures Words(a + [sep] + b) == Words(a) + Words(b)
  {
    assert a + [sep] + b == a + ([sep] + b);
    WordsCut("", a, [sep] + b);
    assert ([sep] + b) == [sep] + b + "";
    WordsPad([sep], b, "");
  }

  lemma {:induction false} WordsOfJoin(sep: char, ws: seq<string>)
    requires IsSpace(sep) && forall w | w in ws :: IsWord(w)
    ensures Words(Join([sep], ws)) == ws
  {
    if |ws| > 0 {
      assert IsWord(ws[0]);
      WordsOfWord("", ws[0]);
      assert "" + ws[0] == ws[0];
      if |ws| > 1 {
        WordsOfJoin(sep, ws[1..]);
        WordsOfTwoLines(ws[0], sep, Join([sep], ws[1..]));
      }
    }
  }

  /** `split` then `join` with one-character separators never makes a text longer. */
  lemma {:induction false} JoinedWordsLength(cur: string, s: string)
    ensures |Join(" ", WordsFrom(cur, s))| <= |cur| + |s|
    decreases |s|
  {
    if s != "" {
      if IsSpace(s[0]) {
        var rest := WordsFrom("", s[1..]);
        JoinedWordsLength("", s[1..]);
        assert [] + rest == rest && ([cur] + rest)[1..] == rest;
      } else {
        JoinedWordsLength(cur + [s[0]], s[1..]);
      }
    }
  }

  // ---------------------------------------------------------------- what the words keep

  /** The text without its whitespace. */
  function Ink(s: string): string {
    if s == "" then "" else (if IsSpace(s[0]) then "" else [s[0]]) + Ink(s[1..])
  }

  function Concat(parts: seq<string>): string {
    if parts == [] then "" else parts[0] + Concat(parts[1..])
  }

  lemma {:induction false} InkOfWords(cur: string, s: string)
    ensures Concat(WordsFrom(cur, s)) == cur + Ink(s)
    decreases |s|
  {
    if s != "" {
      if IsSpace(s[0]) {
        InkOfWords("", s[1..]);
        var rest := WordsFrom("", s[1..]);
        assert [] + rest == rest && ([cur] + rest)[1..] == rest;
      } else {
        InkOfWords(cur + [s[0]], s[1..]);
      }
    }
  }

  lemma {:induction false} InkOfConcat(a: string, b: string)
    ensures Ink(a + b) == Ink(a) + Ink(b)
  {
    if a == "" {
      assert a + b == b;
    } else {
      assert (a + b)[1..] == a[1..] + b;
      InkOfConcat(a[1..], b);
    }
  }

  lemma {:induction false} InkOfSpace(s: string)
    ensures Ink(s) == "" <==> AllSpace(s)
  {
    if s != "" {
      InkOfSpace(s[1..]);
      assert AllSpace(s) <==> IsSpace(s[0]) && AllSpace(s[1..]) by {
        assert forall i | 1 <= i < |s| :: s[i] == s[1..][i - 1];
      }
    }
  }

  lemma InkOfStrip(s: string)
    ensures Ink(Strip(s)) == Ink(s)
  {
    var a, b := StripSplits(s);
    assert s == s[..a] + s[a..b] + s[b..];
    InkOfConcat(s[..a] + s[a..b], s[b..]);
    InkOfConcat(s[..a], s[a..b]);
    InkOfSpace(s[..a]);
    InkOfSpace(s[b..]);
  }
}
