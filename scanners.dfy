/** The three regular expressions `splitIntoChunks` cuts text with, as left-to-right
    scanners: `/.{1,4000}/g` for oversized subscriber lines, `/[^.!?]+[.!?]+/g` for
    oversized paragraphs and `split(/\n\n+/)` for paragraphs. */
module Scanners {
  import opened Text

  // ---------------------------------------------------------------------------
  // line.match(/.{1,4000}/g)
  // ---------------------------------------------------------------------------

  /** The longest window `.{1,4000}` takes, in characters. */
  const WindowLength: nat := 4000

  function Min(a: nat, b: nat): nat
  {
    if a <= b then a else b
  }

  /** The matches of `/.{1,4000}/g` from `i` on. `.` does not match a line
      terminator, so the scan steps over those and each match stops at one. */
  function Windows(s: string, i: nat): (ws: seq<string>)
    requires i <= |s|
    decreases |s| - i
  {
    if i >= |s| then []
    else if IsLineTerminator(s[i]) then Windows(s, i + 1)
    else
      var n := Min(Run(s, i, NonLineTerminator), WindowLength);
      [s[i..i + n]] + Windows(s, i + n)
  }

  /** The characters of `s` from `i` on that are not line terminators. */
  function VisibleFrom(s: string, i: nat): string
    requires i <= |s|
    decreases |s| - i
  {
    if i >= |s| then ""
    else if IsLineTerminator(s[i]) then VisibleFrom(s, i + 1)
    else [s[i]] + VisibleFrom(s, i + 1)
  }

  /** A window: one to 4000 characters, none of them a line terminator. */
  predicate IsWindow(w: string)
  {
    1 <= |w| <= WindowLength && forall k :: 0 <= k < |w| ==> !IsLineTerminator(w[k])
  }

  /** Over a stretch free of line terminators the visible text is the stretch itself. */
  lemma {:induction false} VisibleOverClean(s: string, i: nat, j: nat)
    requires i <= j <= |s|
    requires forall k :: i <= k < j ==> !IsLineTerminator(s[k])
    ensures VisibleFrom(s, i) == s[i..j] + VisibleFrom(s, j)
    decreases j - i
  {
    if i < j {
      VisibleOverClean(s, i + 1, j);
      assert VisibleFrom(s, i) == [s[i]] + VisibleFrom(s, i + 1);
      AppendAssoc([s[i]], s[i + 1..j], VisibleFrom(s, j));
      assert s[i..j] == [s[i]] + s[i + 1..j];
    }
  }

  /** Each window is one to 4000 characters with no line terminator. */
  lemma {:induction false} WindowsAreWindows(s: string, i: nat)
    requires i <= |s|
    ensures forall k :: 0 <= k < |Windows(s, i)| ==> IsWindow(Windows(s, i)[k])
    decreases |s| - i
  {
    if i < |s| && !IsLineTerminator(s[i]) {
      var n := Min(Run(s, i, NonLineTerminator), WindowLength);
      var rest := Windows(s, i + n);
      assert Windows(s, i) == [s[i..i + n]] + rest;
      WindowsAreWindows(s, i + n);
      RunIsMaximal(s, i, NonLineTerminator);
      WindowsPrepend(s[i..i + n], rest);
    } else if i < |s| {
      assert Windows(s, i) == Windows(s, i + 1);
      WindowsAreWindows(s, i + 1);
    }
  }

  lemma WindowsPrepend(w: string, rest: seq<string>)
    requires IsWindow(w) && forall k :: 0 <= k < |rest| ==> IsWindow(rest[k])
    ensures forall k :: 0 <= k < |[w] + rest| ==> IsWindow(([w] + rest)[k])
  {
    forall k | 0 <= k < |[w] + rest| ensures IsWindow(([w] + rest)[k]) {
      if k > 0 {
        assert ([w] + rest)[k] == rest[k - 1];
      }
    }
  }

  /** Window `w` stands in `s` at `at` and is as long as the greedy `.{1,4000}`
      makes it: 4000 characters, or fewer only where the text ends or a line
      terminator follows. */
  predicate WindowAt(s: string, at: nat, w: string)
  {
    && at + |w| <= |s| && s[at..at + |w|] == w
    && (|w| == WindowLength || at + |w| == |s| || IsLineTerminator(s[at + |w|]))
  }

  /** Window `ws[k]` stands at `starts[k]`, no earlier than `from`; the windows
      are in order and do not overlap, and each is maximal. */
  predicate WindowsPlaced(s: string, from: nat, ws: seq<string>, starts: seq<nat>)
  {
    && |starts| == |ws|
    && (forall k :: 0 <= k < |starts| ==> from <= starts[k] && WindowAt(s, starts[k], ws[k]))
    && (forall k :: 0 < k < |starts| ==> starts[k - 1] + |ws[k - 1]| <= starts[k])
  }

  /** Where each window stands: in order, apart, and each one maximal. */
  lemma {:induction false} WindowsGreedy(s: string, i: nat) returns (starts: seq<nat>)
    requires i <= |s|
    ensures WindowsPlaced(s, i, Windows(s, i), starts)
    decreases |s| - i
  {
    if i >= |s| {
      starts := [];
    } else if IsLineTerminator(s[i]) {
      assert Windows(s, i) == Windows(s, i + 1);
      starts := WindowsGreedy(s, i + 1);
    } else {
      var n := Min(Run(s, i, NonLineTerminator), WindowLength);
      FirstWindowAt(s, i);
      var rest := WindowsGreedy(s, i + n);
      assert Windows(s, i) == [s[i..i + n]] + Windows(s, i + n);
      starts := [i] + rest;
      WindowsGreedyCons(s, i, n, Windows(s, i + n), rest);
    }
  }

  /** The first window of a line is maximal. */
  lemma FirstWindowAt(s: string, i: nat)
    requires i < |s| && !IsLineTerminator(s[i])
    ensures var n := Min(Run(s, i, NonLineTerminator), WindowLength);
      0 < n && i + n <= |s| && WindowAt(s, i, s[i..i + n])
  {
    RunIsMaximal(s, i, NonLineTerminator);
    var n := Min(Run(s, i, NonLineTerminator), WindowLength);
    assert |s[i..i + n]| == n;
  }

  lemma WindowsGreedyCons(s: string, i: nat, n: nat, ws: seq<string>, rest: seq<nat>)
    requires 0 < n && i + n <= |s| && WindowAt(s, i, s[i..i + n])
    requires WindowsPlaced(s, i + n, ws, rest)
    ensures WindowsPlaced(s, i, [s[i..i + n]] + ws, [i] + rest)
  {
    var all := [s[i..i + n]] + ws;
    var starts := [i] + rest;
    forall k | 0 < k < |starts| ensures starts[k] == rest[k - 1] && all[k] == ws[k - 1] { }
  }

  /** Together the windows are exactly the line without its terminators: nothing
      is lost and nothing repeated. */
  lemma {:induction false} WindowsCoverLine(s: string, i: nat)
    requires i <= |s|
    ensures Concat(Windows(s, i)) == VisibleFrom(s, i)
    decreases |s| - i
  {
    if i < |s| && !IsLineTerminator(s[i]) {
      var n := Min(Run(s, i, NonLineTerminator), WindowLength);
      var rest := Windows(s, i + n);
      assert Windows(s, i) == [s[i..i + n]] + rest;
      WindowsCoverLine(s, i + n);
      RunIsMaximal(s, i, NonLineTerminator);
      VisibleOverClean(s, i, i + n);
      assert ([s[i..i + n]] + rest)[1..] == rest;
    } else if i < |s| {
      assert Windows(s, i) == Windows(s, i + 1);
      WindowsCoverLine(s, i + 1);
    }
  }

  // ---------------------------------------------------------------------------
  // paragraph.match(/[^.!?]+[.!?]+/g) || [paragraph]
  // ---------------------------------------------------------------------------

  /** The matches of `/[^.!?]+[.!?]+/g` from `i` on. No match starts at a sentence
      end, so the scan first steps over those; a match then takes the greedy run
      of other characters, the sentence end that stops it and the greedy run of
      sentence ends after that. When the other characters reach the end of the
      text there is no further match. */
  function SentencesFrom(s: string, i: nat): (ss: seq<string>)
    requires i <= |s|
    decreases |s| - i
  {
    var a := i + Run(s, i, SentenceEnd);
    var b := a + Run(s, a, NonSentenceEnd);
    if b >= |s| then []
    else [s[a..b + 1 + Run(s, b + 1, SentenceEnd)]] + SentencesFrom(s, b + 1 + Run(s, b + 1, SentenceEnd))
  }

  /** A run that does not reach the end stops at a character outside its class. */
  lemma RunStops(s: string, i: nat, k: CharClass)
    requires i <= |s|
    ensures i + Run(s, i, k) == |s| || !InClass(s[i + Run(s, i, k)], k)
  {
    RunIsMaximal(s, i, k);
  }

  /** Where a match is found: it starts at a character other than a sentence end,
      its greedy runs are what the scan takes, and the scan resumes where no
      sentence end follows. */
  lemma SentenceBounds(s: string, i: nat, a: nat, b: nat, c: nat)
    requires i <= |s| && a == i + Run(s, i, SentenceEnd) && b == a + Run(s, a, NonSentenceEnd)
    requires b < |s| && c == b + 1 + Run(s, b + 1, SentenceEnd)
    ensures a < b < c <= |s| && IsSentenceEnd(s[b]) && c == b + Run(s, b, SentenceEnd)
    ensures Run(s, c, SentenceEnd) == 0
  {
    RunStops(s, i, SentenceEnd);
    RunStops(s, a, NonSentenceEnd);
    RunStops(s, b + 1, SentenceEnd);
    assert Run(s, a, NonSentenceEnd) == 1 + Run(s, a + 1, NonSentenceEnd);
  }

  /** One step of the scan where a match is found. */
  lemma SentencesStep(s: string, i: nat, a: nat, b: nat, c: nat)
    requires i <= |s| && a == i + Run(s, i, SentenceEnd) && b == a + Run(s, a, NonSentenceEnd)
    requires b < |s| && c == b + 1 + Run(s, b + 1, SentenceEnd)
    ensures SentencesFrom(s, i) == [s[a..c]] + SentencesFrom(s, c)
  {
  }

  /** A sentence match: one or more characters other than `.`, `!` and `?`,
      then one or more of those. */
  predicate IsSentence(t: string)
  {
    exists b :: 0 < b < |t| && AllInClass(t[..b], NonSentenceEnd) && AllInClass(t[b..], SentenceEnd)
  }

  /** Each match is a sentence. */
  lemma {:induction false} SentencesAreSentences(s: string, i: nat)
    requires i <= |s|
    ensures forall k :: 0 <= k < |SentencesFrom(s, i)| ==> IsSentence(SentencesFrom(s, i)[k])
    decreases |s| - i
  {
    var a := i + Run(s, i, SentenceEnd);
    var b := a + Run(s, a, NonSentenceEnd);
    if b < |s| {
      var c := b + 1 + Run(s, b + 1, SentenceEnd);
      SentenceBounds(s, i, a, b, c);
      SentencesStep(s, i, a, b, c);
      SentencesAreSentences(s, c);
      MatchIsSentence(s, a, b, c);
      SentencesPrepend(s[a..c], SentencesFrom(s, c));
    }
  }

  lemma MatchIsSentence(s: string, a: nat, b: nat, c: nat)
    requires a < b < c <= |s| && b == a + Run(s, a, NonSentenceEnd) && c == b + Run(s, b, SentenceEnd)
    ensures IsSentence(s[a..c])
  {
    RunIsMaximal(s, a, NonSentenceEnd);
    RunIsMaximal(s, b, SentenceEnd);
    var t := s[a..c];
    assert t[..b - a] == s[a..b];
    assert t[b - a..] == s[b..c];
    assert AllInClass(t[..b - a], NonSentenceEnd);
    assert AllInClass(t[b - a..], SentenceEnd);
  }

  lemma SentencesPrepend(m: string, rest: seq<string>)
    requires IsSentence(m) && forall k :: 0 <= k < |rest| ==> IsSentence(rest[k])
    ensures forall k :: 0 <= k < |[m] + rest| ==> IsSentence(([m] + rest)[k])
  {
    forall k | 0 <= k < |[m] + rest| ensures IsSentence(([m] + rest)[k]) {
      if k > 0 {
        assert ([m] + rest)[k] == rest[k - 1];
      }
    }
  }

  /** The sentences are consecutive pieces of the text: after a leading run of
      sentence ends they run up to some index `t`, and from `t` on there is no
      sentence end (a trailing fragment matched by nothing). */
  lemma {:induction false} SentencesCover(s: string, i: nat) returns (t: nat)
    requires i <= |s|
    ensures i + Run(s, i, SentenceEnd) <= t <= |s|
    ensures s[i + Run(s, i, SentenceEnd)..t] == Concat(SentencesFrom(s, i))
    ensures forall k :: t <= k < |s| ==> !IsSentenceEnd(s[k])
    decreases |s| - i
  {
    var a := i + Run(s, i, SentenceEnd);
    var b := a + Run(s, a, NonSentenceEnd);
    if b >= |s| {
      t := a;
      assert SentencesFrom(s, i) == [];
      FragmentHasNoEnd(s, a);
    } else {
      var c := b + 1 + Run(s, b + 1, SentenceEnd);
      SentenceBounds(s, i, a, b, c);
      SentencesStep(s, i, a, b, c);
      t := SentencesCover(s, c);
      ConcatSlices(s, a, c, t, SentencesFrom(s, c));
    }
  }

  /** Text without a sentence end up to the end of the string. */
  lemma FragmentHasNoEnd(s: string, i: nat)
    requires i <= |s| && i + Run(s, i, NonSentenceEnd) == |s|
    ensures forall k :: i <= k < |s| ==> !IsSentenceEnd(s[k])
  {
    RunIsMaximal(s, i, NonSentenceEnd);
    forall k | i <= k < |s| ensures !IsSentenceEnd(s[k]) {
      assert InClass(s[k], NonSentenceEnd);
    }
  }

  /** A slice followed by pieces that make up the next slice. */
  lemma ConcatSlices(s: string, i: nat, j: nat, t: nat, rest: seq<string>)
    requires i <= j <= t <= |s| && s[j..t] == Concat(rest)
    ensures s[i..t] == Concat([s[i..j]] + rest)
  {
    assert ([s[i..j]] + rest)[1..] == rest;
    assert s[i..t] == s[i..j] + s[j..t];
  }

  /** What the default branch iterates over for an oversized paragraph: its
      sentences, or the paragraph itself when it holds none. */
  function SentencesOrWhole(paragraph: string): (ss: seq<string>)
    ensures |ss| > 0
  {
    var found := SentencesFrom(paragraph, 0);
    if |found| > 0 then found else [paragraph]
  }

  /** A paragraph without `.`, `!` or `?` holds no match, so it is kept whole. */
  lemma NoSentenceEndKeptWhole(paragraph: string)
    requires forall k :: 0 <= k < |paragraph| ==> !IsSentenceEnd(paragraph[k])
    ensures SentencesFrom(paragraph, 0) == [] && SentencesOrWhole(paragraph) == [paragraph]
  {
    RunIsMaximal(paragraph, 0, SentenceEnd);
    RunIsMaximal(paragraph, 0, NonSentenceEnd);
  }

  // ---------------------------------------------------------------------------
  // text.split(/\n\n+/)
  // ---------------------------------------------------------------------------

  /** `s.split(/\n\n+/)` continued from a piece starting at `p`, scanning at `q`:
      each separator is the greedy run of two or more newlines found leftmost. */
  function ParagraphsFrom(s: string, p: nat, q: nat): (parts: seq<string>)
    requires p <= q <= |s|
    ensures |parts| > 0
    decreases |s| - q
  {
    if q >= |s| then [s[p..]]
    else
      var n := Run(s, q, Newline);
      if n < 2 then ParagraphsFrom(s, p, q + 1)
      else [s[p..q]] + ParagraphsFrom(s, q + n, q + n)
  }

  function Paragraphs(s: string): (parts: seq<string>)
    ensures |parts| > 0
  {
    ParagraphsFrom(s, 0, 0)
  }

  /** Two newlines in a row at `k`. */
  predicate BlankLineAt(s: string, k: nat)
  {
    k + 1 < |s| && s[k] == '\n' && s[k + 1] == '\n'
  }

  /** No paragraph holds an empty line. */
  predicate NoBlankLine(t: string)
  {
    forall k :: 0 <= k < |t| ==> !BlankLineAt(t, k)
  }

  /** Positions a run of fewer than two newlines starts at hold no blank line. */
  lemma ShortRunNoBlank(s: string, q: nat)
    requires q < |s| && Run(s, q, Newline) < 2
    ensures !BlankLineAt(s, q)
  {
  }

  /** No blank line starts in `s[p..q]`, read within the whole of `s`. */
  predicate NoBlankIn(s: string, p: nat, q: nat)
  {
    forall k :: p <= k < q ==> !BlankLineAt(s, k)
  }

  /** No piece holds an empty line. */
  predicate EachNoBlankLine(parts: seq<string>)
  {
    forall i :: 0 <= i < |parts| ==> NoBlankLine(parts[i])
  }

  lemma SliceNoBlank(s: string, p: nat, q: nat)
    requires p <= q <= |s|
    requires NoBlankIn(s, p, q)
    ensures NoBlankLine(s[p..q])
  {
    forall k | 0 <= k < q - p ensures !BlankLineAt(s[p..q], k) {
      assert !BlankLineAt(s, p + k);
    }
  }

  /** Every paragraph is free of empty lines. */
  lemma {:induction false} ParagraphsHaveNoBlankLine(s: string, p: nat, q: nat)
    requires p <= q <= |s| && NoBlankIn(s, p, q)
    ensures EachNoBlankLine(ParagraphsFrom(s, p, q))
    decreases |s| - q
  {
    if q >= |s| {
      SliceNoBlank(s, p, |s|);
      assert s[p..|s|] == s[p..];
      assert ParagraphsFrom(s, p, q) == [s[p..]];
    } else {
      var n := Run(s, q, Newline);
      if n < 2 {
        ShortRunNoBlank(s, q);
        assert ParagraphsFrom(s, p, q) == ParagraphsFrom(s, p, q + 1);
        ParagraphsHaveNoBlankLine(s, p, q + 1);
      } else {
        var rest := ParagraphsFrom(s, q + n, q + n);
        assert ParagraphsFrom(s, p, q) == [s[p..q]] + rest;
        SliceNoBlank(s, p, q);
        ParagraphsHaveNoBlankLine(s, q + n, q + n);
        ConsNoBlankLine(s[p..q], rest);
      }
    }
  }

  lemma ConsNoBlankLine(x: string, rest: seq<string>)
    requires NoBlankLine(x) && EachNoBlankLine(rest)
    ensures EachNoBlankLine([x] + rest)
  {
    forall i | 0 <= i < |[x] + rest| ensures NoBlankLine(([x] + rest)[i]) {
      if i > 0 {
        assert ([x] + rest)[i] == rest[i - 1];
      }
    }
  }

  /** No three newlines in a row. */
  predicate NoTripleNewline(s: string)
  {
    forall k :: 0 <= k < |s| ==> !(BlankLineAt(s, k) && k + 2 < |s| && s[k + 2] == '\n')
  }

  /** Where no separator is longer than two newlines, joining the paragraphs with
      `"\n\n"` gives the text back. */
  lemma {:induction false} ParagraphsRoundTrip(s: string, p: nat, q: nat)
    requires p <= q <= |s| && NoTripleNewline(s)
    ensures Join(ParagraphsFrom(s, p, q), "\n\n") == s[p..]
    decreases |s| - q
  {
    if q < |s| {
      var n := Run(s, q, Newline);
      if n < 2 {
        assert ParagraphsFrom(s, p, q) == ParagraphsFrom(s, p, q + 1);
        ParagraphsRoundTrip(s, p, q + 1);
      } else {
        SeparatorIsTwoNewlines(s, q);
        var rest := ParagraphsFrom(s, q + 2, q + 2);
        assert ParagraphsFrom(s, p, q) == [s[p..q]] + rest;
        ParagraphsRoundTrip(s, q + 2, q + 2);
        ParagraphStep(s, p, q, rest);
      }
    }
  }

  lemma SeparatorIsTwoNewlines(s: string, q: nat)
    requires q < |s| && NoTripleNewline(s) && Run(s, q, Newline) >= 2
    ensures Run(s, q, Newline) == 2 && s[q] == '\n' && s[q + 1] == '\n'
  {
    assert Run(s, q + 1, Newline) >= 1;
    assert s[q + 1] == '\n';
    if q + 2 < |s| && s[q + 2] == '\n' {
      assert BlankLineAt(s, q);
    }
  }

  lemma ParagraphStep(s: string, p: nat, q: nat, rest: seq<string>)
    requires p <= q && q + 2 <= |s| && s[q] == '\n' && s[q + 1] == '\n'
    requires |rest| > 0 && Join(rest, "\n\n") == s[q + 2..]
    ensures Join([s[p..q]] + rest, "\n\n") == s[p..]
  {
    JoinCons(s[p..q], rest, "\n\n");
    TwoNewlines(s, q);
    SliceAround(s, p, q, q + 2);
  }

  lemma TwoNewlines(s: string, q: nat)
    requires q + 2 <= |s| && s[q] == '\n' && s[q + 1] == '\n'
    ensures s[q..q + 2] == "\n\n"
  {
  }

  /** A suffix is the slice up to `q`, the slice from `q` to `r` and the rest. */
  lemma SliceAround(s: string, p: nat, q: nat, r: nat)
    requires p <= q <= r <= |s|
    ensures s[p..] == s[p..q] + s[q..r] + s[r..]
  {
    assert s[p..] == s[p..q] + s[q..];
    assert s[q..] == s[q..r] + s[r..];
  }

  lemma JoinCons(x: string, rest: seq<string>, sep: string)
    requires |rest| > 0
    ensures Join([x] + rest, sep) == x + sep + Join(rest, sep)
  {
    assert ([x] + rest)[1..] == rest;
  }
}
