/** The content normaliser `preprocessContent` (server/index.js): quote straightening,
    then a rewrite chosen by the exact file name. The two regular expressions it uses,
    `/\["([^"]+)",\s*"([^"]+)"\]/` and `/(\d+\.\s+)/`, are written as scanners; neither
    has a backtracking alternative, so each match is determined by greedy runs. */
module Normalizer {
  import opened Text

  /** The rewriting rule applied to a file, chosen by its exact name. */
  datatype Format = FaqPairs | KnowledgeBase | Plain

  const FaqFile := "FAQ.txt"
  /** The spelling is the one the server compares against. */
  const KnowledgeBaseFile := "Knowledege Base QnA.txt"

  function FormatOf(filename: string): Format
  {
    if filename == FaqFile then FaqPairs
    else if filename == KnowledgeBaseFile then KnowledgeBase
    else Plain
  }

  // ---------------------------------------------------------------------------
  // Quote straightening
  // ---------------------------------------------------------------------------

  predicate IsCurlySingle(c: char) { c == '\U{2018}' || c == '\U{2019}' }
  predicate IsCurlyDouble(c: char) { c == '\U{201C}' || c == '\U{201D}' }

  function StraightQuote(c: char): char
  {
    if IsCurlySingle(c) then '\'' else if IsCurlyDouble(c) then '"' else c
  }

  /** `replace(/[‘’]/g, "'").replace(/[“”]/g, '"')`. */
  function StraightenQuotes(s: string): (r: string)
    ensures |r| == |s|
    ensures forall i :: 0 <= i < |r| ==> !IsCurlySingle(r[i]) && !IsCurlyDouble(r[i])
    ensures forall i :: 0 <= i < |s| && IsCurlySingle(s[i]) ==> r[i] == '\''
    ensures forall i :: 0 <= i < |s| && IsCurlyDouble(s[i]) ==> r[i] == '"'
    ensures forall i :: 0 <= i < |s| && !IsCurlySingle(s[i]) && !IsCurlyDouble(s[i]) ==> r[i] == s[i]
  {
    seq(|s|, i requires 0 <= i < |s| => StraightQuote(s[i]))
  }

  /** Straightening twice is straightening once. */
  lemma StraightenIdempotent(s: string)
    ensures StraightenQuotes(StraightenQuotes(s)) == StraightenQuotes(s)
  {
  }

  // ---------------------------------------------------------------------------
  // The pair pattern  \["([^"]+)",\s*"([^"]+)"\]
  // ---------------------------------------------------------------------------

  /** One match of the pair pattern: `s[start..end]` is the matched text. */
  datatype PairMatch = PairMatch(start: nat, end: nat, question: string, spacing: string, answer: string)

  /** The text a match with these parts consists of. */
  function PairText(question: string, spacing: string, answer: string): string
  {
    "[\"" + (question + ("\"," + (spacing + ("\"" + (answer + "\"]")))))
  }

  /** The parts the pattern admits: both captures non-empty and free of `"`,
      the spacing all `\s`. */
  predicate WellFormedPair(question: string, spacing: string, answer: string)
  {
    && |question| > 0 && (forall i :: 0 <= i < |question| ==> InClass(question[i], NonQuote))
    && |answer| > 0 && (forall i :: 0 <= i < |answer| ==> InClass(answer[i], NonQuote))
    && (forall i :: 0 <= i < |spacing| ==> InClass(spacing[i], Whitespace))
  }

  /** A slice made of two known neighbours. */
  lemma Glue(s: string, i: nat, k: nat, j: nat, x: string, y: string)
    requires i <= k <= j <= |s| && s[i..k] == x && s[k..j] == y
    ensures s[i..j] == x + y
  {
    assert s[i..j] == s[i..k] + s[k..j];
  }

  /** A slice known to be `x + y` splits into a slice equal to `x` and one equal to `y`. */
  lemma Peel(s: string, i: nat, j: nat, x: string, y: string)
    requires i <= j <= |s| && s[i..j] == x + y
    ensures i + |x| <= j && s[i..i + |x|] == x && s[i + |x|..j] == y
  {
    assert s[i..i + |x|] == s[i..j][..|x|];
    assert s[i + |x|..j] == s[i..j][|x|..];
  }

  /** The greedy run of class `k` at `i` is exactly `piece` when `piece` stands
      there and is not followed by another `k`-character. */
  lemma RunIsPiece(s: string, i: nat, piece: string, k: CharClass)
    requires i + |piece| <= |s| && s[i..i + |piece|] == piece
    requires forall j :: 0 <= j < |piece| ==> InClass(piece[j], k)
    requires i + |piece| == |s| || !InClass(s[i + |piece|], k)
    ensures Run(s, i, k) == |piece|
  {
    RunIsMaximal(s, i, k);
    forall j | i <= j < i + |piece| ensures InClass(s[j], k) {
      assert s[j] == piece[j - i];
    }
  }

  /** The match of the pair pattern anchored at `p`, if any. */
  function PairAt(s: string, p: nat): (r: Option<PairMatch>)
    ensures r.Some? ==> r.value.start == p < r.value.end <= |s|
  {
    if p + 2 > |s| || s[p] != '[' || s[p + 1] != '"' then None
    else
      var q1 := p + 2 + Run(s, p + 2, NonQuote);
      if q1 == p + 2 || q1 + 2 > |s| || s[q1 + 1] != ',' then None
      else
        var q2 := q1 + 2 + Run(s, q1 + 2, Whitespace);
        if q2 >= |s| || s[q2] != '"' then None
        else
          var q3 := q2 + 1 + Run(s, q2 + 1, NonQuote);
          if q3 == q2 + 1 || q3 + 2 > |s| || s[q3 + 1] != ']' then None
          else
            Some(PairMatch(p, q3 + 2, s[p + 2..q1], s[q1 + 2..q2], s[q2 + 1..q3]))
  }

  /** The cut points of a match `PairAt` reports, and the facts it checked there. */
  lemma PairAtUnfold(s: string, p: nat) returns (q1: nat, q2: nat, q3: nat)
    requires PairAt(s, p).Some?
    ensures q1 == p + 2 + Run(s, p + 2, NonQuote)
    ensures q2 == q1 + 2 + Run(s, q1 + 2, Whitespace)
    ensures q3 == q2 + 1 + Run(s, q2 + 1, NonQuote)
    ensures p + 2 < q1 && q1 + 2 <= q2 && q2 + 1 < q3 && q3 + 2 <= |s|
    ensures s[p] == '[' && s[p + 1] == '"' && s[q1 + 1] == ',' && s[q2] == '"' && s[q3 + 1] == ']'
    ensures PairAt(s, p) == Some(PairMatch(p, q3 + 2, s[p + 2..q1], s[q1 + 2..q2], s[q2 + 1..q3]))
  {
    q1 := p + 2 + Run(s, p + 2, NonQuote);
    q2 := q1 + 2 + Run(s, q1 + 2, Whitespace);
    q3 := q2 + 1 + Run(s, q2 + 1, NonQuote);
  }

  /** Soundness of `PairAt`: what it reports is a well-formed pair, standing at `p`. */
  lemma PairAtSound(s: string, p: nat)
    requires PairAt(s, p).Some?
    ensures var m := PairAt(s, p).value;
      WellFormedPair(m.question, m.spacing, m.answer)
      && s[p..m.end] == PairText(m.question, m.spacing, m.answer)
  {
    var q1, q2, q3 := PairAtUnfold(s, p);
    CapturesWellFormed(s, p, q1, q2, q3);
    QuoteEndsRun(s, p + 2);
    QuoteEndsRun(s, q2 + 1);
    PairTextAt(s, p, q1, q2, q3);
  }

  /** The three captures of a match are what the pattern admits. */
  lemma CapturesWellFormed(s: string, p: nat, q1: nat, q2: nat, q3: nat)
    requires p + 2 < q1 && q1 + 2 <= q2 && q2 + 1 < q3 && q3 <= |s|
    requires q1 == p + 2 + Run(s, p + 2, NonQuote)
    requires q2 == q1 + 2 + Run(s, q1 + 2, Whitespace)
    requires q3 == q2 + 1 + Run(s, q2 + 1, NonQuote)
    ensures WellFormedPair(s[p + 2..q1], s[q1 + 2..q2], s[q2 + 1..q3])
  {
    RunIsMaximal(s, p + 2, NonQuote);
    RunIsMaximal(s, q1 + 2, Whitespace);
    RunIsMaximal(s, q2 + 1, NonQuote);
    SliceInClass(s, p + 2, q1, NonQuote);
    SliceInClass(s, q1 + 2, q2, Whitespace);
    SliceInClass(s, q2 + 1, q3, NonQuote);
  }

  /** A run of non-quotes that does not reach the end stops at a quote. */
  lemma QuoteEndsRun(s: string, i: nat)
    requires i <= |s| && i + Run(s, i, NonQuote) < |s|
    ensures s[i + Run(s, i, NonQuote)] == '"'
  {
    RunIsMaximal(s, i, NonQuote);
  }

  /** The text between the cut points of a match is the pair text of its captures. */
  lemma PairTextAt(s: string, p: nat, q1: nat, q2: nat, q3: nat)
    requires p + 2 < q1 && q1 + 2 <= q2 && q2 + 1 < q3 && q3 + 2 <= |s|
    requires s[p] == '[' && s[p + 1] == '"' && s[q1] == '"' && s[q1 + 1] == ','
    requires s[q2] == '"' && s[q3] == '"' && s[q3 + 1] == ']'
    ensures s[p..q3 + 2] == PairText(s[p + 2..q1], s[q1 + 2..q2], s[q2 + 1..q3])
  {
    var e := q3 + 2;
    PairTailAt(s, q1, q2, q3);
    Glue(s, p + 2, q1, e, s[p + 2..q1], s[q1..e]);
    Glue(s, p, p + 2, e, "[\"", s[p + 2..e]);
  }

  /** The pair's text from the comma on. */
  lemma PairTailAt(s: string, q1: nat, q2: nat, q3: nat)
    requires q1 + 2 <= q2 && q2 + 1 < q3 && q3 + 2 <= |s|
    requires s[q1] == '"' && s[q1 + 1] == ',' && s[q2] == '"' && s[q3] == '"' && s[q3 + 1] == ']'
    ensures s[q1..q3 + 2] == "\"," + (s[q1 + 2..q2] + ("\"" + (s[q2 + 1..q3] + "\"]")))
  {
    var e := q3 + 2;
    Glue(s, q2 + 1, q3, e, s[q2 + 1..q3], "\"]");
    Glue(s, q2, q2 + 1, e, "\"", s[q2 + 1..e]);
    Glue(s, q1 + 2, q2, e, s[q1 + 2..q2], s[q2..e]);
    Glue(s, q1, q1 + 2, e, "\",", s[q1 + 2..e]);
  }

  lemma SliceInClass(s: string, i: nat, j: nat, k: CharClass)
    requires i <= j <= |s|
    requires forall m :: i <= m < j ==> InClass(s[m], k)
    ensures forall m :: 0 <= m < j - i ==> InClass(s[i..j][m], k)
  {
  }

  /** Converse of `PairAt`'s contract: wherever the text of a well-formed pair
      stands, the pattern matches exactly it. */
  lemma PairAtComplete(s: string, p: nat, question: string, spacing: string, answer: string)
    requires WellFormedPair(question, spacing, answer)
    requires p + |PairText(question, spacing, answer)| <= |s|
    requires s[p..p + |PairText(question, spacing, answer)|] == PairText(question, spacing, answer)
    ensures PairAt(s, p) == Some(PairMatch(p, p + |PairText(question, spacing, answer)|, question, spacing, answer))
  {
    var q1, q2, q3 := PeelPair(s, p, question, spacing, answer);
    PairCharsFromSlices(s, p, q1, q2, q3);
    PairRunsFromSlices(s, p, q1, q2, q3, question, spacing, answer);
    PairAtFromFacts(s, p, q1, q2, q3);
  }

  lemma PairCharsFromSlices(s: string, p: nat, q1: nat, q2: nat, q3: nat)
    requires p + 2 <= q1 && q1 + 2 <= q2 && q2 + 1 <= q3 && q3 + 2 <= |s|
    requires s[p..p + 2] == "[\"" && s[q1..q1 + 2] == "\"," && s[q2..q2 + 1] == "\"" && s[q3..q3 + 2] == "\"]"
    ensures s[p] == '[' && s[p + 1] == '"' && s[q1] == '"' && s[q1 + 1] == ','
    ensures s[q2] == '"' && s[q3] == '"' && s[q3 + 1] == ']'
  {
    LiteralAt(s, p, "[\"");
    LiteralAt(s, q1, "\",");
    LiteralAt(s, q2, "\"");
    LiteralAt(s, q3, "\"]");
  }

  lemma PairRunsFromSlices(s: string, p: nat, q1: nat, q2: nat, q3: nat,
                           question: string, spacing: string, answer: string)
    requires WellFormedPair(question, spacing, answer)
    requires p + 2 <= q1 && q1 + 2 <= q2 && q2 + 1 <= q3 && q3 < |s|
    requires s[p + 2..q1] == question && s[q1 + 2..q2] == spacing && s[q2 + 1..q3] == answer
    requires s[q1] == '"' && s[q2] == '"' && s[q3] == '"'
    ensures Run(s, p + 2, NonQuote) == |question|
    ensures Run(s, q1 + 2, Whitespace) == |spacing|
    ensures Run(s, q2 + 1, NonQuote) == |answer|
  {
    RunIsPiece(s, p + 2, question, NonQuote);
    RunIsPiece(s, q1 + 2, spacing, Whitespace);
    RunIsPiece(s, q2 + 1, answer, NonQuote);
  }

  /** The pieces of a pair text standing at `p`, cut where the pattern cuts it. */
  lemma PeelPair(s: string, p: nat, question: string, spacing: string, answer: string)
    returns (q1: nat, q2: nat, q3: nat)
    requires p + |PairText(question, spacing, answer)| <= |s|
    requires s[p..p + |PairText(question, spacing, answer)|] == PairText(question, spacing, answer)
    ensures q1 == p + 2 + |question| && q2 == q1 + 2 + |spacing| && q3 == q2 + 1 + |answer|
    ensures q3 + 2 == p + |PairText(question, spacing, answer)|
    ensures s[p..p + 2] == "[\"" && s[p + 2..q1] == question && s[q1..q1 + 2] == "\","
    ensures s[q1 + 2..q2] == spacing && s[q2..q2 + 1] == "\"" && s[q2 + 1..q3] == answer
    ensures s[q3..q3 + 2] == "\"]"
  {
    var e := p + |PairText(question, spacing, answer)|;
    q1 := p + 2 + |question|;
    q2 := q1 + 2 + |spacing|;
    q3 := q2 + 1 + |answer|;
    var r1 := "\"," + (spacing + ("\"" + (answer + "\"]")));
    Peel(s, p, e, "[\"", question + r1);
    Peel(s, p + 2, e, question, r1);
    PeelTail(s, q1, e, spacing, answer);
  }

  /** The pieces of a pair text from the comma on. */
  lemma PeelTail(s: string, q1: nat, e: nat, spacing: string, answer: string)
    requires q1 <= e <= |s| && s[q1..e] == "\"," + (spacing + ("\"" + (answer + "\"]")))
    ensures e == q1 + 2 + |spacing| + 1 + |answer| + 2
    ensures s[q1..q1 + 2] == "\"," && s[q1 + 2..q1 + 2 + |spacing|] == spacing
    ensures s[q1 + 2 + |spacing|..q1 + 3 + |spacing|] == "\""
    ensures s[q1 + 3 + |spacing|..q1 + 3 + |spacing| + |answer|] == answer
    ensures s[e - 2..e] == "\"]"
  {
    var q2 := q1 + 2 + |spacing|;
    var r4 := answer + "\"]";
    var r3 := "\"" + r4;
    Peel(s, q1, e, "\",", spacing + r3);
    Peel(s, q1 + 2, e, spacing, r3);
    Peel(s, q2, e, "\"", r4);
    Peel(s, q2 + 1, e, answer, "\"]");
  }

  lemma LiteralAt(s: string, i: nat, lit: string)
    requires i + |lit| <= |s| && s[i..i + |lit|] == lit
    ensures forall k :: 0 <= k < |lit| ==> s[i + k] == lit[k]
  {
    forall k | 0 <= k < |lit| ensures s[i + k] == lit[k] {
      assert s[i..i + |lit|][k] == lit[k];
    }
  }

  lemma PairAtFromFacts(s: string, p: nat, q1: nat, q2: nat, q3: nat)
    requires p + 2 < q1 && q1 + 2 <= q2 && q2 + 1 < q3 && q3 + 2 <= |s|
    requires s[p] == '[' && s[p + 1] == '"' && s[q1] == '"' && s[q1 + 1] == ','
    requires s[q2] == '"' && s[q3] == '"' && s[q3 + 1] == ']'
    requires Run(s, p + 2, NonQuote) == q1 - p - 2
    requires Run(s, q1 + 2, Whitespace) == q2 - q1 - 2
    requires Run(s, q2 + 1, NonQuote) == q3 - q2 - 1
    ensures PairAt(s, p) == Some(PairMatch(p, q3 + 2, s[p + 2..q1], s[q1 + 2..q2], s[q2 + 1..q3]))
  {
  }

  /** The leftmost match at or after `from` (what `match` and each step of a
      global `match` find). */
  function FindPair(s: string, from: nat): (r: Option<PairMatch>)
    ensures r.Some? ==> from <= r.value.start && PairAt(s, r.value.start) == r
    ensures r.Some? ==> forall j :: from <= j < r.value.start ==> PairAt(s, j).None?
    ensures r.None? ==> forall j :: from <= j ==> PairAt(s, j).None?
    decreases |s| - from
  {
    if from >= |s| then None
    else
      match PairAt(s, from)
      case Some(m) => Some(m)
      case None => FindPair(s, from + 1)
  }

  /** No match of the pair pattern starts in `[a, b)`. */
  predicate NoPairIn(s: string, a: nat, b: nat)
  {
    forall j :: a <= j < b ==> PairAt(s, j).None?
  }

  /** No match of the pair pattern starts at `a` or later. */
  ghost predicate NoPairFrom(s: string, a: nat)
  {
    forall j :: a <= j ==> PairAt(s, j).None?
  }

  /** `ms` is what a left-to-right scan of `s` from `from` finds: matches of the
      pattern, in order and not overlapping, with no match starting before the
      first, between two neighbours or after the last. */
  ghost predicate IsScan(s: string, from: nat, ms: seq<PairMatch>)
  {
    && (forall i :: 0 <= i < |ms| ==> from <= ms[i].start && PairAt(s, ms[i].start) == Some(ms[i]))
    && (forall i :: 0 < i < |ms| ==> ms[i - 1].end <= ms[i].start)
    && (|ms| == 0 ==> NoPairFrom(s, from))
    && (|ms| > 0 ==> NoPairIn(s, from, ms[0].start) && NoPairFrom(s, ms[|ms| - 1].end))
    && (forall i :: 0 < i < |ms| ==> NoPairIn(s, ms[i - 1].end, ms[i].start))
  }

  /** `s.match(pattern/g)` read from `from` on: every match of a left-to-right scan
      that resumes after each match. */
  function AllPairs(s: string, from: nat): (ms: seq<PairMatch>)
    ensures IsScan(s, from, ms)
    decreases |s| - from
  {
    match FindPair(s, from)
    case None => []
    case Some(m) =>
      var rest := AllPairs(s, m.end);
      ConsMatches(s, from, m, rest);
      [m] + rest
  }

  /** The scan's first match followed by the matches from where it ends. */
  lemma ConsMatches(s: string, from: nat, m: PairMatch, rest: seq<PairMatch>)
    requires FindPair(s, from) == Some(m)
    requires IsScan(s, m.end, rest)
    ensures IsScan(s, from, [m] + rest)
  {
    var ms := [m] + rest;
    assert ms[0] == m;
    forall i | 0 < i < |ms| ensures ms[i] == rest[i - 1] { }
    if |rest| > 0 {
      assert NoPairIn(s, ms[0].end, ms[1].start);
      assert ms[|ms| - 1] == rest[|rest| - 1];
    }
  }

  /** Every match of the pattern at or after `from` starts inside one of the
      scan's matches: the scan misses none, and a match it skips overlaps one it
      took. */
  lemma {:induction false} AllPairsComplete(s: string, from: nat, j: nat)
    requires from <= j && PairAt(s, j).Some?
    ensures exists i :: 0 <= i < |AllPairs(s, from)| && AllPairs(s, from)[i].start <= j < AllPairs(s, from)[i].end
    decreases |s| - from
  {
    var ms := AllPairs(s, from);
    var m := FindPair(s, from).value;
    var rest := AllPairs(s, m.end);
    assert ms == [m] + rest;
    if j >= m.end {
      AllPairsComplete(s, m.end, j);
      var i :| 0 <= i < |rest| && rest[i].start <= j < rest[i].end;
      assert ms[i + 1] == rest[i];
    } else {
      assert ms[0].start <= j < ms[0].end;
    }
  }

  /** The second `pair.match(...)` in the FAQ branch, run on a matched text alone,
      finds the same question and answer the scan did. */
  lemma RematchGivesSameCaptures(s: string, m: PairMatch)
    requires PairAt(s, m.start) == Some(m)
    ensures var t := s[m.start..m.end];
      FindPair(t, 0) == Some(PairMatch(0, |t|, m.question, m.spacing, m.answer))
  {
    var t := s[m.start..m.end];
    PairAtSound(s, m.start);
    assert t[0..|t|] == t;
    PairAtComplete(t, 0, m.question, m.spacing, m.answer);
    FindPairHere(t, 0);
  }

  /** A match anchored where the scan starts is the one it finds. */
  lemma FindPairHere(s: string, from: nat)
    requires PairAt(s, from).Some?
    ensures FindPair(s, from) == PairAt(s, from)
  {
  }

  // ---------------------------------------------------------------------------
  // FAQ.txt: one "Q: ...\nA: ..." block per pair
  // ---------------------------------------------------------------------------

  function FaqBlock(m: PairMatch): string
  {
    "Q: " + m.question + "\nA: " + m.answer
  }

  function FaqBlocks(ms: seq<PairMatch>): (r: seq<string>)
    ensures |r| == |ms|
    ensures forall i :: 0 <= i < |ms| ==> r[i] == FaqBlock(ms[i])
  {
    seq(|ms|, i requires 0 <= i < |ms| => FaqBlock(ms[i]))
  }

  /** The FAQ rewrite of (already straightened) text. */
  function FaqText(text: string): string
  {
    Join(FaqBlocks(AllPairs(text, 0)), "\n\n")
  }

  // ---------------------------------------------------------------------------
  // Knowledege Base QnA.txt: the answer of the first pair split on  (\d+\.\s+)
  // ---------------------------------------------------------------------------

  /** Length of the match of `\d+\.\s+` anchored at `q`, or 0 when there is none. */
  function MarkerAt(s: string, q: nat): (n: nat)
    requires q <= |s|
    ensures q + n <= |s|
  {
    var d := Run(s, q, Digit);
    if d == 0 || q + d >= |s| || s[q + d] != '.' then 0
    else
      var w := Run(s, q + d + 1, Whitespace);
      if w == 0 then 0 else d + 1 + w
  }

  /** A marker is the text `\d+\.\s+` matches: one or more digits, a dot, one
      or more white-space characters. */
  predicate IsMarker(m: string)
  {
    exists d :: 0 < d && d + 1 < |m| && AllInClass(m[..d], Digit) && m[d] == '.' && AllInClass(m[d + 1..], Whitespace)
  }

  /** Soundness of `MarkerAt`: what it reports is a marker, and its white space
      runs as far as the text allows. */
  lemma MarkerAtIsMarker(s: string, q: nat)
    requires q <= |s| && MarkerAt(s, q) > 0
    ensures IsMarker(s[q..q + MarkerAt(s, q)])
    ensures q + MarkerAt(s, q) == |s| || !IsSpace(s[q + MarkerAt(s, q)])
  {
    var d := Run(s, q, Digit);
    var w := Run(s, q + d + 1, Whitespace);
    var m := s[q..q + MarkerAt(s, q)];
    RunIsMaximal(s, q, Digit);
    RunIsMaximal(s, q + d + 1, Whitespace);
    assert m[..d] == s[q..q + d];
    assert m[d + 1..] == s[q + d + 1..q + d + 1 + w];
    assert m[d] == '.';
    assert AllInClass(m[..d], Digit);
    assert AllInClass(m[d + 1..], Whitespace);
  }

  /** Completeness of `MarkerAt`: wherever a marker stands at `q`, it reports
      one at least as long (the greedy `\s+` takes all the white space). */
  lemma MarkerAtComplete(s: string, q: nat, e: nat)
    requires q <= e <= |s| && IsMarker(s[q..e])
    ensures MarkerAt(s, q) >= e - q > 0
  {
    var m := s[q..e];
    var d :| 0 < d && d + 1 < |m| && AllInClass(m[..d], Digit) && m[d] == '.' && AllInClass(m[d + 1..], Whitespace);
    assert s[q..q + d] == m[..d];
    assert s[q + d] == '.';
    RunIsPiece(s, q, m[..d], Digit);
    assert s[q + d + 1..e] == m[d + 1..];
    RunAtLeast(s, q + d + 1, e, Whitespace);
  }

  /** A greedy run covers every stretch of its class that starts where it does. */
  lemma RunAtLeast(s: string, i: nat, j: nat, k: CharClass)
    requires i <= j <= |s| && AllInClass(s[i..j], k)
    ensures Run(s, i, k) >= j - i
  {
    RunIsMaximal(s, i, k);
    forall t | i <= t < j ensures InClass(s[t], k) {
      assert s[t] == s[i..j][t - i];
    }
  }

  /** `s.split(/(\d+\.\s+)/)` continued from a piece starting at `p`, scanning at `q`:
      the text between markers alternates with the captured markers themselves. */
  function SplitOnMarkers(s: string, p: nat, q: nat): (parts: seq<string>)
    requires p <= q <= |s|
    ensures |parts| % 2 == 1
    decreases |s| - q
  {
    if q >= |s| then [s[p..]]
    else
      var n := MarkerAt(s, q);
      if n == 0 then SplitOnMarkers(s, p, q + 1)
      else [s[p..q], s[q..q + n]] + SplitOnMarkers(s, q + n, q + n)
  }

  /** The split loses no text: its pieces put together give back the input. */
  lemma {:induction false} SplitOnMarkersLosesNothing(s: string, p: nat, q: nat)
    requires p <= q <= |s|
    ensures Concat(SplitOnMarkers(s, p, q)) == s[p..]
    decreases |s| - q, 1
  {
    if q >= |s| {
      ConcatOne(s[p..]);
    } else {
      if MarkerAt(s, q) == 0 {
        SplitSkips(s, p, q);
        SplitOnMarkersLosesNothing(s, p, q + 1);
      } else {
        LosesNothingAtMarker(s, p, q);
      }
    }
  }

  lemma {:induction false} LosesNothingAtMarker(s: string, p: nat, q: nat)
    requires p <= q < |s| && MarkerAt(s, q) > 0
    ensures Concat(SplitOnMarkers(s, p, q)) == s[p..]
    decreases |s| - q, 0
  {
    var e := q + MarkerAt(s, q);
    SplitCuts(s, p, q);
    SplitOnMarkersLosesNothing(s, e, e);
    ConcatAtMarker(s, p, q, e, SplitOnMarkers(s, e, e));
  }

  /** Where no marker starts the scan moves on. */
  lemma SplitSkips(s: string, p: nat, q: nat)
    requires p <= q < |s| && MarkerAt(s, q) == 0
    ensures SplitOnMarkers(s, p, q) == SplitOnMarkers(s, p, q + 1)
  {
  }

  /** Where a marker starts the text before it and the marker are cut off. */
  lemma SplitCuts(s: string, p: nat, q: nat)
    requires p <= q < |s| && MarkerAt(s, q) > 0
    ensures SplitOnMarkers(s, p, q) ==
            [s[p..q], s[q..q + MarkerAt(s, q)]] + SplitOnMarkers(s, q + MarkerAt(s, q), q + MarkerAt(s, q))
  {
  }

  /** The text before a marker, the marker and the pieces after it put together. */
  lemma ConcatAtMarker(s: string, p: nat, q: nat, e: nat, rest: seq<string>)
    requires p <= q <= e <= |s| && Concat(rest) == s[e..]
    ensures Concat([s[p..q], s[q..e]] + rest) == s[p..]
  {
    assert ([s[p..q], s[q..e]] + rest)[1..] == [s[q..e]] + rest;
    assert ([s[q..e]] + rest)[1..] == rest;
    assert s[q..] == s[q..e] + s[e..];
    assert s[p..] == s[p..q] + s[q..];
  }

  /** Every odd-indexed piece is a captured marker. */
  predicate OddPiecesAreMarkers(parts: seq<string>)
  {
    forall i :: 0 <= i < |parts| && i % 2 == 1 ==> IsMarker(parts[i])
  }

  lemma {:induction false} SplitOnMarkersCaptures(s: string, p: nat, q: nat)
    requires p <= q <= |s|
    ensures OddPiecesAreMarkers(SplitOnMarkers(s, p, q))
    decreases |s| - q, 1
  {
    if q < |s| {
      if MarkerAt(s, q) == 0 {
        SplitOnMarkersCaptures(s, p, q + 1);
        SplitSkips(s, p, q);
      } else {
        CapturesAtMarker(s, p, q);
      }
    }
  }

  lemma {:induction false} CapturesAtMarker(s: string, p: nat, q: nat)
    requires p <= q < |s| && MarkerAt(s, q) > 0
    ensures OddPiecesAreMarkers(SplitOnMarkers(s, p, q))
    decreases |s| - q, 0
  {
    var e := q + MarkerAt(s, q);
    SplitCuts(s, p, q);
    SplitOnMarkersCaptures(s, e, e);
    MarkerAtIsMarker(s, q);
    MarkersPrepend(s[p..q], s[q..e], SplitOnMarkers(s, e, e));
  }

  lemma MarkersPrepend(text: string, marker: string, rest: seq<string>)
    requires IsMarker(marker) && OddPiecesAreMarkers(rest)
    ensures OddPiecesAreMarkers([text, marker] + rest)
  {
    var parts := [text, marker] + rest;
    forall i | 0 <= i < |parts| && i % 2 == 1 ensures IsMarker(parts[i]) {
      if i >= 2 {
        assert parts[i] == rest[i - 2];
      }
    }
  }

  /** Where piece `i` of a split of `s` from `p` starts in `s`. */
  function PieceStart(parts: seq<string>, p: nat, i: nat): nat
    requires i <= |parts|
  {
    p + TotalLength(parts[..i])
  }

  /** `piece` stands in `s` at `at`; a marker piece is the marker `MarkerAt`
      finds there, and no marker starts anywhere inside a text piece. */
  predicate CutAt(s: string, at: nat, piece: string, marker: bool)
  {
    && at + |piece| <= |s| && s[at..at + |piece|] == piece
    && (marker ==> MarkerAt(s, at) == |piece|)
    && (!marker ==> forall j :: at <= j < at + |piece| ==> MarkerAt(s, j) == 0)
  }

  /** The pieces lie end to end in `s` from `p`; the odd ones are the markers
      the leftmost scan finds and the even ones hold no marker. */
  predicate CutsAtMarkers(s: string, p: nat, parts: seq<string>)
  {
    forall i :: 0 <= i < |parts| ==> CutAt(s, PieceStart(parts, p, i), parts[i], i % 2 == 1)
  }

  /** The split cuts at every marker and only there: each captured marker is the
      greedy match at the leftmost position not yet consumed. */
  lemma {:induction false} SplitOnMarkersLeftmost(s: string, p: nat, q: nat)
    requires p <= q <= |s|
    requires forall j :: p <= j < q ==> MarkerAt(s, j) == 0
    ensures CutsAtMarkers(s, p, SplitOnMarkers(s, p, q))
    decreases |s| - q, 1
  {
    if q >= |s| {
      var parts := SplitOnMarkers(s, p, q);
      assert parts == [s[p..]];
      assert parts[..0] == [];
      assert s[p..p + |s[p..]|] == s[p..];
    } else if MarkerAt(s, q) == 0 {
      SplitSkips(s, p, q);
      SplitOnMarkersLeftmost(s, p, q + 1);
    } else {
      LeftmostAtMarker(s, p, q);
    }
  }

  lemma {:induction false} LeftmostAtMarker(s: string, p: nat, q: nat)
    requires p <= q < |s| && MarkerAt(s, q) > 0
    requires forall j :: p <= j < q ==> MarkerAt(s, j) == 0
    ensures CutsAtMarkers(s, p, SplitOnMarkers(s, p, q))
    decreases |s| - q, 0
  {
    var e := q + MarkerAt(s, q);
    SplitCuts(s, p, q);
    SplitOnMarkersLeftmost(s, e, e);
    CutsPrepend(s, p, q, e, SplitOnMarkers(s, e, e));
  }

  /** The text before a marker and the marker, put in front of the cuts after it. */
  lemma CutsPrepend(s: string, p: nat, q: nat, e: nat, rest: seq<string>)
    requires p <= q < e <= |s| && MarkerAt(s, q) == e - q
    requires forall j :: p <= j < q ==> MarkerAt(s, j) == 0
    requires CutsAtMarkers(s, e, rest)
    ensures CutsAtMarkers(s, p, [s[p..q], s[q..e]] + rest)
  {
    var parts := [s[p..q], s[q..e]] + rest;
    forall i | 0 <= i < |parts| ensures CutAt(s, PieceStart(parts, p, i), parts[i], i % 2 == 1) {
      if i == 0 {
        assert parts[..0] == [];
      } else if i == 1 {
        assert parts[..1] == [s[p..q]];
        assert TotalLength([s[p..q]]) == q - p by {
          assert [s[p..q]][1..] == [];
        }
      } else {
        assert parts[i] == rest[i - 2];
        PieceStartShift(s[p..q], s[q..e], rest, p, i);
        assert CutAt(s, PieceStart(rest, e, i - 2), rest[i - 2], (i - 2) % 2 == 1);
      }
    }
  }

  /** Behind two leading pieces, a piece starts where it starts in the rest,
      shifted by their lengths. */
  lemma PieceStartShift(x: string, y: string, rest: seq<string>, p: nat, i: nat)
    requires 2 <= i <= |rest| + 2
    ensures PieceStart([x, y] + rest, p, i) == PieceStart(rest, p + |x| + |y|, i - 2)
  {
    assert ([x, y] + rest)[..i] == [x, y] + rest[..i - 2];
    TotalLengthAppend([x, y], rest[..i - 2]);
    assert [x, y][1..] == [y];
    assert [y][1..] == [];
  }

  function MarkerSections(answer: string): seq<string>
  {
    SplitOnMarkers(answer, 0, 0)
  }

  /** Without a marker anywhere the split returns the whole answer. */
  lemma {:induction false} NoMarkerNoSplit(s: string, p: nat, q: nat)
    requires p <= q <= |s|
    requires forall j :: q <= j <= |s| ==> MarkerAt(s, j) == 0
    ensures SplitOnMarkers(s, p, q) == [s[p..]]
    decreases |s| - q
  {
    if q < |s| {
      NoMarkerNoSplit(s, p, q + 1);
    }
  }

  /** The kept items of the split from index `i` on (`i` odd: a marker): each marker
      followed by its trimmed text, where that text exists and is not empty. */
  function NumberedItemsFrom(sections: seq<string>, i: nat): (items: seq<string>)
    decreases |sections| - i
  {
    if i + 1 >= |sections| then []
    else NumberedItem(sections[i], sections[i + 1]) + NumberedItemsFrom(sections, i + 2)
  }

  /** `sections[i] + sections[i + 1].trim()` when `sections[i + 1]` is truthy. */
  function NumberedItem(marker: string, text: string): seq<string>
  {
    if text != "" then [marker + Trim(text)] else []
  }

  /** The loop that collects `processedSections` from the marker split of an answer. */
  method NumberedSections(answer: string) returns (processed: seq<string>)
    ensures processed == NumberedItemsFrom(MarkerSections(answer), 1)
  {
    var sections := MarkerSections(answer);
    processed := CollectNumbered(sections);
  }

  /** The index loop over `sections`, from the first marker, two entries at a time. */
  method CollectNumbered(sections: seq<string>) returns (processed: seq<string>)
    ensures processed == NumberedItemsFrom(sections, 1)
  {
    processed := [];
    var i := 1;
    while i < |sections|
      invariant 1 <= i
      invariant processed + NumberedItemsFrom(sections, i) == NumberedItemsFrom(sections, 1)
      decreases |sections| - i
    {
      if i + 1 < |sections| {
        ghost var before := processed;
        ghost var item := NumberedItem(sections[i], sections[i + 1]);
        assert NumberedItemsFrom(sections, i) == item + NumberedItemsFrom(sections, i + 2);
        if sections[i + 1] != "" {
          processed := processed + [sections[i] + Trim(sections[i + 1])];
        }
        assert processed == before + item;
        AppendAssoc(before, item, NumberedItemsFrom(sections, i + 2));
      }
      i := i + 2;
    }
  }

  function KnowledgeBaseBlock(question: string, section: string): string
  {
    "Q: " + question + "\n\nRelevant Information:\n" + Trim(section)
  }

  function KnowledgeBaseBlocks(question: string, sections: seq<string>): (r: seq<string>)
    ensures |r| == |sections|
    ensures forall i :: 0 <= i < |r| ==> r[i] == KnowledgeBaseBlock(question, sections[i])
  {
    seq(|sections|, i requires 0 <= i < |sections| => KnowledgeBaseBlock(question, sections[i]))
  }

  // ---------------------------------------------------------------------------
  // preprocessContent
  // ---------------------------------------------------------------------------

  /** What `preprocessContent(filename, content)` returns. */
  function Preprocess(filename: string, content: string): string
  {
    var text := StraightenQuotes(content);
    match FormatOf(filename)
    case Plain => text
    case FaqPairs => FaqText(text)
    case KnowledgeBase =>
      match FindPair(text, 0)
      case None => text
      case Some(m) =>
        Join(KnowledgeBaseBlocks(m.question, NumberedItemsFrom(MarkerSections(m.answer), 1)), "\n\n")
  }

  method PreprocessContent(filename: string, content: string) returns (r: string)
    ensures r == Preprocess(filename, content)
  {
    var text := StraightenQuotes(content);
    if filename == FaqFile {
      return FaqText(text);
    }
    if filename == KnowledgeBaseFile {
      var first := FindPair(text, 0);
      if first.Some? {
        var processed := NumberedSections(first.value.answer);
        return Join(KnowledgeBaseBlocks(first.value.question, processed), "\n\n");
      }
      return text;
    }
    return text;
  }

  // ---------------------------------------------------------------------------
  // Properties
  // ---------------------------------------------------------------------------

  /** Files with no rewrite rule, and the knowledge base file when no pair matches,
      come back with only their quotes straightened: same length, and a second
      pass changes nothing. */
  lemma PassthroughOnlyStraightens(filename: string, content: string)
    requires FormatOf(filename) == Plain
          || (FormatOf(filename) == KnowledgeBase && FindPair(StraightenQuotes(content), 0).None?)
    ensures Preprocess(filename, content) == StraightenQuotes(content)
    ensures |Preprocess(filename, content)| == |content|
    ensures Preprocess(filename, Preprocess(filename, content)) == Preprocess(filename, content)
  {
    StraightenIdempotent(content);
  }

  /** An FAQ file without any pair becomes the empty string, not its original text. */
  lemma FaqWithoutPairsIsEmpty(content: string)
    requires AllPairs(StraightenQuotes(content), 0) == []
    ensures Preprocess(FaqFile, content) == ""
  {
  }

  /** Every position where the pattern matches lies inside one of `ms`. */
  ghost predicate CoversAllPairs(s: string, ms: seq<PairMatch>)
  {
    forall j: nat :: PairAt(s, j).Some? ==> exists i :: 0 <= i < |ms| && ms[i].start <= j < ms[i].end
  }

  /** The FAQ output is one block per pair match, in source order: the `i`-th
      block is `Q: <question>\nA: <answer>` of the `i`-th match a scan from the
      start finds (each one a match of the pattern where it starts, the matches
      apart and in order), and every other position where the pattern matches
      lies inside one of them. */
  lemma FaqOneBlockPerPair(content: string) returns (ms: seq<PairMatch>, blocks: seq<string>)
    ensures Preprocess(FaqFile, content) == Join(blocks, "\n\n")
    ensures |blocks| == |ms|
    ensures forall i :: 0 <= i < |ms| ==> blocks[i] == "Q: " + ms[i].question + "\nA: " + ms[i].answer
    ensures forall i :: 0 <= i < |ms| ==> PairAt(StraightenQuotes(content), ms[i].start) == Some(ms[i])
    ensures IsScan(StraightenQuotes(content), 0, ms)
    ensures CoversAllPairs(StraightenQuotes(content), ms)
  {
    var s := StraightenQuotes(content);
    ms := AllPairs(s, 0);
    blocks := FaqBlocksSpelled(ms);
    PreprocessFaq(content);
    AllPairsAt(s);
    AllPairsCovers(s);
  }

  lemma FaqBlocksSpelled(ms: seq<PairMatch>) returns (blocks: seq<string>)
    ensures blocks == FaqBlocks(ms) && |blocks| == |ms|
    ensures forall i :: 0 <= i < |ms| ==> blocks[i] == "Q: " + ms[i].question + "\nA: " + ms[i].answer
  {
    blocks := FaqBlocks(ms);
  }

  lemma AllPairsAt(s: string)
    ensures IsScan(s, 0, AllPairs(s, 0))
    ensures forall i :: 0 <= i < |AllPairs(s, 0)| ==> PairAt(s, AllPairs(s, 0)[i].start) == Some(AllPairs(s, 0)[i])
  {
  }

  lemma PreprocessFaq(content: string)
    ensures Preprocess(FaqFile, content) == Join(FaqBlocks(AllPairs(StraightenQuotes(content), 0)), "\n\n")
  {
  }

  lemma AllPairsCovers(s: string)
    ensures CoversAllPairs(s, AllPairs(s, 0))
  {
    var ms := AllPairs(s, 0);
    forall j: nat | PairAt(s, j).Some? ensures exists i :: 0 <= i < |ms| && ms[i].start <= j < ms[i].end {
      AllPairsComplete(s, 0, j);
    }
  }

  /** A knowledge base answer without any numbered marker yields the empty string. */
  lemma KnowledgeBaseWithoutMarkersIsEmpty(content: string)
    requires FindPair(StraightenQuotes(content), 0).Some?
    requires var a := FindPair(StraightenQuotes(content), 0).value.answer;
      forall j :: 0 <= j <= |a| ==> MarkerAt(a, j) == 0
    ensures Preprocess(KnowledgeBaseFile, content) == ""
  {
    var a := FindPair(StraightenQuotes(content), 0).value.answer;
    NoMarkerNoSplit(a, 0, 0);
  }

  /** A text that is exactly one `["question", "answer"]` pair becomes that pair's
      `Q:`/`A:` block and nothing else. */
  lemma OnePairFaq(question: string, spacing: string, answer: string)
    requires WellFormedPair(question, spacing, answer)
    ensures FaqText(PairText(question, spacing, answer)) == "Q: " + question + "\nA: " + answer
  {
    var s := PairText(question, spacing, answer);
    var m := PairMatch(0, |s|, question, spacing, answer);
    assert s[0..|s|] == s;
    PairAtComplete(s, 0, question, spacing, answer);
    assert FindPair(s, 0) == Some(m);
    assert AllPairs(s, |s|) == [];
    assert AllPairs(s, 0) == [m];
    assert FaqBlocks([m]) == [FaqBlock(m)];
  }

}
