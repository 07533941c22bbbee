/** `splitIntoChunks`: the preprocessed text of a file is cut into pieces (lines,
    question–answer blocks or paragraphs), and consecutive pieces are packed into
    chunks whose estimated token count stays within a budget. */
module Chunker {
  import opened Text
  import opened Normalizer
  import opened Scanners

  /** The budget `splitIntoChunks` is called with when the caller gives none. */
  const DefaultMaxTokens: nat := 4000

  /** The rough estimate of four characters per token, rounded up. */
  function EstimateTokens(s: string): (t: nat)
    ensures 4 * t >= |s| && 4 * t < |s| + 4
    ensures t == 0 <==> |s| == 0
  {
    (|s| + 3) / 4
  }

  // ---------------------------------------------------------------------------
  // How a file is cut
  // ---------------------------------------------------------------------------

  /** Subscriber lists go line by line, the FAQ block by block, everything else
      paragraph by paragraph. */
  datatype Strategy = ByLine | ByBlock | ByParagraph

  function StrategyOf(filename: string): (k: Strategy)
    ensures k == ByLine <==> filename == "china_subscribers.txt" || filename == "subscriber-list.txt"
    ensures k == ByBlock <==> filename == FaqFile
  {
    if filename == "china_subscribers.txt" || filename == "subscriber-list.txt" then ByLine
    else if filename == FaqFile then ByBlock
    else ByParagraph
  }

  // ---------------------------------------------------------------------------
  // Chunks before they are rendered
  // ---------------------------------------------------------------------------

  /** A chunk as it is produced: a group of pieces joined with a separator when it
      is pushed, or a window of an oversized subscriber line pushed as it is. */
  datatype Chunk = Group(items: seq<string>, sep: string) | Window(text: string)

  function Render(c: Chunk): string
  {
    match c
    case Group(items, sep) => Join(items, sep)
    case Window(text) => text
  }

  function RenderAll(cs: seq<Chunk>): (r: seq<string>)
    ensures |r| == |cs|
  {
    if |cs| == 0 then [] else RenderAll(cs[..|cs| - 1]) + [Render(cs[|cs| - 1])]
  }

  /** Each chunk renders to the string at its own position. */
  lemma {:induction false} RenderAllAt(cs: seq<Chunk>, i: nat)
    requires i < |cs|
    ensures RenderAll(cs)[i] == Render(cs[i])
    decreases |cs|
  {
    if i < |cs| - 1 {
      RenderAllAt(cs[..|cs| - 1], i);
    }
  }

  /** Rendering goes chunk by chunk. */
  lemma {:induction false} RenderAllAppend(cs: seq<Chunk>, ds: seq<Chunk>)
    ensures RenderAll(cs + ds) == RenderAll(cs) + RenderAll(ds)
    decreases |ds|
  {
    if |ds| == 0 {
      assert cs + ds == cs;
    } else {
      var init := ds[..|ds| - 1];
      assert (cs + ds)[..|cs + ds| - 1] == cs + init;
      RenderAllAppend(cs, init);
      AppendAssoc(RenderAll(cs), RenderAll(init), [Render(ds[|ds| - 1])]);
    }
  }

  /** The pieces of the chunks in order; a window counts as one piece. */
  function Flatten(cs: seq<Chunk>): seq<string>
  {
    if |cs| == 0 then []
    else Flatten(cs[..|cs| - 1]) + Pieces(cs[|cs| - 1])
  }

  function Pieces(c: Chunk): seq<string>
  {
    match c
    case Group(items, _) => items
    case Window(text) => [text]
  }

  function SumTokens(items: seq<string>): nat
  {
    if |items| == 0 then 0
    else SumTokens(items[..|items| - 1]) + EstimateTokens(items[|items| - 1])
  }

  lemma SumTokensAppend(items: seq<string>, item: string)
    ensures SumTokens(items + [item]) == SumTokens(items) + EstimateTokens(item)
  {
    assert (items + [item])[..|items|] == items;
  }

  // ---------------------------------------------------------------------------
  // The packing loop
  // ---------------------------------------------------------------------------

  /** The loop state: the chunks pushed so far, `currentChunk` and `currentTokens`. */
  datatype Acc = Acc(pushed: seq<Chunk>, current: seq<string>, tokens: nat)

  const Start := Acc([], [], 0)

  /** One piece: if it does not fit beside a non-empty current chunk, that chunk is
      pushed joined with `sep` and a new one begins; then the piece joins the
      current chunk. */
  function Add(a: Acc, item: string, sep: string, max: nat): Acc
  {
    if a.tokens + EstimateTokens(item) > max && |a.current| > 0
    then Acc(a.pushed + [Group(a.current, sep)], [item], EstimateTokens(item))
    else Acc(a.pushed, a.current + [item], a.tokens + EstimateTokens(item))
  }

  /** `Add` over every piece in order. */
  function AddAll(a: Acc, items: seq<string>, sep: string, max: nat): Acc
  {
    if |items| == 0 then a
    else Add(AddAll(a, items[..|items| - 1], sep, max), items[|items| - 1], sep, max)
  }

  /** After the loop a non-empty current chunk is pushed, joined with `sep`. */
  function Finish(a: Acc, sep: string): seq<Chunk>
  {
    if |a.current| > 0 then a.pushed + [Group(a.current, sep)] else a.pushed
  }

  /** A subscriber line: an oversized one is pushed as its windows at once, ahead
      of the current chunk, which stays open; any other joins with `"\n"`. */
  function LineStep(a: Acc, line: string, max: nat): Acc
  {
    if EstimateTokens(line) > max
    then Acc(a.pushed + WindowChunks(Windows(line, 0)), a.current, a.tokens)
    else Add(a, line, "\n", max)
  }

  function WindowChunks(ws: seq<string>): (cs: seq<Chunk>)
    ensures |cs| == |ws|
    ensures forall k :: 0 <= k < |ws| ==> cs[k] == Window(ws[k])
  {
    if |ws| == 0 then [] else WindowChunks(ws[..|ws| - 1]) + [Window(ws[|ws| - 1])]
  }

  /** An oversized subscriber line is pushed at once as its windows, after the
      chunks already pushed and ahead of the lines still pending, which stay
      pending with their estimate. */
  lemma OversizedLineFirst(a: Acc, line: string, max: nat)
    requires EstimateTokens(line) > max
    ensures RenderAll(LineStep(a, line, max).pushed) == RenderAll(a.pushed) + Windows(line, 0)
    ensures LineStep(a, line, max).current == a.current && LineStep(a, line, max).tokens == a.tokens
  {
    RenderAllAppend(a.pushed, WindowChunks(Windows(line, 0)));
    RenderWindows(Windows(line, 0));
  }

  function LineFold(a: Acc, lines: seq<string>, max: nat): Acc
  {
    if |lines| == 0 then a
    else LineStep(LineFold(a, lines[..|lines| - 1], max), lines[|lines| - 1], max)
  }

  /** A paragraph: an oversized one is packed sentence by sentence, pushing with
      `" "`; any other is packed whole, pushing with `"\n\n"`. */
  function ParagraphPack(a: Acc, paragraph: string, max: nat): Acc
  {
    if EstimateTokens(paragraph) > max
    then AddAll(a, SentencesOrWhole(paragraph), " ", max)
    else Add(a, paragraph, "\n\n", max)
  }

  function ParagraphFold(a: Acc, paragraphs: seq<string>, max: nat): Acc
  {
    if |paragraphs| == 0 then a
    else ParagraphPack(ParagraphFold(a, paragraphs[..|paragraphs| - 1], max), paragraphs[|paragraphs| - 1], max)
  }

  function LineChunks(text: string, max: nat): seq<Chunk>
  {
    Finish(LineFold(Start, Split(text, "\n"), max), "\n")
  }

  function BlockChunks(text: string, max: nat): seq<Chunk>
  {
    Finish(AddAll(Start, Split(text, "\n\n"), "\n\n", max), "\n\n")
  }

  function ParagraphChunks(text: string, max: nat): seq<Chunk>
  {
    Finish(ParagraphFold(Start, Paragraphs(text), max), "\n\n")
  }

  /** The chunks of an already preprocessed text, by the file's strategy. */
  function ChunksOf(filename: string, text: string, max: nat): seq<Chunk>
  {
    match StrategyOf(filename)
    case ByLine => LineChunks(text, max)
    case ByBlock => BlockChunks(text, max)
    case ByParagraph => ParagraphChunks(text, max)
  }

  /** What `splitIntoChunks(text, filename, maxTokens)` returns. */
  function SplitChunks(text: string, filename: string, max: nat): seq<string>
  {
    RenderAll(ChunksOf(filename, Preprocess(filename, text), max))
  }

  // ---------------------------------------------------------------------------
  // The loops
  // ---------------------------------------------------------------------------

  /** The step the loops share: push the current chunk joined with `sep` when
      `item` does not fit beside it, then put `item` into the current chunk. */
  method Push(item: string, sep: string, max: nat, chunks0: seq<string>, current0: seq<string>, tokens0: nat,
              ghost pushed0: seq<Chunk>)
    returns (chunks: seq<string>, currentChunk: seq<string>, currentTokens: nat, ghost pushed: seq<Chunk>)
    requires chunks0 == RenderAll(pushed0)
    ensures Acc(pushed, currentChunk, currentTokens) == Add(Acc(pushed0, current0, tokens0), item, sep, max)
    ensures chunks == RenderAll(pushed)
  {
    chunks, currentChunk, currentTokens, pushed := chunks0, current0, tokens0, pushed0;
    var itemTokens := EstimateTokens(item);
    if currentTokens + itemTokens > max && |currentChunk| > 0 {
      RenderAllAppend(pushed, [Group(currentChunk, sep)]);
      chunks := chunks + [Join(currentChunk, sep)];
      pushed := pushed + [Group(currentChunk, sep)];
      currentChunk := [];
      currentTokens := 0;
    }
    currentChunk := currentChunk + [item];
    currentTokens := currentTokens + itemTokens;
  }

  /** After the loop: push a non-empty current chunk joined with `sep`. */
  method Flush(sep: string, chunks0: seq<string>, currentChunk: seq<string>, currentTokens: nat,
               ghost pushed: seq<Chunk>)
    returns (chunks: seq<string>)
    requires chunks0 == RenderAll(pushed)
    ensures chunks == RenderAll(Finish(Acc(pushed, currentChunk, currentTokens), sep))
  {
    chunks := chunks0;
    if |currentChunk| > 0 {
      RenderAllAppend(pushed, [Group(currentChunk, sep)]);
      chunks := chunks + [Join(currentChunk, sep)];
    }
  }

  /** The subscriber-list branch. */
  method SplitLines(text: string, max: nat) returns (chunks: seq<string>)
    ensures chunks == RenderAll(LineChunks(text, max))
  {
    var lines := Split(text, "\n");
    chunks := [];
    var currentChunk: seq<string> := [];
    var currentTokens: nat := 0;
    ghost var pushed: seq<Chunk> := [];
    var i := 0;
    while i < |lines|
      invariant i <= |lines|
      invariant Acc(pushed, currentChunk, currentTokens) == LineFold(Start, lines[..i], max)
      invariant chunks == RenderAll(pushed)
    {
      var line := lines[i];
      assert lines[..i + 1][..i] == lines[..i];
      assert LineFold(Start, lines[..i + 1], max) == LineStep(LineFold(Start, lines[..i], max), line, max);
      var lineTokens := EstimateTokens(line);
      if lineTokens > max {
        var subChunks := Windows(line, 0);
        RenderAllAppend(pushed, WindowChunks(subChunks));
        RenderWindows(subChunks);
        chunks := chunks + subChunks;
        pushed := pushed + WindowChunks(subChunks);
      } else {
        chunks, currentChunk, currentTokens, pushed :=
          Push(line, "\n", max, chunks, currentChunk, currentTokens, pushed);
      }
      i := i + 1;
    }
    assert lines[..i] == lines;
    chunks := Flush("\n", chunks, currentChunk, currentTokens, pushed);
  }

  lemma {:induction false} RenderWindows(ws: seq<string>)
    ensures RenderAll(WindowChunks(ws)) == ws
    decreases |ws|
  {
    if |ws| > 0 {
      var init := ws[..|ws| - 1];
      assert WindowChunks(ws)[..|ws| - 1] == WindowChunks(init);
      RenderWindows(init);
      assert ws == init + [ws[|ws| - 1]];
    }
  }

  /** The loop both the FAQ branch and an oversized paragraph run: pack `items`
      into the chunks and current chunk given. */
  method Pack(items: seq<string>, sep: string, max: nat, chunks0: seq<string>, current0: seq<string>, tokens0: nat,
              ghost pushed0: seq<Chunk>)
    returns (chunks: seq<string>, currentChunk: seq<string>, currentTokens: nat, ghost pushed: seq<Chunk>)
    requires chunks0 == RenderAll(pushed0)
    ensures Acc(pushed, currentChunk, currentTokens) == AddAll(Acc(pushed0, current0, tokens0), items, sep, max)
    ensures chunks == RenderAll(pushed)
  {
    chunks, currentChunk, currentTokens, pushed := chunks0, current0, tokens0, pushed0;
    var i := 0;
    while i < |items|
      invariant i <= |items|
      invariant Acc(pushed, currentChunk, currentTokens) == AddAll(Acc(pushed0, current0, tokens0), items[..i], sep, max)
      invariant chunks == RenderAll(pushed)
    {
      assert items[..i + 1][..i] == items[..i];
      chunks, currentChunk, currentTokens, pushed :=
        Push(items[i], sep, max, chunks, currentChunk, currentTokens, pushed);
      i := i + 1;
    }
    assert items[..i] == items;
  }

  /** The FAQ branch. */
  method SplitBlocks(text: string, max: nat) returns (chunks: seq<string>)
    ensures chunks == RenderAll(BlockChunks(text, max))
  {
    var pairs := Split(text, "\n\n");
    var currentChunk, currentTokens;
    ghost var pushed;
    chunks, currentChunk, currentTokens, pushed := Pack(pairs, "\n\n", max, [], [], 0, []);
    chunks := Flush("\n\n", chunks, currentChunk, currentTokens, pushed);
  }

  /** The branch for every other file. */
  method SplitParagraphs(text: string, max: nat) returns (chunks: seq<string>)
    ensures chunks == RenderAll(ParagraphChunks(text, max))
  {
    var paragraphs := Paragraphs(text);
    chunks := [];
    var currentChunk: seq<string> := [];
    var currentTokens: nat := 0;
    ghost var pushed: seq<Chunk> := [];
    var i := 0;
    while i < |paragraphs|
      invariant i <= |paragraphs|
      invariant Acc(pushed, currentChunk, currentTokens) == ParagraphFold(Start, paragraphs[..i], max)
      invariant chunks == RenderAll(pushed)
    {
      var paragraph := paragraphs[i];
      assert paragraphs[..i + 1][..i] == paragraphs[..i];
      assert ParagraphFold(Start, paragraphs[..i + 1], max)
          == ParagraphPack(ParagraphFold(Start, paragraphs[..i], max), paragraph, max);
      if EstimateTokens(paragraph) > max {
        var sentences := SentencesOrWhole(paragraph);
        chunks, currentChunk, currentTokens, pushed :=
          Pack(sentences, " ", max, chunks, currentChunk, currentTokens, pushed);
      } else {
        chunks, currentChunk, currentTokens, pushed :=
          Push(paragraph, "\n\n", max, chunks, currentChunk, currentTokens, pushed);
      }
      i := i + 1;
    }
    assert paragraphs[..i] == paragraphs;
    chunks := Flush("\n\n", chunks, currentChunk, currentTokens, pushed);
  }

  /** `splitIntoChunks`: preprocess, then cut by the file's strategy. */
  method SplitIntoChunks(text: string, filename: string, max: nat) returns (chunks: seq<string>)
    ensures chunks == SplitChunks(text, filename, max)
  {
    var processedText := PreprocessContent(filename, text);
    if filename == "china_subscribers.txt" || filename == "subscriber-list.txt" {
      chunks := SplitLines(processedText, max);
    } else if filename == FaqFile {
      chunks := SplitBlocks(processedText, max);
    } else {
      chunks := SplitParagraphs(processedText, max);
    }
  }

  // ---------------------------------------------------------------------------
  // The budget
  // ---------------------------------------------------------------------------

  /** A pushed chunk respects the budget: a group holds at least one piece, and
      more than one only while their estimates add up to at most `max` (a single
      piece may exceed it); a window is one to 4000 characters of one line. */
  predicate WithinBudget(c: Chunk, max: nat)
  {
    match c
    case Group(items, _) => |items| > 0 && (|items| == 1 || SumTokens(items) <= max)
    case Window(text) => IsWindow(text)
  }

  predicate AllWithinBudget(cs: seq<Chunk>, max: nat)
  {
    forall k :: 0 <= k < |cs| ==> WithinBudget(cs[k], max)
  }

  lemma AllWithinBudgetAppend(cs: seq<Chunk>, ds: seq<Chunk>, max: nat)
    requires AllWithinBudget(cs, max) && AllWithinBudget(ds, max)
    ensures AllWithinBudget(cs + ds, max)
  {
    forall k | 0 <= k < |cs + ds| ensures WithinBudget((cs + ds)[k], max) {
      if k >= |cs| {
        assert (cs + ds)[k] == ds[k - |cs|];
      }
    }
  }

  /** The loop state the packing keeps: `currentTokens` is the estimate of the
      current chunk, which is within the budget unless it is a single piece, and
      every pushed chunk is within the budget. */
  predicate Packed(a: Acc, max: nat)
  {
    && a.tokens == SumTokens(a.current)
    && (|a.current| <= 1 || a.tokens <= max)
    && AllWithinBudget(a.pushed, max)
  }

  lemma SumTokensSingle(item: string)
    ensures SumTokens([item]) == EstimateTokens(item)
  {
    assert [item][..0] == [];
  }

  lemma AddPacked(a: Acc, item: string, sep: string, max: nat)
    requires Packed(a, max)
    ensures Packed(Add(a, item, sep, max), max)
  {
    if a.tokens + EstimateTokens(item) > max && |a.current| > 0 {
      PushPacked(a, item, sep, max);
    } else {
      SumTokensAppend(a.current, item);
    }
  }

  /** The case where the current chunk is pushed. */
  lemma PushPacked(a: Acc, item: string, sep: string, max: nat)
    requires Packed(a, max) && |a.current| > 0
    ensures Packed(Acc(a.pushed + [Group(a.current, sep)], [item], EstimateTokens(item)), max)
  {
    assert WithinBudget(Group(a.current, sep), max);
    AllWithinBudgetAppend(a.pushed, [Group(a.current, sep)], max);
    SumTokensSingle(item);
  }

  lemma {:induction false} AddAllPacked(a: Acc, items: seq<string>, sep: string, max: nat)
    requires Packed(a, max)
    ensures Packed(AddAll(a, items, sep, max), max)
    decreases |items|
  {
    if |items| > 0 {
      AddAllPacked(a, items[..|items| - 1], sep, max);
      AddPacked(AddAll(a, items[..|items| - 1], sep, max), items[|items| - 1], sep, max);
    }
  }

  lemma {:induction false} ParagraphFoldPacked(a: Acc, paragraphs: seq<string>, max: nat)
    requires Packed(a, max)
    ensures Packed(ParagraphFold(a, paragraphs, max), max)
    decreases |paragraphs|
  {
    if |paragraphs| > 0 {
      var init := paragraphs[..|paragraphs| - 1];
      var last := paragraphs[|paragraphs| - 1];
      ParagraphFoldPacked(a, init, max);
      if EstimateTokens(last) > max {
        AddAllPacked(ParagraphFold(a, init, max), SentencesOrWhole(last), " ", max);
      } else {
        AddPacked(ParagraphFold(a, init, max), last, "\n\n", max);
      }
    }
  }

  lemma FinishPacked(a: Acc, sep: string, max: nat)
    requires Packed(a, max)
    ensures AllWithinBudget(Finish(a, sep), max)
  {
    if |a.current| > 0 {
      assert WithinBudget(Group(a.current, sep), max);
      AllWithinBudgetAppend(a.pushed, [Group(a.current, sep)], max);
    }
  }

  /** Every FAQ chunk is within the budget. */
  lemma BlockChunksWithinBudget(text: string, max: nat)
    ensures AllWithinBudget(BlockChunks(text, max), max)
  {
    StartIsEmpty(max);
    AddAllPacked(Start, Split(text, "\n\n"), "\n\n", max);
    FinishPacked(AddAll(Start, Split(text, "\n\n"), "\n\n", max), "\n\n", max);
  }

  /** Every chunk of the paragraph strategy is within the budget; a sentence that
      alone exceeds it is a chunk of its own. */
  lemma ParagraphChunksWithinBudget(text: string, max: nat)
    ensures AllWithinBudget(ParagraphChunks(text, max), max)
  {
    StartIsEmpty(max);
    ParagraphFoldPacked(Start, Paragraphs(text), max);
    FinishPacked(ParagraphFold(Start, Paragraphs(text), max), "\n\n", max);
  }

  /** A subscriber-list chunk keeps to the budget strictly: a group of lines whose
      estimates add up to at most `max`, or a window. */
  predicate LineFits(c: Chunk, max: nat)
  {
    match c
    case Group(items, _) => |items| > 0 && SumTokens(items) <= max
    case Window(text) => IsWindow(text)
  }

  predicate AllFit(cs: seq<Chunk>, max: nat)
  {
    forall k :: 0 <= k < |cs| ==> LineFits(cs[k], max)
  }

  lemma AllFitAppend(cs: seq<Chunk>, ds: seq<Chunk>, max: nat)
    requires AllFit(cs, max) && AllFit(ds, max)
    ensures AllFit(cs + ds, max)
  {
    forall k | 0 <= k < |cs + ds| ensures LineFits((cs + ds)[k], max) {
      if k >= |cs| {
        assert (cs + ds)[k] == ds[k - |cs|];
      }
    }
  }

  predicate LinesPacked(a: Acc, max: nat)
  {
    && a.tokens == SumTokens(a.current)
    && a.tokens <= max
    && AllFit(a.pushed, max)
  }

  lemma WindowsFit(line: string, max: nat)
    ensures AllFit(WindowChunks(Windows(line, 0)), max)
  {
    WindowsAreWindows(line, 0);
    var ws := Windows(line, 0);
    forall k | 0 <= k < |ws| ensures LineFits(WindowChunks(ws)[k], max) {
      assert WindowChunks(ws)[k] == Window(ws[k]);
    }
  }

  lemma LineStepPacked(a: Acc, line: string, max: nat)
    requires LinesPacked(a, max)
    ensures LinesPacked(LineStep(a, line, max), max)
  {
    if EstimateTokens(line) > max {
      WindowsFit(line, max);
      AllFitAppend(a.pushed, WindowChunks(Windows(line, 0)), max);
    } else if a.tokens + EstimateTokens(line) > max && |a.current| > 0 {
      assert LineFits(Group(a.current, "\n"), max);
      AllFitAppend(a.pushed, [Group(a.current, "\n")], max);
      SumTokensSingle(line);
    } else {
      SumTokensAppend(a.current, line);
    }
  }

  lemma {:induction false} LineFoldPacked(a: Acc, lines: seq<string>, max: nat)
    requires LinesPacked(a, max)
    ensures LinesPacked(LineFold(a, lines, max), max)
    decreases |lines|
  {
    if |lines| > 0 {
      LineFoldPacked(a, lines[..|lines| - 1], max);
      LineStepPacked(LineFold(a, lines[..|lines| - 1], max), lines[|lines| - 1], max);
    }
  }

  /** Every subscriber-list chunk fits the budget, with no exception for a single
      piece: an oversized line is cut into windows. */
  lemma LineChunksFit(text: string, max: nat)
    ensures AllFit(LineChunks(text, max), max)
  {
    var a := LineFold(Start, Split(text, "\n"), max);
    StartIsEmpty(max);
    LineFoldPacked(Start, Split(text, "\n"), max);
    if |a.current| > 0 {
      assert LineFits(Group(a.current, "\n"), max);
      AllFitAppend(a.pushed, [Group(a.current, "\n")], max);
    }
  }

  // ---------------------------------------------------------------------------
  // What the chunks hold
  // ---------------------------------------------------------------------------

  /** The pieces the loop has consumed, in order: those pushed, then the current chunk. */
  function Content(a: Acc): seq<string>
  {
    Flatten(a.pushed) + a.current
  }

  lemma FlattenPush(cs: seq<Chunk>, c: Chunk)
    ensures Flatten(cs + [c]) == Flatten(cs) + Pieces(c)
  {
    assert (cs + [c])[..|cs|] == cs;
  }

  lemma AddContent(a: Acc, item: string, sep: string, max: nat)
    ensures Content(Add(a, item, sep, max)) == Content(a) + [item]
  {
    if a.tokens + EstimateTokens(item) > max && |a.current| > 0 {
      FlattenPush(a.pushed, Group(a.current, sep));
    } else {
      AppendAssoc(Flatten(a.pushed), a.current, [item]);
    }
  }

  /** Packing neither drops, repeats nor reorders pieces. */
  lemma {:induction false} AddAllContent(a: Acc, items: seq<string>, sep: string, max: nat)
    ensures Content(AddAll(a, items, sep, max)) == Content(a) + items
    decreases |items|
  {
    if |items| == 0 {
      assert Content(a) + items == Content(a);
    } else {
      var init := items[..|items| - 1];
      AddAllContent(a, init, sep, max);
      AddContent(AddAll(a, init, sep, max), items[|items| - 1], sep, max);
      AppendAssoc(Content(a), init, [items[|items| - 1]]);
      assert init + [items[|items| - 1]] == items;
    }
  }

  lemma FinishContent(a: Acc, sep: string)
    ensures Flatten(Finish(a, sep)) == Content(a)
  {
    if |a.current| > 0 {
      FlattenPush(a.pushed, Group(a.current, sep));
    } else {
      assert Content(a) == Flatten(a.pushed) + [];
    }
  }

  /** The pieces the paragraph strategy packs: a paragraph within the budget,
      or the sentences of an oversized one. */
  function Expanded(paragraphs: seq<string>, max: nat): seq<string>
  {
    if |paragraphs| == 0 then []
    else
      var last := paragraphs[|paragraphs| - 1];
      Expanded(paragraphs[..|paragraphs| - 1], max)
        + (if EstimateTokens(last) > max then SentencesOrWhole(last) else [last])
  }

  lemma {:induction false} ParagraphFoldContent(a: Acc, paragraphs: seq<string>, max: nat)
    ensures Content(ParagraphFold(a, paragraphs, max)) == Content(a) + Expanded(paragraphs, max)
    decreases |paragraphs|
  {
    if |paragraphs| == 0 {
      assert Content(a) + Expanded(paragraphs, max) == Content(a);
    } else {
      var init := paragraphs[..|paragraphs| - 1];
      var last := paragraphs[|paragraphs| - 1];
      var b := ParagraphFold(a, init, max);
      ParagraphFoldContent(a, init, max);
      var more := if EstimateTokens(last) > max then SentencesOrWhole(last) else [last];
      if EstimateTokens(last) > max {
        AddAllContent(b, SentencesOrWhole(last), " ", max);
      } else {
        AddContent(b, last, "\n\n", max);
      }
      AppendAssoc(Content(a), Expanded(init, max), more);
    }
  }

  /** The paragraph strategy keeps every paragraph within the budget whole and in
      order; of an oversized one it keeps the sentences only (see
      `Scanners.SentencesCover` for what that leaves out). */
  lemma ParagraphChunksContent(text: string, max: nat)
    ensures Flatten(ParagraphChunks(text, max)) == Expanded(Paragraphs(text), max)
  {
    var ps := Paragraphs(text);
    ParagraphFoldContent(Start, ps, max);
    FinishContent(ParagraphFold(Start, ps, max), "\n\n");
    StartIsEmpty(max);
    assert [] + Expanded(ps, max) == Expanded(ps, max);
  }

  lemma StartIsEmpty(max: nat)
    ensures Content(Start) == [] && Packed(Start, max) && LinesPacked(Start, max)
  {
    assert Flatten([]) == [];
  }

  // ---------------------------------------------------------------------------
  // Round trips
  // ---------------------------------------------------------------------------

  /** Every chunk is a non-empty group joined with `sep`. */
  predicate Uniform(cs: seq<Chunk>, sep: string)
  {
    forall k :: 0 <= k < |cs| ==> cs[k].Group? && cs[k].sep == sep && |cs[k].items| > 0
  }

  lemma {:induction false} AddAllUniform(a: Acc, items: seq<string>, sep: string, max: nat)
    requires Uniform(a.pushed, sep)
    ensures Uniform(AddAll(a, items, sep, max).pushed, sep)
    ensures |items| > 0 ==> |AddAll(a, items, sep, max).current| > 0
    decreases |items|
  {
    if |items| > 0 {
      AddAllUniform(a, items[..|items| - 1], sep, max);
    }
  }

  /** Joining the joined groups with their own separator is joining their pieces. */
  lemma {:induction false} JoinFlatten(cs: seq<Chunk>, sep: string)
    requires |cs| > 0 && Uniform(cs, sep)
    ensures |Flatten(cs)| > 0
    ensures Join(RenderAll(cs), sep) == Join(Flatten(cs), sep)
    decreases |cs|
  {
    var init := cs[..|cs| - 1];
    var items := cs[|cs| - 1].items;
    assert RenderAll(cs) == RenderAll(init) + [Join(items, sep)];
    assert Flatten(cs) == Flatten(init) + items;
    if |init| == 0 {
      assert RenderAll(cs) == [Join(items, sep)];
      assert Flatten(cs) == items;
    } else {
      JoinFlatten(init, sep);
      JoinAppend(RenderAll(init), [Join(items, sep)], sep);
      JoinAppend(Flatten(init), items, sep);
    }
  }

  /** Packing with one separator and then joining with it gives back what was packed. */
  lemma PackRoundTrip(items: seq<string>, sep: string, max: nat)
    requires |items| > 0
    ensures Join(RenderAll(Finish(AddAll(Start, items, sep, max), sep)), sep) == Join(items, sep)
  {
    AddAllUniform(Start, items, sep, max);
    AddAllContent(Start, items, sep, max);
    StartIsEmpty(max);
    assert [] + items == items;
    FinishRoundTrip(AddAll(Start, items, sep, max), sep);
  }

  lemma FinishRoundTrip(a: Acc, sep: string)
    requires Uniform(a.pushed, sep) && |a.current| > 0
    ensures Join(RenderAll(Finish(a, sep)), sep) == Join(Content(a), sep)
  {
    FinishContent(a, sep);
    assert Finish(a, sep) == a.pushed + [Group(a.current, sep)];
    assert Uniform(Finish(a, sep), sep);
    JoinFlatten(Finish(a, sep), sep);
  }

  /** Joining the FAQ chunks with a blank line gives back the preprocessed text. */
  lemma BlockChunksRoundTrip(text: string, max: nat)
    ensures Join(RenderAll(BlockChunks(text, max)), "\n\n") == text
  {
    PackRoundTrip(Split(text, "\n\n"), "\n\n", max);
  }

  lemma {:induction false} LineFoldPlain(a: Acc, lines: seq<string>, max: nat)
    requires forall k :: 0 <= k < |lines| ==> EstimateTokens(lines[k]) <= max
    ensures LineFold(a, lines, max) == AddAll(a, lines, "\n", max)
    decreases |lines|
  {
    if |lines| > 0 {
      LineFoldPlain(a, lines[..|lines| - 1], max);
    }
  }

  /** Where no line is oversized, joining the subscriber-list chunks with a newline
      gives back the text. */
  lemma LineChunksRoundTrip(text: string, max: nat)
    requires forall k :: 0 <= k < |Split(text, "\n")| ==> EstimateTokens(Split(text, "\n")[k]) <= max
    ensures Join(RenderAll(LineChunks(text, max)), "\n") == text
  {
    LineFoldPlain(Start, Split(text, "\n"), max);
    PackRoundTrip(Split(text, "\n"), "\n", max);
  }

  lemma {:induction false} ParagraphFoldPlain(a: Acc, paragraphs: seq<string>, max: nat)
    requires forall k :: 0 <= k < |paragraphs| ==> EstimateTokens(paragraphs[k]) <= max
    ensures ParagraphFold(a, paragraphs, max) == AddAll(a, paragraphs, "\n\n", max)
    decreases |paragraphs|
  {
    if |paragraphs| > 0 {
      ParagraphFoldPlain(a, paragraphs[..|paragraphs| - 1], max);
    }
  }

  /** Where no paragraph is oversized and no blank line is followed by another
      newline, joining the chunks with a blank line gives back the text. */
  lemma ParagraphChunksRoundTrip(text: string, max: nat)
    requires NoTripleNewline(text)
    requires forall k :: 0 <= k < |Paragraphs(text)| ==> EstimateTokens(Paragraphs(text)[k]) <= max
    ensures Join(RenderAll(ParagraphChunks(text, max)), "\n\n") == text
  {
    ParagraphFoldPlain(Start, Paragraphs(text), max);
    PackRoundTrip(Paragraphs(text), "\n\n", max);
    ParagraphsRoundTrip(text, 0, 0);
  }

  /** Empty text gives one empty chunk whatever the strategy. */
  lemma EmptyTextOneChunk(filename: string, max: nat)
    ensures RenderAll(ChunksOf(filename, "", max)) == [""]
  {
    match StrategyOf(filename)
    case ByLine => EmptyLines(max);
    case ByBlock => EmptyBlocks(max);
    case ByParagraph => EmptyParagraphs(max);
  }

  lemma EmptyLines(max: nat)
    ensures RenderAll(LineChunks("", max)) == [""]
  {
    assert [""][..0] == [];
    assert Split("", "\n") == [""];
    assert LineFold(Start, [""], max) == Acc([], [""], 0);
    OneEmptyChunk("\n");
  }

  lemma EmptyBlocks(max: nat)
    ensures RenderAll(BlockChunks("", max)) == [""]
  {
    assert [""][..0] == [];
    assert Split("", "\n\n") == [""];
    assert AddAll(Start, [""], "\n\n", max) == Acc([], [""], 0);
    OneEmptyChunk("\n\n");
  }

  lemma EmptyParagraphs(max: nat)
    ensures RenderAll(ParagraphChunks("", max)) == [""]
  {
    assert [""][..0] == [];
    assert Paragraphs("") == [""];
    assert ParagraphFold(Start, [""], max) == Acc([], [""], 0);
    OneEmptyChunk("\n\n");
  }

  lemma OneEmptyChunk(sep: string)
    ensures RenderAll(Finish(Acc([], [""], 0), sep)) == [""]
  {
    assert Finish(Acc([], [""], 0), sep) == [Group([""], sep)];
    assert [Group([""], sep)][..0] == [];
  }
}
