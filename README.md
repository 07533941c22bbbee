# Document ingestion for a retrieval chat server, in Dafny

This project models the document-ingestion core of a small retrieval-augmented
chat server, together with the decisions its request handlers take. Text
documents are read from a directory. Each one goes through these steps:

- It is normalised: curly quotes are straightened, and two special files are
  rewritten into question/answer blocks.
- It is cut into chunks, each packed under a token budget estimated at four
  characters per token.
- Each chunk is embedded through a remote service, with retries and back-off.
- Each chunk is stored in an `embeddings` table, unless the same chunk of the
  same file is already there.

The chat handler searches the table and hands the matches to an answer
generator. The reprocess handler clears the table and ingests the directory
again. The clear handler empties the table.

Modules, one file each:

- `text.dfy` (`Text`): JavaScript's `join`, string `split`, `\s` and `trim`,
  plus the greedy character-class run that every regular expression below is
  built from.
- `normalizer.dfy` (`Normalizer`): `preprocessContent`. It covers the quote
  straightening, the `["question", "answer"]` pair pattern as a scanner, the
  FAQ rewrite, and the Knowledge Base rewrite with its `/(\d+\.\s+)/` split and
  collecting loop.
- `scanners.dfy` (`Scanners`): the three patterns `splitIntoChunks` uses:
  - `/.{1,4000}/g` for oversized subscriber lines;
  - `/[^.!?]+[.!?]+/g` for oversized paragraphs;
  - `split(/\n\n+/)` for paragraphs.
- `chunker.dfy` (`Chunker`): `estimateTokens` and the three packing strategies
  of `splitIntoChunks`. Each strategy is an imperative method, proved equal to
  a fold that specifies it. The budget, content and round-trip properties are
  proved about the folds.
- `embedding.dfy` (`Embedding`): the retry loop of `getEmbedding`, over an
  oracle of attempt outcomes. Every wait it makes is recorded.
- `store.dfy` (`Store`): the `embeddings` table as a class with a sequence of
  rows and the id sequence. It holds the insert-or-skip of `storeEmbedding` and
  the two deletes.
- `ingest.dfy` (`Ingest`): `processFiles`. This covers the directory loop, the
  batches of ten, per-chunk failure isolation, and the recorded one-second
  pauses. The table each loop leaves is specified by a fold: `ChunkRows` is
  what one chunk does, `ChunksFold` runs it over a file's chunks, and
  `FilesFold` runs the files of the listing in turn. The loops are proved equal
  to these folds, and the provenance, storage and unique-key properties are
  proved about the folds.
- `routes.dfy` (`Routes`): the chat, reprocess and clear-embeddings handlers,
  each returning a status and a JSON body.

Outside services appear as arguments:

- the outcome of each embedding attempt;
- whether each lookup or insert fails;
- the directory listing, with each entry's type and contents or its error;
- the search result and the generator's answer;
- the creation timestamp.

## Model

| member | source | states |
|---|---|---|
| Text.Split | server/index.js:98 | `split` with a string separator yields at least one piece; joining the pieces with the separator gives the text back; no piece contains the separator; the pieces are cut at each leftmost occurrence in turn (`LeftmostCuts`): the first runs up to the first occurrence, and the rest are the cuts of what follows it |
| Text.LeftmostCutsUnique | server/index.js:98 | cutting at leftmost occurrences leaves no choice: two sequences of pieces that both cut the text this way are equal, so `split` is determined by those clauses |
| Text.Trim | server/index.js:40 | the result is a slice of the text with only white space cut off on either side, and it neither starts nor ends with white space (or is empty) |
| Normalizer.StraightenQuotes | server/index.js:19 | same length; U+2018/U+2019 become `'`, U+201C/U+201D become `"`, every other character is unchanged, and no curly quote is left |
| Normalizer.StraightenIdempotent | server/index.js:19 | straightening twice is straightening once |
| Normalizer.PairAt | server/index.js:23 | a match of the pair pattern anchored at a position starts there and ends within the text |
| Normalizer.PairAtSound | server/index.js:23 | what the scanner matches is literally `["q",<white space>"a"]` with both captures non-empty and free of `"` |
| Normalizer.PairAtComplete | server/index.js:23 | conversely, wherever such a text stands the scanner matches exactly it, with those captures |
| Normalizer.CapturesWellFormed | server/index.js:23 | the captures the scanner takes are non-empty, free of `"`, and the spacing between them is white space |
| Normalizer.FindPair | server/index.js:32 | the first match at or after a position: no match starts before it, and none at all when it finds nothing |
| Normalizer.AllPairs | server/index.js:23 | the global match is a left-to-right scan: every element is a match of the pattern where it starts, the matches do not overlap and go left to right, and no match starts before the first one, between two of them, or after the end of the last |
| Normalizer.AllPairsComplete | server/index.js:23 | every position where the pattern matches lies inside one of the global matches, so none is missed |
| Normalizer.RematchGivesSameCaptures | server/index.js:24-25 | matching the pattern again on a matched text alone finds the whole text with the same question and answer |
| Normalizer.FaqOneBlockPerPair | server/index.js:21-28 | the FAQ output is the blocks joined by a blank line; the `i`-th block is `Q: <question>\nA: <answer>` of the `i`-th match of the straightened text; the matches are matches of the pattern where they start, apart and in order; every other position where the pattern matches lies inside one of them |
| Normalizer.FaqWithoutPairsIsEmpty | server/index.js:23-27 | an FAQ text without a pair becomes `""`, not the original text |
| Normalizer.OnePairFaq | server/index.js:23-27 | a text that is a single pair becomes the single block of that pair |
| Normalizer.MarkerAtIsMarker | server/index.js:36 | what is cut out as a marker is one or more digits, one dot and one or more white-space characters, and no white space follows it (the `\s+` is greedy) |
| Normalizer.MarkerAtComplete | server/index.js:36 | conversely, wherever digits, a dot and white space stand, a marker is found there, at least as long |
| Normalizer.SplitOnMarkers | server/index.js:36 | the split with a capturing group yields an odd number of pieces: text, then marker and text pairs |
| Normalizer.SplitOnMarkersLeftmost | server/index.js:36 | the pieces lie end to end in the answer; each odd piece is exactly the greedy marker at the position where it stands, and no marker starts anywhere inside an even piece, so the split cuts at every leftmost marker and only there |
| Normalizer.SplitOnMarkersLosesNothing | server/index.js:36 | the pieces put together give the answer back |
| Normalizer.SplitOnMarkersCaptures | server/index.js:36 | every odd-indexed piece is a captured marker |
| Normalizer.NoMarkerNoSplit | server/index.js:36 | an answer with no marker is split into itself alone |
| Normalizer.NumberedSections | server/index.js:36-42 | the collecting loop yields, for each marker of the split (see `SplitOnMarkersLeftmost`) followed by non-empty text, the marker and the trimmed text, in order |
| Normalizer.CollectNumbered | server/index.js:37-42 | the index loop stepping by two over the split pieces equals that specification |
| Normalizer.KnowledgeBaseWithoutMarkersIsEmpty | server/index.js:30-48 | a Knowledge Base answer without numbered markers becomes `""` |
| Normalizer.PassthroughOnlyStraightens | server/index.js:17-53 | other files, and the Knowledge Base file without a pair, only get their quotes straightened: same length, and preprocessing twice equals preprocessing once |
| Normalizer.PreprocessContent | server/index.js:17-53 | the method, including the Knowledge Base loop, computes exactly the preprocessing function |
| Scanners.WindowsAreWindows | server/index.js:74 | every match of `/.{1,4000}/g` has 1 to 4000 characters, none of them a line terminator |
| Scanners.WindowsCoverLine | server/index.js:74 | the matches put together are the line without its line terminators |
| Scanners.WindowsGreedy | server/index.js:74 | each match stands at its own position in the line, after the previous one; each is 4000 characters long unless the text ends or a line terminator follows it, as the greedy `.{1,4000}` makes it |
| Scanners.SentencesAreSentences | server/index.js:134 | every match of `/[^.!?]+[.!?]+/g` is one or more characters other than `.`, `!` and `?`, followed by one or more of them |
| Scanners.SentencesCover | server/index.js:134 | the matches are consecutive pieces of the paragraph after its leading `.!?` run, and no `.!?` follows the last one (the uncovered tail) |
| Scanners.SentencesOrWhole | server/index.js:134 | an oversized paragraph is packed as at least one piece |
| Scanners.NoSentenceEndKeptWhole | server/index.js:134 | a paragraph without `.`, `!` or `?` has no match and is kept whole |
| Scanners.ParagraphsHaveNoBlankLine | server/index.js:124 | no paragraph produced by `split(/\n\n+/)` holds two newlines in a row |
| Scanners.ParagraphsRoundTrip | server/index.js:124 | where no three newlines follow each other, joining the paragraphs with a blank line gives the text back |
| Chunker.EstimateTokens | server/index.js:60 | the estimate is the length divided by four rounded up, and it is zero exactly for the empty string |
| Chunker.StrategyOf | server/index.js:62-96 | lines for exactly the two subscriber-list names, question blocks for exactly `FAQ.txt`, paragraphs otherwise |
| Chunker.OversizedLineFirst | server/index.js:73-76 | an oversized line is pushed at once as its windows, after the chunks already pushed and before the pending lines, which stay pending with their estimate |
| Chunker.Push | server/index.js:79-86 | one step of an accumulator loop equals one step of the specifying fold, and the pushed strings are the rendered chunks |
| Chunker.Flush | server/index.js:89-91 | the final push of a non-empty current chunk equals the fold's finish |
| Chunker.SplitLines | server/index.js:62-94 | the subscriber-list loop computes exactly the line-strategy specification |
| Chunker.Pack | server/index.js:135-144 | the inner sentence loop, which shares the outer accumulator, equals the fold over the sentences |
| Chunker.SplitBlocks | server/index.js:96-121 | the FAQ loop computes exactly the block-strategy specification |
| Chunker.SplitParagraphs | server/index.js:123-160 | the paragraph loop, with its inner sentence loop, computes exactly the paragraph-strategy specification |
| Chunker.SplitIntoChunks | server/index.js:55-161 | the chunks are those of the preprocessed text under the strategy the file name selects |
| Chunker.RenderAllAt | server/index.js:106-118 | the chunk strings are the pushed chunks rendered one by one in push order: the i-th string is the i-th chunk joined with its separator |
| Chunker.AddPacked | server/index.js:106-113 | a packing step keeps the invariant: the running estimate is the sum of the pending items' estimates, which is within budget unless a single item, and every pushed chunk is within budget |
| Chunker.AddAllPacked | server/index.js:135-144 | the sentence loop keeps that invariant |
| Chunker.ParagraphFoldPacked | server/index.js:129-154 | the paragraph loop keeps that invariant |
| Chunker.FinishPacked | server/index.js:156-158 | after the final push every chunk is within budget |
| Chunker.BlockChunksWithinBudget | server/index.js:103-120 | every FAQ chunk holds a single block or blocks whose estimates sum to at most the budget |
| Chunker.ParagraphChunksWithinBudget | server/index.js:129-160 | every default-strategy chunk holds a single piece or pieces whose estimates sum to at most the budget |
| Chunker.WindowsFit | server/index.js:74-75 | the windows of an oversized line are valid subscriber chunks |
| Chunker.LineStepPacked | server/index.js:69-87 | a line step keeps the strict invariant: the pending lines' estimates sum to at most the budget, and every pushed chunk fits |
| Chunker.LineFoldPacked | server/index.js:69-87 | the whole line loop keeps that invariant |
| Chunker.LineChunksFit | server/index.js:62-94 | every subscriber chunk is a group of lines whose estimates sum to at most the budget, or a window of 1 to 4000 characters |
| Chunker.AddContent | server/index.js:106-113 | a packing step appends the item to the pieces pushed or pending, in order |
| Chunker.AddAllContent | server/index.js:135-144 | the sentence loop appends the sentences, in order |
| Chunker.FinishContent | server/index.js:156-158 | the final push loses nothing that was pending |
| Chunker.ParagraphFoldContent | server/index.js:129-154 | the paragraph loop appends each paragraph, or its sentences when it is oversized, in order |
| Chunker.ParagraphChunksContent | server/index.js:123-160 | the default-strategy chunks hold exactly the paragraphs, with oversized ones replaced by their sentences, in order |
| Chunker.PackRoundTrip | server/index.js:103-118 | packing items and joining the chunks with the same separator gives back the items joined |
| Chunker.FinishRoundTrip | server/index.js:116-118 | when every pushed chunk uses one separator, joining all chunks with it equals joining all pieces with it |
| Chunker.BlockChunksRoundTrip | server/index.js:96-121 | joining the FAQ chunks with a blank line gives the preprocessed text back |
| Chunker.LineFoldPlain | server/index.js:69-87 | without an oversized line the line loop is plain packing |
| Chunker.LineChunksRoundTrip | server/index.js:62-94 | without an oversized line, joining the subscriber chunks with `\n` gives the text back |
| Chunker.ParagraphFoldPlain | server/index.js:129-154 | without an oversized paragraph the paragraph loop is plain packing |
| Chunker.ParagraphChunksRoundTrip | server/index.js:123-160 | without an oversized paragraph, and with no three newlines in a row, joining the chunks with a blank line gives the text back |
| Chunker.EmptyTextOneChunk | server/index.js:55-161 | under every strategy the empty text yields exactly one chunk, `""` |
| Chunker.EmptyLines | server/index.js:64-91 | the line strategy on `""` yields `[""]` |
| Chunker.EmptyBlocks | server/index.js:98-118 | the block strategy on `""` yields `[""]` |
| Chunker.EmptyParagraphs | server/index.js:124-158 | the paragraph strategy on `""` yields `[""]` |
| Chunker.OneEmptyChunk | server/index.js:156-158 | a single pending empty piece is pushed as one empty chunk |
| Embedding.FirstOk | server/index.js:285-298 | the number of failures before the first success: all earlier attempts failed, and the one it names succeeded unless every attempt failed |
| Embedding.Backoff | server/index.js:300-302 | the waits after the k-th failure are 1000·k ms, in order |
| Embedding.GetEmbedding | server/index.js:284-305 | with no attempt allowed, `undefined` and no wait; otherwise the first success's vector after the waits for the failures before it, or, when all fail, the last attempt's error after waits for all but the last |
| Embedding.FirstOkAt | server/index.js:285-298 | a success preceded only by failures is the first success, whatever follows |
| Embedding.AllFailed | server/index.js:299-300 | when every attempt fails, the first success is past the last attempt |
| Embedding.DefaultRetriesWaitThreeSeconds | server/index.js:284-302 | with the default three attempts all failing, the waits are 1000 ms then 2000 ms |
| Store.Matches | server/index.js:214-219 | the lookup selects exactly the rows with the chunk's content and file name, in table order, and nothing when no row has that key |
| Store.MatchesInOrder | server/index.js:214-219 | the lookup returns the rows with the chunk's key at increasing table positions, each matching row exactly once and no other |
| Store.EmbeddingTable.StoreEmbedding | server/index.js:211-245 | exactly one matching row: its id is returned and nothing changes; otherwise an insert error is rethrown and nothing changes, or one row is appended with the next id, `chunk_length` equal to the content length and the model name; a lookup error counts as no match; keys stay unique |
| Store.UniqueAtMostOne | server/index.js:214-224 | with unique keys a lookup finds at most one row, and none when no row has the key |
| Store.AppendNewKey | server/index.js:226-237 | inserting a chunk not yet stored keeps the keys unique |
| Store.SecondStoreFindsFirst | server/index.js:211-240 | after a new chunk is inserted, looking it up again finds exactly that row |
| Store.NullIdRows | server/server.js:56-59 | after `.not('id', 'is', null)` exactly the rows whose id is NULL remain |
| Store.ZeroOrNullIdRows | server/server.js:34-37 | after `.neq('id', 0)` exactly the rows whose id is 0 or NULL remain |
| Store.NullIdRowsAppend | server/server.js:56-59 | the delete of the reprocess route is a row-by-row filter: the survivors of a concatenation are the survivors of each part, in table order and with their multiplicity |
| Store.ZeroOrNullIdRowsAppend | server/server.js:34-37 | the delete of the clear route is a row-by-row filter in the same sense |
| Store.EmbeddingTable.DeleteWhereIdNotNull | server/server.js:56-64 | a failed delete changes nothing and reports its error; otherwise only rows with a NULL id remain |
| Store.EmbeddingTable.DeleteWhereIdNotZero | server/server.js:34-39 | a failed delete changes nothing and reports its error; otherwise only rows with id 0 or NULL remain |
| Store.ClearsSerialIds | server/server.js:34-59 | on a table whose ids all come from the sequence, both deletes leave it empty |
| Store.DeletesAgreeWithoutZero | server/server.js:34-59 | the two deletes differ only on rows whose id is 0 |
| Ingest.BatchesTile | server/index.js:180-181 | n chunks make ⌈n/10⌉ batches of 1 to 10 chunks each, consecutive, from the first chunk to the last |
| Ingest.Attempts | server/index.js:182-184 | a batch works on its chunks in order, numbered from 1 |
| Ingest.AttemptsNumbers | server/index.js:182-184 | a batch's events are the chunk numbers of its slice and no pause |
| Ingest.ScheduleNumbers | server/index.js:180-184 | over all batches the chunks are worked on exactly once each, in order, numbered 1 to n |
| Ingest.SchedulePauses | server/index.js:180-200 | there is one pause per batch |
| Ingest.ScheduleEndsWithPause | server/index.js:199 | the last batch is followed by a pause too |
| Ingest.ProcessChunk | server/index.js:185-195 | the table becomes `ChunkRows` of the old table and the old next id, and the next id advances by the number of rows added; a chunk's errors are caught: when the embedding fails after the default retries or the insert fails, the table is unchanged; when exactly one row already has the chunk's key (and the lookup works) it is unchanged too; otherwise exactly one row is appended: the next id, the chunk, the vector of the first successful attempt, the file name, and metadata with the chunk's length, the timestamp and the model name; a succeeding chunk is stored; unique keys are kept when the lookup works |
| Ingest.ProcessBatch | server/index.js:181-198 | a batch's events are its chunks in order; the table is exactly `ChunksFold` of the old table over the batch's chunks, so each chunk adds the row `ChunkRows` fixes for it, zero or one, and the next id advances by the rows added; each new row is the record of some chunk of this file whose services succeed (`FileRowsAdded`); every chunk of the batch whose services succeed ends up stored, and so do those of earlier batches; unique keys are kept when the batch's lookups work |
| Ingest.ProcessChunks | server/index.js:180-200 | the events are the batch schedule; the batches together give exactly `ChunksFold` over all chunks from the old table, with the next id advanced by the rows added; each new row is the record of a succeeding chunk of this file with that chunk's first successful vector and metadata; every chunk whose services succeed is stored, whatever failed around it; unique keys are kept when the lookups work |
| Ingest.FirstError | server/index.js:163-209 | the loop over the entries ends without an error exactly when every entry is a regular file or another kind of entry (none fails `stat` or `readFile`) |
| Ingest.ProcessFile | server/index.js:172-200 | a regular file is chunked with the default budget and its chunks scheduled; the table is exactly `ChunksFold` over those chunks from the old table, with the next id advanced by the rows added; each new row is the record of one of its succeeding chunks with that chunk's first successful vector and metadata; every chunk whose services succeed is stored; unique keys are kept when its lookups work |
| Ingest.FilesScheduleStep | server/index.js:168-204 | a regular file contributes its chunk schedule, any other entry is skipped, and an entry that fails stops the loop |
| Ingest.ProcessEntry | server/index.js:168-204 | one loop iteration: it stops exactly at an entry that fails `stat` or `readFile`; the table is exactly `EntryRows` of the old table for this entry (the chunk fold of a regular file, nothing for any other entry), with the next id advanced by the rows added; every new row is the record of a succeeding chunk of this entry, which is a regular file (`EntryRow`); a regular file has every chunk whose services succeed stored; unique keys are kept when no lookup fails |
| Ingest.ProcessFiles | server/index.js:163-209 | a listing failure is rethrown and nothing changes; otherwise the events are the files' schedules in directory order up to the first failing entry, whose error is rethrown, and the table is exactly `FilesFold` of the old table over the entries before it; the next id advances by the rows added; each new row is the record of a succeeding chunk of a regular file before the first failing entry (`RowsFromEntries` up to `Reached`); every such file has each chunk whose services succeed stored; unique keys are kept when no lookup fails |
| Ingest.Reached | server/index.js:168-174 | the entries the loop gets through: all before it are regular files or skipped entries, and the one it names, if any, fails `stat` or `readFile` |
| Ingest.CoveredGrows | server/index.js:211-240 | rows are never removed during ingestion, so a chunk once stored stays found |
| Ingest.KeyCountMatches | server/index.js:214-221 | the count of records with a chunk's key that decides insert-or-skip is the number of rows the lookup selects |
| Ingest.ChunkRowsSpec | server/index.js:185-195 | what one chunk does to the table, against the lookup: nothing when the embedding or the insert fails, nothing when the working lookup finds exactly one record, and otherwise the chunk's own record with the next id appended; a chunk whose services succeed is stored afterwards; a working lookup keeps keys unique |
| Ingest.ChunkRowsInsertOrSkip | server/index.js:214-240 | with unique keys and a working lookup, a chunk already stored adds nothing, and one not yet stored adds one row exactly when its services succeed |
| Ingest.RowsFoldSplit | server/index.js:180-200 | running the chunks from `lo` to `hi` is running those up to `mid`, then the rest from the table and id reached, so batches of ten run in turn give the same table as one pass over all chunks |
| Ingest.RowsFoldKeeps | server/index.js:180-200 | a property of the table that each chunk carries from one position to the next holds after all of them |
| Ingest.ChunksFoldAdds | server/index.js:180-200 | the chunk fold only appends rows, with ids from the next id on, each the record of a chunk of the file whose services succeed (`FileRowsAdded`) |
| Ingest.ChunksFoldCovers | server/index.js:180-200 | after the chunk fold, every chunk up to `hi` whose services succeed is stored, given that those before `lo` were |
| Ingest.ChunksFoldUnique | server/index.js:180-200 | while the lookups of the folded chunks work, unique keys stay unique |
| Ingest.ChunksFoldLookupsFail | server/index.js:180-200 | when every lookup fails, each chunk whose services succeed appends a record of its own, in chunk order and with consecutive ids, duplicates included, and nothing else is added |
| Ingest.EntryRowsAdds | server/index.js:168-204 | one entry only appends rows, with new ids, each the record of a succeeding chunk of that entry, which is a regular file; a regular file ends with each chunk whose services succeed stored; unique keys are kept while no lookup fails |
| Ingest.FilesFoldAdds | server/index.js:163-209 | the first `n` entries only append rows, with new ids, each the record of a succeeding chunk of a regular file among them |
| Ingest.FilesFoldStores | server/index.js:163-209 | after the first `n` entries, each regular file among them has every chunk whose services succeed stored |
| Ingest.FilesFoldUnique | server/index.js:163-209 | while no lookup fails, the entries keep unique keys unique |
| Routes.Chat | server/server.js:93-121 | a failed search answers 500 `Internal server error` and calls nothing; the generator is called exactly when the search finds something, with the message, the context and the matches; no match answers 200 `No relevant information found in the documents.`; a generated answer is sent as is with 200; a generation error answers 500 `Internal server error`; status 200 always carries an answer |
| Routes.ContextSplits | server/server.js:109-111 | the context is the first matches' context, a blank line, and the rest's: each match's content appears whole and in retrieval order |
| Routes.ContextLength | server/server.js:109-111 | the context is as long as the contents plus two characters per separator |
| Routes.SingleMatchContext | server/server.js:109-111 | a single match's content is the context unchanged |
| Routes.ListingError | server/server.js:80-88 | a failed listing is the error `processFiles` rethrows |
| Routes.Reprocess | server/server.js:49-90 | a failed clear answers 500 with `Failed to reprocess documents: ` and its message, and ingests nothing; otherwise the clear runs before ingestion: every final row has an id issued after the call began; a failed listing leaves the table empty; otherwise the table is exactly `FilesFold` of the empty table over the entries before the first failing one, so every final row is the record of a succeeding chunk of such a regular file, and every such file has each chunk whose services succeed stored; keys are unique when no lookup fails; the response is 500 with the prefix and the processing error, or 200 with the directory; the count check does not affect anything |
| Routes.ClearEmbeddings | server/server.js:32-46 | a failed delete answers 500 `Failed to clear embeddings` and changes nothing; otherwise 200 `Embeddings cleared successfully`, and the table (whose ids all came from the sequence) is empty |

## Left out

- Concurrency: the ten `getEmbedding`/`storeEmbedding` calls of a batch run concurrently under `Promise.all`. The model runs them one after another in chunk order.
- Ingest.ProcessChunks: the unique-key guarantee (kept when no lookup fails) holds only for that sequential order. Two identical chunks in the same concurrent batch can both miss the lookup and both be inserted, because the lookup and the insert are not atomic.
- Time: the 30-second `Promise.race` timeout is one of the failure outcomes of an attempt. The `setTimeout` waits and pauses are recorded as values in milliseconds; no clock is modelled.
- Ingest.ProcessChunk: the retry waits of `getEmbedding` are returned by `Embedding.GetEmbedding` but are not part of the ingest event list. An `undefined` embedding is treated as a failure and skips the insert; with the default of three attempts it cannot occur.
- The similarity search `match_documents` (threshold 0.75, 10 matches) and `searchSimilarContent` are a search-result argument. No ranking, order or threshold property is claimed, and the similarity score is not modelled.
- `generateAnswer` (prompt, model, temperature) is an oracle function from question, context and matches to an answer or an error.
- The database, the embedding service and the file system are not modelled. Their answers are arguments: the outcome of each attempt, a lookup failure flag, an insert error, a delete failure, and the directory listing. The listing gives, per entry, a regular file with its contents, another kind of entry, or a `stat`/`readFile` error.
- The `created_at` timestamp is an argument instead of `new Date().toISOString()`.
- The `select('count')` check of the reprocess handler is only a flag that the contract ignores; its result is only logged.
- Characters are UTF-16 code units, so non-BMP characters, which JavaScript's `.` sees as two units, are not treated specially. `Math.ceil` on lengths is exact integer arithmetic here.
- Logging (including the average-chunk-size line), authentication (`authenticateToken`, `server/auth.js`), the Express wiring, the React UI and the two admin scripts are outside the model.
- Chunker.LineChunksRoundTrip: stated only when no line exceeds the budget. An oversized line's windows drop its line terminators (for example a `\r`), and they are pushed ahead of pending lines, so the order is not kept.
- Chunker.ParagraphChunksRoundTrip: stated only without oversized paragraphs and without three newlines in a row. Longer separators collapse to one blank line, and oversized paragraphs lose text, as described below.

## Behaviours worth knowing

- An oversized paragraph is cut by `/[^.!?]+[.!?]+/g`. A run of `.`, `!` or `?` at its start is skipped, and text after its last sentence end is not matched, so both are absent from the chunks (`Scanners.SentencesCover`). A paragraph with no sentence end at all is kept whole (`Scanners.NoSentenceEndKeptWhole`).
- The budget counts only the pieces' estimates, not the separators `join` adds. An oversized piece is pushed on its own in the FAQ and default strategies, so such a chunk exceeds the budget.
- `maybeSingle` answers an error when more than one row matches. The lookup's error is ignored, so `storeEmbedding` then inserts yet another copy (`Store.EmbeddingTable.StoreEmbedding` inserts whenever the number of matches is not exactly one).
- Only the pair pattern's first match is used in the Knowledge Base file. Its text before the first numbered marker is dropped, as is a marker followed by nothing.
- The Knowledge Base file is recognised by its exact name, `Knowledege Base QnA.txt`, spelled that way in the code.
