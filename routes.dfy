/** The decisions of the three request handlers of the server: `/api/chat`,
    `/api/reprocess` and `/api/clear-embeddings`. Authentication, Express and
    the JSON encoding are outside the model; a handler's result is a status and
    a body. The search, the answer generator and the database's failures are
    oracle arguments. */
module Routes {
  import opened Text
  import opened Embedding
  import opened Store
  import opened Ingest

  /** A record returned by the similarity search (its similarity score is not
      modelled). */
  datatype Match = Match(content: string, filename: string)

  /** What `searchSimilarContent(message)` yields. */
  datatype Search = Found(matches: seq<Match>) | SearchFailed(message: string)

  /** What `generateAnswer(question, context, matches)` yields. */
  datatype Generated = Answer(text: string) | GenerationFailed(message: string)

  /** The JSON bodies the three handlers send. */
  datatype Body =
    | AnswerBody(answer: string)
    | ErrorBody(error: string)
    | MessageBody(message: string)
    | ReprocessedBody(message: string, directory: string)

  datatype Response = Response(status: nat, body: Body)

  /** The arguments of a call to the answer generator. */
  datatype GeneratorCall = GeneratorCall(question: string, context: string, matches: seq<Match>)

  /** The chat handler's response and the generator call it made, if any. */
  datatype ChatOutcome = ChatOutcome(response: Response, call: Option<GeneratorCall>)

  const NoMatchesAnswer := "No relevant information found in the documents."
  const InternalError := Response(500, ErrorBody("Internal server error"))
  const ReprocessFailedPrefix := "Failed to reprocess documents: "
  const ReprocessedMessage := "Documents reprocessed successfully"
  const ClearedMessage := "Embeddings cleared successfully"
  const ClearFailedMessage := "Failed to clear embeddings"

  // ---------------------------------------------------------------------------
  // /api/chat
  // ---------------------------------------------------------------------------

  /** The matches' contents in retrieval order. */
  function Contents(matches: seq<Match>): seq<string>
  {
    seq(|matches|, k requires 0 <= k < |matches| => matches[k].content)
  }

  /** The context handed to the generator: the contents joined by a blank line. */
  function Context(matches: seq<Match>): string
  {
    Join(Contents(matches), "\n\n")
  }

  /** The chat handler for `message`, given what the search yields and what the
      generator answers. */
  function Chat(message: string, search: Search, generate: (string, string, seq<Match>) -> Generated): (out: ChatOutcome)
    ensures out.call.Some? <==> search.Found? && |search.matches| > 0
    ensures search.SearchFailed? ==> out == ChatOutcome(InternalError, None)
    ensures search.Found? && |search.matches| == 0 ==> out.response == Response(200, AnswerBody(NoMatchesAnswer))
    ensures out.call.Some? ==> out.call.value == GeneratorCall(message, Context(search.matches), search.matches)
    ensures out.response.status == 200 <==> out.response.body.AnswerBody?
    ensures out.response.status != 200 ==> out.response == InternalError
    ensures out.response.status == 200 && out.call.Some? ==>
              generate(message, Context(search.matches), search.matches) == Answer(out.response.body.answer)
    ensures out.call.Some? && generate(message, Context(search.matches), search.matches).Answer? ==>
              out.response == Response(200, AnswerBody(generate(message, Context(search.matches), search.matches).text))
    ensures out.call.Some? && generate(message, Context(search.matches), search.matches).GenerationFailed? ==>
              out.response == InternalError
  {
    match search
    case SearchFailed(_) => ChatOutcome(InternalError, None)
    case Found(matches) =>
      if |matches| == 0 then ChatOutcome(Response(200, AnswerBody(NoMatchesAnswer)), None)
      else
        var context := Context(matches);
        var call := GeneratorCall(message, context, matches);
        match generate(message, context, matches)
        case Answer(text) => ChatOutcome(Response(200, AnswerBody(text)), Some(call))
        case GenerationFailed(_) => ChatOutcome(InternalError, Some(call))
  }

  /** The context is the contents of the first `k` matches, a blank line, and the
      contents of the rest: every match appears whole and in retrieval order. */
  lemma ContextSplits(matches: seq<Match>, k: nat)
    requires 0 < k < |matches|
    ensures Context(matches) == Context(matches[..k]) + "\n\n" + Context(matches[k..])
  {
    assert Contents(matches) == Contents(matches[..k]) + Contents(matches[k..]);
    JoinAppend(Contents(matches[..k]), Contents(matches[k..]), "\n\n");
  }

  /** The context's length: the contents' lengths and two characters per
      separator. */
  lemma ContextLength(matches: seq<Match>)
    requires |matches| > 0
    ensures |Context(matches)| == TotalLength(Contents(matches)) + 2 * (|matches| - 1)
  {
    JoinLength(Contents(matches), "\n\n");
  }

  /** One match is passed as the context unchanged. */
  lemma SingleMatchContext(m: Match)
    ensures Context([m]) == m.content
  {
    assert Contents([m]) == [m.content];
  }

  // ---------------------------------------------------------------------------
  // /api/reprocess and /api/clear-embeddings
  // ---------------------------------------------------------------------------

  /** The error `processFiles` throws for a listing: the listing's own, or the
      first entry that cannot be examined or read. */
  function ListingError(listing: Listing): (e: Option<string>)
    ensures listing.ListFailed? ==> e == Some(listing.message)
  {
    match listing
    case ListFailed(message) => Some(message)
    case Listed(entries) => FirstError(entries)
  }

  /** What `processFiles` does for a listing. */
  function ListingSchedule(listing: Listing): seq<Event>
  {
    match listing
    case ListFailed(_) => []
    case Listed(entries) => FilesSchedule(entries)
  }

  /** The files of the listing. */
  predicate Listed(listing: Listing, name: string)
  {
    listing.Listed? && HasFile(listing.entries, name)
  }

  /** The reprocess handler over the documents `directory`. The clear fails with
      `clearFailure`; the count check that follows may fail (`countCheckFails`)
      and is only logged, so nothing below depends on it. */
  method Reprocess(table: EmbeddingTable, directory: string, clearFailure: Option<string>, countCheckFails: bool,
                   listing: Listing, createdAt: string,
                   attempts: string -> nat -> nat -> Attempt, lookupFails: string -> nat -> bool,
                   insertError: string -> nat -> Option<string>)
    returns (response: Response, events: seq<Event>)
    requires table.Valid()
    modifies table
    ensures table.Valid()
    ensures clearFailure.Some? ==>
              response == Response(500, ErrorBody(ReprocessFailedPrefix + clearFailure.value))
              && events == [] && table.rows == old(table.rows)
    ensures clearFailure.None? ==> events == ListingSchedule(listing)
    ensures clearFailure.None? && ListingError(listing).Some? ==>
              response == Response(500, ErrorBody(ReprocessFailedPrefix + ListingError(listing).value))
    ensures clearFailure.None? && ListingError(listing).None? ==>
              response == Response(200, ReprocessedBody(ReprocessedMessage, directory))
    ensures clearFailure.None? ==> forall k :: 0 <= k < |table.rows| ==> Listed(listing, table.rows[k].filename)
    ensures clearFailure.None? && listing.ListFailed? ==> table.rows == []
    ensures clearFailure.None? && listing.Listed? ==>
              table.rows == FilesFold([], old(table.nextId), listing.entries, Reached(listing.entries),
                                      FileChunks, createdAt, attempts, lookupFails, insertError)
    ensures clearFailure.None? && listing.Listed? ==>
              RowsFromEntries([], table.rows, listing.entries, Reached(listing.entries), FileChunks, createdAt, attempts, insertError)
    ensures clearFailure.None? ==>
              forall k :: 0 <= k < |table.rows| ==> table.rows[k].id.Id? && table.rows[k].id.value >= old(table.nextId)
    ensures clearFailure.None? && listing.Listed? ==>
              forall i :: 0 <= i < Reached(listing.entries) ==>
                EntryStored(table.rows, listing.entries[i], FileChunks, attempts, insertError)
    ensures clearFailure.None? && NoLookupFails(lookupFails) ==> UniqueKeys(table.rows)
  {
    var clearError := table.DeleteWhereIdNotNull(clearFailure);
    if clearError.Some? {
      return Response(500, ErrorBody(ReprocessFailedPrefix + clearError.value)), [];
    }
    ClearsSerialIds(old(table.rows));
    assert table.rows == [];
    assert UniqueKeys(table.rows);
    var error;
    error, events := ProcessFiles(table, listing, createdAt, attempts, lookupFails, insertError);
    if listing.Listed? {
      RowsFromEntriesNamed([], table.rows, listing.entries, Reached(listing.entries), FileChunks,
                           createdAt, attempts, insertError);
    }
    if error.Some? {
      response := Response(500, ErrorBody(ReprocessFailedPrefix + error.value));
    } else {
      response := Response(200, ReprocessedBody(ReprocessedMessage, directory));
    }
  }

  /** The clear-embeddings handler; the delete fails with `failure`, whose message
      the response does not carry. */
  method ClearEmbeddings(table: EmbeddingTable, failure: Option<string>) returns (response: Response)
    requires table.Valid()
    modifies table
    ensures table.Valid()
    ensures failure.Some? ==> response == Response(500, ErrorBody(ClearFailedMessage)) && table.rows == old(table.rows)
    ensures failure.None? ==> response == Response(200, MessageBody(ClearedMessage))
                              && table.rows == ZeroOrNullIdRows(old(table.rows)) && table.rows == []
  {
    var error := table.DeleteWhereIdNotZero(failure);
    if error.Some? {
      return Response(500, ErrorBody(ClearFailedMessage));
    }
    ClearsSerialIds(old(table.rows));
    response := Response(200, MessageBody(ClearedMessage));
  }
}
