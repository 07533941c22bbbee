/** `processFiles(directoryPath)`: every regular file of the directory is chunked,
    and its chunks are embedded and stored ten at a time, with a pause of one
    second after each batch. The ten requests of a batch are issued together and
    awaited together; the model runs them one after the other in chunk order. */
module Ingest {
  import opened Text
  import opened Scanners
  import opened Chunker
  import opened Embedding
  import opened Store

  const BatchSize: nat := 10

  /** The pause after each batch, in milliseconds. */
  const PauseMs: nat := 1000

  /** What the loop does visibly: start on chunk `number` (counting from 1) of
      `file`, or pause. */
  datatype Event = Attempt(file: string, number: nat) | Pause(ms: nat)

  /** A batch: the chunks with indices `lo` up to but not including `hi`. */
  datatype Batch = Batch(lo: nat, hi: nat)

  /** The batches of `chunks.slice(i, i + 10)` for `i` = `from`, `from` + 10, ...
      below `n`. */
  function Batches(n: nat, from: nat): seq<Batch>
    decreases n - from
  {
    if from >= n then [] else [Batch(from, Min(from + BatchSize, n))] + Batches(n, from + BatchSize)
  }

  /** The batches are consecutive, each holds one to ten chunks, and together
      they hold the chunks from `from` to `n`; there are ceil((n - from) / 10). */
  lemma {:induction false} BatchesTile(n: nat, from: nat)
    requires from <= n
    ensures |Batches(n, from)| == (n - from + BatchSize - 1) / BatchSize
    ensures forall k :: 0 <= k < |Batches(n, from)| ==>
              1 <= Batches(n, from)[k].hi - Batches(n, from)[k].lo <= BatchSize
    ensures forall k :: 0 <= k < |Batches(n, from)| - 1 ==> Batches(n, from)[k].hi == Batches(n, from)[k + 1].lo
    ensures from < n ==> Batches(n, from)[0].lo == from && Batches(n, from)[|Batches(n, from)| - 1].hi == n
    decreases n - from
  {
    if from < n {
      var rest := Batches(n, from + BatchSize);
      assert Batches(n, from) == [Batch(from, Min(from + BatchSize, n))] + rest;
      if from + BatchSize < n {
        BatchesTile(n, from + BatchSize);
      } else {
        assert rest == [];
      }
    }
  }

  /** The events of one batch: one start per chunk, then the pause. */
  function BatchEvents(file: string, b: Batch): seq<Event>
  {
    Attempts(file, b.lo, b.hi) + [Pause(PauseMs)]
  }

  function Attempts(file: string, lo: nat, hi: nat): (es: seq<Event>)
    ensures |es| == if lo <= hi then hi - lo else 0
    ensures forall k :: 0 <= k < |es| ==> es[k] == Attempt(file, lo + k + 1)
    decreases hi - lo
  {
    if lo >= hi then [] else [Attempt(file, lo + 1)] + Attempts(file, lo + 1, hi)
  }

  function EventsOf(file: string, bs: seq<Batch>): seq<Event>
  {
    if |bs| == 0 then [] else BatchEvents(file, bs[0]) + EventsOf(file, bs[1..])
  }

  /** What the loop over the chunks of `file` does, whatever the services answer. */
  function Schedule(file: string, n: nat): seq<Event>
  {
    EventsOf(file, Batches(n, 0))
  }

  /** The chunk numbers the events start on, in order. */
  function Numbers(es: seq<Event>): seq<nat>
  {
    if |es| == 0 then []
    else (if es[0].Attempt? then [es[0].number] else []) + Numbers(es[1..])
  }

  function Pauses(es: seq<Event>): nat
  {
    if |es| == 0 then 0 else (if es[0].Pause? then 1 else 0) + Pauses(es[1..])
  }

  lemma {:induction false} NumbersAppend(a: seq<Event>, b: seq<Event>)
    ensures Numbers(a + b) == Numbers(a) + Numbers(b)
    decreases |a|
  {
    if |a| == 0 {
      assert a + b == b;
    } else {
      assert (a + b)[1..] == a[1..] + b;
      NumbersAppend(a[1..], b);
      AppendAssoc(if a[0].Attempt? then [a[0].number] else [], Numbers(a[1..]), Numbers(b));
    }
  }

  lemma {:induction false} PausesAppend(a: seq<Event>, b: seq<Event>)
    ensures Pauses(a + b) == Pauses(a) + Pauses(b)
    decreases |a|
  {
    if |a| == 0 {
      assert a + b == b;
    } else {
      assert (a + b)[1..] == a[1..] + b;
      PausesAppend(a[1..], b);
    }
  }

  lemma {:induction false} AttemptsNumbers(file: string, lo: nat, hi: nat)
    requires lo <= hi
    ensures Numbers(Attempts(file, lo, hi)) == Range(lo, hi)
    ensures Pauses(Attempts(file, lo, hi)) == 0
    decreases hi - lo
  {
    if lo < hi {
      assert Attempts(file, lo, hi)[1..] == Attempts(file, lo + 1, hi);
      AttemptsNumbers(file, lo + 1, hi);
    }
  }

  /** The chunk numbers `lo + 1` to `hi`. */
  function Range(lo: nat, hi: nat): (r: seq<nat>)
    decreases hi - lo
  {
    if lo >= hi then [] else [lo + 1] + Range(lo + 1, hi)
  }

  /** Every chunk is started exactly once, in order, numbered from `from + 1` to `n`. */
  lemma {:induction false} ScheduleNumbers(file: string, n: nat, from: nat)
    requires from <= n
    ensures Numbers(EventsOf(file, Batches(n, from))) == Range(from, n)
    decreases n - from
  {
    if from < n {
      var hi := Min(from + BatchSize, n);
      var tail := EventsOf(file, Batches(n, from + BatchSize));
      BatchUnfold(file, n, from);
      NumbersAppend(Attempts(file, from, hi), [Pause(PauseMs)] + tail);
      NumbersAppend([Pause(PauseMs)], tail);
      AttemptsNumbers(file, from, hi);
      assert Numbers([Pause(PauseMs)]) == [];
      if from + BatchSize < n {
        ScheduleNumbers(file, n, from + BatchSize);
        RangeSplit(from, hi, n);
      } else {
        assert tail == [];
        assert Range(from, n) == Range(from, hi) + [];
      }
    }
  }

  /** One pause per batch. */
  lemma {:induction false} SchedulePauses(file: string, n: nat, from: nat)
    requires from <= n
    ensures Pauses(EventsOf(file, Batches(n, from))) == |Batches(n, from)|
    decreases n - from
  {
    if from < n {
      var hi := Min(from + BatchSize, n);
      var tail := EventsOf(file, Batches(n, from + BatchSize));
      BatchUnfold(file, n, from);
      PausesAppend(Attempts(file, from, hi), [Pause(PauseMs)] + tail);
      PausesAppend([Pause(PauseMs)], tail);
      AttemptsNumbers(file, from, hi);
      assert Pauses([Pause(PauseMs)]) == 1;
      if from + BatchSize < n {
        SchedulePauses(file, n, from + BatchSize);
      }
      assert Batches(n, from) == [Batch(from, hi)] + Batches(n, from + BatchSize);
    }
  }

  /** The last batch is followed by a pause too. */
  lemma {:induction false} ScheduleEndsWithPause(file: string, n: nat, from: nat)
    requires from < n
    ensures |EventsOf(file, Batches(n, from))| > 0
    ensures EventsOf(file, Batches(n, from))[|EventsOf(file, Batches(n, from))| - 1] == Pause(PauseMs)
    decreases n - from
  {
    var hi := Min(from + BatchSize, n);
    var tail := EventsOf(file, Batches(n, from + BatchSize));
    BatchUnfold(file, n, from);
    if from + BatchSize < n {
      ScheduleEndsWithPause(file, n, from + BatchSize);
    } else {
      assert tail == [];
    }
  }

  lemma {:induction false} RangeSplit(lo: nat, mid: nat, hi: nat)
    requires lo <= mid <= hi
    ensures Range(lo, hi) == Range(lo, mid) + Range(mid, hi)
    decreases mid - lo
  {
    if lo < mid {
      RangeSplit(lo + 1, mid, hi);
    }
  }

  /** A chunk is embedded within the default retries and its insert, if one is
      made, does not fail. */
  predicate Succeeds(attempt: nat -> Attempt, insertError: Option<string>)
  {
    FirstOk(attempt, DefaultRetries) < DefaultRetries && insertError.None?
  }

  /** Some record holds chunk `chunk` of `file`. */
  predicate StoredIn(rows: seq<Row>, chunk: string, file: string)
  {
    exists k :: 0 <= k < |rows| && HasKey(rows[k], chunk, file)
  }

  /** Of the first `n` chunks, every one whose services succeed is stored. */
  predicate Covered(rows: seq<Row>, file: string, chunks: seq<string>, n: nat,
                    attempts: nat -> (nat -> Attempt), insertError: nat -> Option<string>)
  {
    forall c :: 0 <= c < |chunks| && c < n ==>
      Succeeds(attempts(c + 1), insertError(c + 1)) ==> StoredIn(rows, chunks[c], file)
  }

  /** The lookups for chunk numbers `lo + 1` to `hi` do not fail. */
  predicate LookupsSucceed(lookupFails: nat -> bool, lo: nat, hi: nat)
  {
    forall k :: lo < k <= hi ==> !lookupFails(k)
  }

  /** The record stored for `chunk` of `file` at `createdAt`: the vector of the
      first successful attempt, with the chunk's length and the model's name as
      metadata. */
  predicate IsChunkRow(row: Row, file: string, chunk: string, createdAt: string, attempt: nat -> Attempt)
  {
    && FirstOk(attempt, DefaultRetries) < DefaultRetries
    && row.content == chunk && row.filename == file
    && row.embedding == attempt(FirstOk(attempt, DefaultRetries)).vector
    && row.metadata == Metadata(|chunk|, createdAt, EmbeddingModel)
  }

  /** `row` is the record of some chunk of `file` whose services succeed. */
  predicate ChunkRow(row: Row, file: string, chunks: seq<string>, createdAt: string,
                     attempts: nat -> (nat -> Attempt), insertError: nat -> Option<string>)
  {
    exists c :: 0 <= c < |chunks| && Succeeds(attempts(c + 1), insertError(c + 1))
                && IsChunkRow(row, file, chunks[c], createdAt, attempts(c + 1))
  }

  /** The rows after `before` are new (ids from `firstId` on), and each is the
      record of a chunk of `file` whose services succeed. */
  predicate FileRowsAdded(before: seq<Row>, after: seq<Row>, firstId: int, file: string, chunks: seq<string>,
                          createdAt: string, attempts: nat -> (nat -> Attempt), insertError: nat -> Option<string>)
  {
    AddedSince(before, after, firstId) &&
    forall k {:trigger ChunkRow(after[k], file, chunks, createdAt, attempts, insertError)} ::
      |before| <= k < |after| ==> ChunkRow(after[k], file, chunks, createdAt, attempts, insertError)
  }

  lemma FileRowsAddedTrans(rows0: seq<Row>, rows1: seq<Row>, rows2: seq<Row>, id0: int, id1: int,
                           file: string, chunks: seq<string>, createdAt: string,
                           attempts: nat -> (nat -> Attempt), insertError: nat -> Option<string>)
    requires id0 <= id1
    requires FileRowsAdded(rows0, rows1, id0, file, chunks, createdAt, attempts, insertError)
    requires FileRowsAdded(rows1, rows2, id1, file, chunks, createdAt, attempts, insertError)
    ensures FileRowsAdded(rows0, rows2, id0, file, chunks, createdAt, attempts, insertError)
  {
    AddedSinceTrans(rows0, rows1, rows2, id0, id1);
    forall k | |rows0| <= k < |rows2| ensures ChunkRow(rows2[k], file, chunks, createdAt, attempts, insertError) {
      if k < |rows1| {
        assert rows2[k] == rows1[k];
      }
    }
  }

  /** What chunk `j` leaves behind: nothing, or its own record. */
  lemma ChunkRowsAdded(before: seq<Row>, after: seq<Row>, firstId: int, file: string, chunks: seq<string>, j: nat,
                       createdAt: string, attempts: nat -> (nat -> Attempt), insertError: nat -> Option<string>)
    requires j < |chunks|
    requires after == before || (Succeeds(attempts(j + 1), insertError(j + 1)) && after == before + [
               Row(Id(firstId), chunks[j], attempts(j + 1)(FirstOk(attempts(j + 1), DefaultRetries)).vector, file,
                   Metadata(|chunks[j]|, createdAt, EmbeddingModel))])
    ensures FileRowsAdded(before, after, firstId, file, chunks, createdAt, attempts, insertError)
  {
    if after != before {
      assert IsChunkRow(after[|before|], file, chunks[j], createdAt, attempts(j + 1));
    }
  }

  /** The rows after one chunk: its record with the next id is appended unless
      the embedding or the insert fails, or the lookup works and finds exactly
      one record with the chunk's key. */
  function ChunkRows(rows: seq<Row>, nextId: int, file: string, chunk: string, createdAt: string,
                     attempt: nat -> Attempt, lookupFails: bool, insertError: Option<string>): seq<Row>
  {
    if Succeeds(attempt, insertError) && (lookupFails || KeyCount(rows, chunk, file) != 1)
    then rows + [Row(Id(nextId), chunk, attempt(FirstOk(attempt, DefaultRetries)).vector, file,
                     Metadata(|chunk|, createdAt, EmbeddingModel))]
    else rows
  }

  /** How many records hold chunk `chunk` of `file`. */
  function KeyCount(rows: seq<Row>, chunk: string, file: string): nat
  {
    if |rows| == 0 then 0
    else KeyCount(rows[..|rows| - 1], chunk, file) + (if HasKey(rows[|rows| - 1], chunk, file) then 1 else 0)
  }

  /** The count is the number of records the lookup selects. */
  lemma {:induction false} KeyCountMatches(rows: seq<Row>, chunk: string, file: string)
    ensures KeyCount(rows, chunk, file) == |Matches(rows, chunk, file)|
    decreases |rows|
  {
    if |rows| > 0 {
      KeyCountMatches(rows[..|rows| - 1], chunk, file);
    }
  }

  /** `ChunkRows` against the lookup: nothing is added when a service fails or
      the working lookup finds exactly one record; otherwise the chunk's own
      record with the next id is appended. Either way a chunk whose services
      succeed ends up stored, and a working lookup keeps keys unique. */
  lemma ChunkRowsSpec(rows: seq<Row>, nextId: int, file: string, chunk: string, createdAt: string,
                      attempt: nat -> Attempt, lookupFails: bool, insertError: Option<string>)
    ensures !Succeeds(attempt, insertError) ==>
              ChunkRows(rows, nextId, file, chunk, createdAt, attempt, lookupFails, insertError) == rows
    ensures Succeeds(attempt, insertError) && !lookupFails && |Matches(rows, chunk, file)| == 1 ==>
              ChunkRows(rows, nextId, file, chunk, createdAt, attempt, lookupFails, insertError) == rows
    ensures Succeeds(attempt, insertError) && (lookupFails || |Matches(rows, chunk, file)| != 1) ==>
              ChunkRows(rows, nextId, file, chunk, createdAt, attempt, lookupFails, insertError)
              == rows + [Row(Id(nextId), chunk, attempt(FirstOk(attempt, DefaultRetries)).vector, file,
                             Metadata(|chunk|, createdAt, EmbeddingModel))]
    ensures Succeeds(attempt, insertError) ==>
              StoredIn(ChunkRows(rows, nextId, file, chunk, createdAt, attempt, lookupFails, insertError), chunk, file)
    ensures !lookupFails && UniqueKeys(rows) ==>
              UniqueKeys(ChunkRows(rows, nextId, file, chunk, createdAt, attempt, lookupFails, insertError))
  {
    KeyCountMatches(rows, chunk, file);
    var after := ChunkRows(rows, nextId, file, chunk, createdAt, attempt, lookupFails, insertError);
    if after == rows {
      if Succeeds(attempt, insertError) {
        var m := Matches(rows, chunk, file);
        assert m[0] in m;
        var k :| 0 <= k < |rows| && rows[k] == m[0];
      }
    } else {
      var row := after[|rows|];
      assert HasKey(row, chunk, file);
      if !lookupFails && UniqueKeys(rows) {
        UniqueAtMostOne(rows, chunk, file);
        AppendNewKey(rows, row);
      }
    }
  }

  /** Insert-or-skip: with unique keys and a working lookup, a chunk already
      stored adds nothing, and one not yet stored is added exactly when its
      services succeed. */
  lemma ChunkRowsInsertOrSkip(rows: seq<Row>, nextId: int, file: string, chunk: string, createdAt: string,
                              attempt: nat -> Attempt, insertError: Option<string>)
    requires UniqueKeys(rows)
    ensures StoredIn(rows, chunk, file) ==> ChunkRows(rows, nextId, file, chunk, createdAt, attempt, false, insertError) == rows
    ensures !StoredIn(rows, chunk, file) ==>
              (|ChunkRows(rows, nextId, file, chunk, createdAt, attempt, false, insertError)| == |rows| + 1
               <==> Succeeds(attempt, insertError))
  {
    UniqueAtMostOne(rows, chunk, file);
    KeyCountMatches(rows, chunk, file);
    if StoredIn(rows, chunk, file) {
      var k :| 0 <= k < |rows| && HasKey(rows[k], chunk, file);
      assert rows[k] in Matches(rows, chunk, file);
    }
  }

  /** Runs `step` for positions `lo + 1` to `hi` in turn from `rows`, with the id
      sequence standing at `nextId`; each appended row draws one id. */
  function RowsFold(rows: seq<Row>, nextId: int, lo: nat, hi: nat, step: (seq<Row>, int, nat) -> seq<Row>): seq<Row>
    requires lo <= hi
    decreases hi
  {
    if hi == lo then rows
    else
      var prev := RowsFold(rows, nextId, lo, hi - 1, step);
      step(prev, nextId + |prev| - |rows|, hi)
  }

  /** Running the steps up to `mid` and then the rest is running them all. */
  lemma {:induction false} RowsFoldSplit(rows: seq<Row>, nextId: int, lo: nat, mid: nat, hi: nat,
                                         step: (seq<Row>, int, nat) -> seq<Row>)
    requires lo <= mid <= hi
    ensures RowsFold(rows, nextId, lo, hi, step)
            == RowsFold(RowsFold(rows, nextId, lo, mid, step),
                        nextId + |RowsFold(rows, nextId, lo, mid, step)| - |rows|, mid, hi, step)
    decreases hi
  {
    if hi > mid {
      RowsFoldSplit(rows, nextId, lo, mid, hi - 1, step);
    }
  }

  /** A property of the table that every step carries from `k - 1` steps to
      `k` holds after the whole fold. */
  lemma {:induction false} RowsFoldKeeps(rows: seq<Row>, nextId: int, lo: nat, hi: nat,
                                         step: (seq<Row>, int, nat) -> seq<Row>, inv: (seq<Row>, nat) -> bool)
    requires lo <= hi && inv(rows, lo)
    requires forall r: seq<Row>, id: int, k: nat :: lo < k <= hi && inv(r, k - 1) ==> inv(step(r, id, k), k)
    ensures inv(RowsFold(rows, nextId, lo, hi, step), hi)
    decreases hi
  {
    if hi > lo {
      RowsFoldKeeps(rows, nextId, lo, hi - 1, step, inv);
    }
  }

  /** ProcessChunk's effect for chunk number `k` (1-based) of `chunks`. */
  function ChunkStep(file: string, chunks: seq<string>, createdAt: string, attempts: nat -> (nat -> Attempt),
                     lookupFails: nat -> bool, insertError: nat -> Option<string>): (seq<Row>, int, nat) -> seq<Row>
  {
    (rows: seq<Row>, nextId: int, k: nat) =>
      if 0 < k <= |chunks|
      then ChunkRows(rows, nextId, file, chunks[k - 1], createdAt, attempts(k), lookupFails(k), insertError(k))
      else rows
  }

  /** The rows after chunks `lo` to `hi` (0-based, `hi` excluded) are run one
      after another from `rows`, with the id sequence standing at `nextId`. */
  function ChunksFold(rows: seq<Row>, nextId: int, file: string, chunks: seq<string>, lo: nat, hi: nat,
                      createdAt: string, attempts: nat -> (nat -> Attempt), lookupFails: nat -> bool,
                      insertError: nat -> Option<string>): seq<Row>
    requires lo <= hi
  {
    RowsFold(rows, nextId, lo, hi, ChunkStep(file, chunks, createdAt, attempts, lookupFails, insertError))
  }

  /** One more chunk is one more `ChunkRows`. */
  lemma ChunksFoldStep(rows: seq<Row>, nextId: int, file: string, chunks: seq<string>, lo: nat, j: nat,
                       createdAt: string, attempts: nat -> (nat -> Attempt), lookupFails: nat -> bool,
                       insertError: nat -> Option<string>)
    requires lo <= j < |chunks|
    ensures var prev := ChunksFold(rows, nextId, file, chunks, lo, j, createdAt, attempts, lookupFails, insertError);
            ChunksFold(rows, nextId, file, chunks, lo, j + 1, createdAt, attempts, lookupFails, insertError)
            == ChunkRows(prev, nextId + |prev| - |rows|, file, chunks[j], createdAt,
                         attempts(j + 1), lookupFails(j + 1), insertError(j + 1))
  {
  }

  /** The batch loop's invariant carried from the table `rows1`, `id1` after
      chunks `lo` to `j` to `rows2`, `id2` after chunk `j`. */
  lemma ChunksFoldNext(rows0: seq<Row>, id0: int, rows1: seq<Row>, id1: int, rows2: seq<Row>, id2: int,
                       file: string, chunks: seq<string>, lo: nat, j: nat, createdAt: string,
                       attempts: nat -> (nat -> Attempt), lookupFails: nat -> bool, insertError: nat -> Option<string>)
    requires lo <= j < |chunks|
    requires rows1 == ChunksFold(rows0, id0, file, chunks, lo, j, createdAt, attempts, lookupFails, insertError)
    requires id1 == id0 + |rows1| - |rows0|
    requires rows2 == ChunkRows(rows1, id1, file, chunks[j], createdAt, attempts(j + 1), lookupFails(j + 1), insertError(j + 1))
    requires id2 == id1 + |rows2| - |rows1|
    ensures rows2 == ChunksFold(rows0, id0, file, chunks, lo, j + 1, createdAt, attempts, lookupFails, insertError)
    ensures id2 == id0 + |rows2| - |rows0|
  {
    ChunksFoldStep(rows0, id0, file, chunks, lo, j, createdAt, attempts, lookupFails, insertError);
  }

  /** Chunk `j` keeps the provenance of the records appended since `rows0`. */
  lemma ChunkAddsStep(rows0: seq<Row>, id0: int, rows1: seq<Row>, id1: int, file: string, chunks: seq<string>, j: nat,
                      createdAt: string, attempts: nat -> (nat -> Attempt), lookupFails: nat -> bool,
                      insertError: nat -> Option<string>)
    requires j < |chunks| && id0 <= id1
    requires FileRowsAdded(rows0, rows1, id0, file, chunks, createdAt, attempts, insertError)
    ensures FileRowsAdded(rows0, ChunkRows(rows1, id1, file, chunks[j], createdAt, attempts(j + 1), lookupFails(j + 1),
                                           insertError(j + 1)),
                          id0, file, chunks, createdAt, attempts, insertError)
  {
    var rows2 := ChunkRows(rows1, id1, file, chunks[j], createdAt, attempts(j + 1), lookupFails(j + 1), insertError(j + 1));
    ChunkRowsSpec(rows1, id1, file, chunks[j], createdAt, attempts(j + 1), lookupFails(j + 1), insertError(j + 1));
    ChunkRowsAdded(rows1, rows2, id1, file, chunks, j, createdAt, attempts, insertError);
    FileRowsAddedTrans(rows0, rows1, rows2, id0, id1, file, chunks, createdAt, attempts, insertError);
  }

  /** Chunk `j` keeps the earlier chunks stored and stores itself when its services succeed. */
  lemma ChunkCoversStep(rows1: seq<Row>, id1: int, rows2: seq<Row>, file: string, chunks: seq<string>, j: nat,
                        createdAt: string, attempts: nat -> (nat -> Attempt), lookupFails: nat -> bool,
                        insertError: nat -> Option<string>)
    requires j < |chunks| && Covered(rows1, file, chunks, j, attempts, insertError)
    requires rows2 == ChunkRows(rows1, id1, file, chunks[j], createdAt, attempts(j + 1), lookupFails(j + 1), insertError(j + 1))
    ensures Covered(rows2, file, chunks, j + 1, attempts, insertError)
  {
    ChunkRowsSpec(rows1, id1, file, chunks[j], createdAt, attempts(j + 1), lookupFails(j + 1), insertError(j + 1));
    KeptRows(rows1, rows2, chunks, j, file, attempts, insertError);
  }

  /** The records the chunks from `lo` to `hi` leave behind are appended after
      `rows` with ids from `nextId` on, each for a chunk whose services succeed. */
  lemma {:induction false} ChunksFoldAdds(rows: seq<Row>, nextId: int, file: string, chunks: seq<string>,
                                          lo: nat, hi: nat, createdAt: string,
                                          attempts: nat -> (nat -> Attempt), lookupFails: nat -> bool,
                                          insertError: nat -> Option<string>)
    requires lo <= hi <= |chunks|
    ensures FileRowsAdded(rows, ChunksFold(rows, nextId, file, chunks, lo, hi, createdAt, attempts, lookupFails, insertError),
                          nextId, file, chunks, createdAt, attempts, insertError)
    decreases hi
  {
    if hi > lo {
      ChunksFoldAdds(rows, nextId, file, chunks, lo, hi - 1, createdAt, attempts, lookupFails, insertError);
      var prev := ChunksFold(rows, nextId, file, chunks, lo, hi - 1, createdAt, attempts, lookupFails, insertError);
      ChunksFoldStep(rows, nextId, file, chunks, lo, hi - 1, createdAt, attempts, lookupFails, insertError);
      ChunkAddsStep(rows, nextId, prev, nextId + |prev| - |rows|, file, chunks, hi - 1,
                    createdAt, attempts, lookupFails, insertError);
    }
  }

  /** Every chunk from `lo` to `hi` whose services succeed is stored afterwards,
      and what was stored before stays stored. */
  lemma ChunksFoldCovers(rows: seq<Row>, nextId: int, file: string, chunks: seq<string>,
                          lo: nat, hi: nat, createdAt: string,
                          attempts: nat -> (nat -> Attempt), lookupFails: nat -> bool,
                          insertError: nat -> Option<string>)
    requires lo <= hi <= |chunks|
    requires Covered(rows, file, chunks, lo, attempts, insertError)
    ensures Covered(ChunksFold(rows, nextId, file, chunks, lo, hi, createdAt, attempts, lookupFails, insertError),
                    file, chunks, hi, attempts, insertError)
  {
    var step := ChunkStep(file, chunks, createdAt, attempts, lookupFails, insertError);
    var inv := (r: seq<Row>, k: nat) => Covered(r, file, chunks, k, attempts, insertError);
    forall r: seq<Row>, id: int, k: nat | lo < k <= hi && inv(r, k - 1)
      ensures inv(step(r, id, k), k)
    {
      ChunkCoversStep(r, id, step(r, id, k), file, chunks, k - 1, createdAt, attempts, lookupFails, insertError);
    }
    RowsFoldKeeps(rows, nextId, lo, hi, step, inv);
  }

  /** While the lookups work, the chunks keep the keys unique. */
  lemma {:induction false} ChunksFoldUnique(rows: seq<Row>, nextId: int, file: string, chunks: seq<string>,
                                            lo: nat, hi: nat, createdAt: string,
                                            attempts: nat -> (nat -> Attempt), lookupFails: nat -> bool,
                                            insertError: nat -> Option<string>)
    requires lo <= hi <= |chunks|
    requires LookupsSucceed(lookupFails, lo, hi) && UniqueKeys(rows)
    ensures UniqueKeys(ChunksFold(rows, nextId, file, chunks, lo, hi, createdAt, attempts, lookupFails, insertError))
    decreases hi
  {
    if hi > lo {
      ChunksFoldUnique(rows, nextId, file, chunks, lo, hi - 1, createdAt, attempts, lookupFails, insertError);
      var prev := ChunksFold(rows, nextId, file, chunks, lo, hi - 1, createdAt, attempts, lookupFails, insertError);
      ChunksFoldStep(rows, nextId, file, chunks, lo, hi - 1, createdAt, attempts, lookupFails, insertError);
      ChunkRowsSpec(prev, nextId + |prev| - |rows|, file, chunks[hi - 1], createdAt,
                    attempts(hi), lookupFails(hi), insertError(hi));
    }
  }

  /** The three together, as the chunk loops use them. */
  lemma ChunksFoldDone(rows: seq<Row>, nextId: int, file: string, chunks: seq<string>, lo: nat, hi: nat,
                       createdAt: string, attempts: nat -> (nat -> Attempt), lookupFails: nat -> bool,
                       insertError: nat -> Option<string>)
    requires lo <= hi <= |chunks|
    ensures var after := ChunksFold(rows, nextId, file, chunks, lo, hi, createdAt, attempts, lookupFails, insertError);
            && FileRowsAdded(rows, after, nextId, file, chunks, createdAt, attempts, insertError)
            && (Covered(rows, file, chunks, lo, attempts, insertError) ==> Covered(after, file, chunks, hi, attempts, insertError))
            && (LookupsSucceed(lookupFails, lo, hi) && UniqueKeys(rows) ==> UniqueKeys(after))
  {
    ChunksFoldAdds(rows, nextId, file, chunks, lo, hi, createdAt, attempts, lookupFails, insertError);
    if Covered(rows, file, chunks, lo, attempts, insertError) {
      ChunksFoldCovers(rows, nextId, file, chunks, lo, hi, createdAt, attempts, lookupFails, insertError);
    }
    if LookupsSucceed(lookupFails, lo, hi) && UniqueKeys(rows) {
      ChunksFoldUnique(rows, nextId, file, chunks, lo, hi, createdAt, attempts, lookupFails, insertError);
    }
  }

  /** The records of the chunks from `lo` to `hi` whose services succeed, in
      chunk order, with consecutive ids from `nextId`. */
  function SucceedingRecords(nextId: int, file: string, chunks: seq<string>, lo: nat, hi: nat, createdAt: string,
                             attempts: nat -> (nat -> Attempt), insertError: nat -> Option<string>): seq<Row>
    requires lo <= hi <= |chunks|
    decreases hi
  {
    if hi == lo then []
    else
      var prev := SucceedingRecords(nextId, file, chunks, lo, hi - 1, createdAt, attempts, insertError);
      if Succeeds(attempts(hi), insertError(hi))
      then prev + [Row(Id(nextId + |prev|), chunks[hi - 1], attempts(hi)(FirstOk(attempts(hi), DefaultRetries)).vector,
                       file, Metadata(|chunks[hi - 1]|, createdAt, EmbeddingModel))]
      else prev
  }

  /** When every lookup fails, each chunk whose services succeed gets a record
      of its own, in chunk order, duplicates included, and nothing else is added. */
  lemma {:induction false} ChunksFoldLookupsFail(rows: seq<Row>, nextId: int, file: string, chunks: seq<string>,
                                                 lo: nat, hi: nat, createdAt: string,
                                                 attempts: nat -> (nat -> Attempt), lookupFails: nat -> bool,
                                                 insertError: nat -> Option<string>)
    requires lo <= hi <= |chunks|
    requires forall k :: lo < k <= hi ==> lookupFails(k)
    ensures ChunksFold(rows, nextId, file, chunks, lo, hi, createdAt, attempts, lookupFails, insertError)
            == rows + SucceedingRecords(nextId, file, chunks, lo, hi, createdAt, attempts, insertError)
    decreases hi
  {
    if hi > lo {
      ChunksFoldLookupsFail(rows, nextId, file, chunks, lo, hi - 1, createdAt, attempts, lookupFails, insertError);
      var prev := SucceedingRecords(nextId, file, chunks, lo, hi - 1, createdAt, attempts, insertError);
      if Succeeds(attempts(hi), insertError(hi)) {
        var r := Row(Id(nextId + |prev|), chunks[hi - 1], attempts(hi)(FirstOk(attempts(hi), DefaultRetries)).vector,
                     file, Metadata(|chunks[hi - 1]|, createdAt, EmbeddingModel));
        AppendAssoc(rows, prev, [r]);
      }
    }
  }

  /** One chunk: embed it with the default retries, then store it. Either step may
      throw; the error is caught here, so the loop goes on with the next chunk. */
  method ProcessChunk(table: EmbeddingTable, file: string, chunk: string, createdAt: string,
                      attempt: nat -> Attempt, lookupFails: bool, insertError: Option<string>)
    requires table.Valid()
    modifies table
    ensures table.Valid()
    ensures table.rows == ChunkRows(old(table.rows), old(table.nextId), file, chunk, createdAt, attempt, lookupFails, insertError)
    ensures table.nextId == old(table.nextId) + |table.rows| - |old(table.rows)|
    ensures !Succeeds(attempt, insertError) ==> table.rows == old(table.rows)
    ensures Succeeds(attempt, insertError) && !lookupFails && |Matches(old(table.rows), chunk, file)| == 1 ==>
              table.rows == old(table.rows)
    ensures Succeeds(attempt, insertError) && (lookupFails || |Matches(old(table.rows), chunk, file)| != 1) ==>
              table.rows == old(table.rows) + [Row(Id(old(table.nextId)), chunk, attempt(FirstOk(attempt, DefaultRetries)).vector,
                                                   file, Metadata(|chunk|, createdAt, EmbeddingModel))]
    ensures Succeeds(attempt, insertError) ==> StoredIn(table.rows, chunk, file)
    ensures !lookupFails && UniqueKeys(old(table.rows)) ==> UniqueKeys(table.rows)
  {
    ghost var before := table.rows;
    KeyCountMatches(table.rows, chunk, file);
    var fetched, delays := GetEmbedding(chunk, DefaultRetries, attempt);
    if fetched.Fetched? {
      var stored := table.StoreEmbedding(chunk, fetched.vector, file, createdAt, lookupFails, insertError);
    }
    ChunkRowsSpec(before, old(table.nextId), file, chunk, createdAt, attempt, lookupFails, insertError);
  }

  /** The loop over the chunks of one file. `attempts(k)`, `lookupFails(k)` and
      `insertError(k)` are what the services answer for chunk number `k`. A
      chunk whose embedding and insert succeed is in the table afterwards,
      whatever happened to the chunks around it. */
  method ProcessChunks(table: EmbeddingTable, file: string, chunks: seq<string>, createdAt: string,
                       attempts: nat -> (nat -> Attempt), lookupFails: nat -> bool,
                       insertError: nat -> Option<string>)
    returns (events: seq<Event>)
    requires table.Valid()
    modifies table
    ensures table.Valid()
    ensures events == Schedule(file, |chunks|)
    ensures table.rows == ChunksFold(old(table.rows), old(table.nextId), file, chunks, 0, |chunks|,
                                     createdAt, attempts, lookupFails, insertError)
    ensures table.nextId == old(table.nextId) + |table.rows| - |old(table.rows)|
    ensures FileRowsAdded(old(table.rows), table.rows, old(table.nextId), file, chunks, createdAt, attempts, insertError)
    ensures old(table.nextId) <= table.nextId
    ensures Covered(table.rows, file, chunks, |chunks|, attempts, insertError)
    ensures LookupsSucceed(lookupFails, 0, |chunks|) && UniqueKeys(old(table.rows)) ==> UniqueKeys(table.rows)
  {
    events := [];
    var i := 0;
    OnScheduleStart(file, |chunks|);
    while i < |chunks|
      invariant table.Valid()
      invariant OnSchedule(events, file, |chunks|, i)
      invariant ChunksSoFar(old(table.rows), old(table.nextId), table.rows, table.nextId, file, chunks, i,
                            createdAt, attempts, lookupFails, insertError)
      decreases |chunks| - i
    {
      var hi := Min(i + BatchSize, |chunks|);
      ghost var before, beforeNext := table.rows, table.nextId;
      var batchEvents := ProcessBatch(table, file, chunks, i, hi, createdAt, attempts, lookupFails, insertError);
      BatchStep(old(table.rows), old(table.nextId), before, beforeNext, table.rows, table.nextId, file, chunks, i,
                createdAt, attempts, lookupFails, insertError);
      ScheduleStep(file, |chunks|, i, events, batchEvents);
      events := events + batchEvents + [Pause(PauseMs)];
      i := i + BatchSize;
    }
    ChunksDone(old(table.rows), old(table.nextId), table.rows, table.nextId, file, chunks, i,
               createdAt, attempts, lookupFails, insertError, events);
    ChunksFoldDone(old(table.rows), old(table.nextId), file, chunks, 0, |chunks|, createdAt, attempts, lookupFails, insertError);
  }

  /** Once every batch is done, the invariants are the method's promises. */
  lemma ChunksDone(rows0: seq<Row>, id0: nat, rows: seq<Row>, id: nat, file: string, chunks: seq<string>,
                   n: nat, createdAt: string, attempts: nat -> (nat -> Attempt), lookupFails: nat -> bool,
                   insertError: nat -> Option<string>, events: seq<Event>)
    requires n >= |chunks| && OnSchedule(events, file, |chunks|, n)
    requires ChunksSoFar(rows0, id0, rows, id, file, chunks, n, createdAt, attempts, lookupFails, insertError)
    ensures events == Schedule(file, |chunks|)
    ensures ChunksSoFar(rows0, id0, rows, id, file, chunks, |chunks|, createdAt, attempts, lookupFails, insertError)
  {
    assert events + EventsOf(file, Batches(|chunks|, n)) == events;
  }

  /** The loop's invariant about the table once the chunks before `n` are done:
      it holds what those chunks leave behind, and each new record drew one id. */
  predicate ChunksSoFar(rows0: seq<Row>, id0: nat, rows: seq<Row>, id: nat, file: string, chunks: seq<string>,
                        n: nat, createdAt: string, attempts: nat -> (nat -> Attempt), lookupFails: nat -> bool,
                        insertError: nat -> Option<string>)
  {
    && rows == ChunksFold(rows0, id0, file, chunks, 0, Min(n, |chunks|), createdAt, attempts, lookupFails, insertError)
    && id == id0 + |rows| - |rows0|
  }

  /** One batch, as `ProcessBatch` leaves it, keeps the loop's invariant. */
  lemma BatchStep(rows0: seq<Row>, id0: nat, rows1: seq<Row>, id1: nat, rows2: seq<Row>, id2: nat,
                  file: string, chunks: seq<string>, i: nat, createdAt: string,
                  attempts: nat -> (nat -> Attempt), lookupFails: nat -> bool, insertError: nat -> Option<string>)
    requires i < |chunks|
    requires ChunksSoFar(rows0, id0, rows1, id1, file, chunks, i, createdAt, attempts, lookupFails, insertError)
    requires rows2 == ChunksFold(rows1, id1, file, chunks, i, Min(i + BatchSize, |chunks|),
                                 createdAt, attempts, lookupFails, insertError)
    requires id2 == id1 + |rows2| - |rows1|
    ensures ChunksSoFar(rows0, id0, rows2, id2, file, chunks, i + BatchSize, createdAt, attempts, lookupFails, insertError)
  {
    RowsFoldSplit(rows0, id0, 0, i, Min(i + BatchSize, |chunks|),
                  ChunkStep(file, chunks, createdAt, attempts, lookupFails, insertError));
  }

  /** `chunks.slice(lo, hi)` with each chunk processed in turn. */
  method ProcessBatch(table: EmbeddingTable, file: string, chunks: seq<string>, lo: nat, hi: nat, createdAt: string,
                      attempts: nat -> (nat -> Attempt), lookupFails: nat -> bool,
                      insertError: nat -> Option<string>)
    returns (events: seq<Event>)
    requires lo <= hi <= |chunks| && table.Valid()
    modifies table
    ensures table.Valid()
    ensures events == Attempts(file, lo, hi)
    ensures table.rows == ChunksFold(old(table.rows), old(table.nextId), file, chunks, lo, hi,
                                     createdAt, attempts, lookupFails, insertError)
    ensures table.nextId == old(table.nextId) + |table.rows| - |old(table.rows)|
    ensures FileRowsAdded(old(table.rows), table.rows, old(table.nextId), file, chunks, createdAt, attempts, insertError)
    ensures old(table.nextId) <= table.nextId
    ensures Covered(old(table.rows), file, chunks, lo, attempts, insertError) ==>
              Covered(table.rows, file, chunks, hi, attempts, insertError)
    ensures LookupsSucceed(lookupFails, lo, hi) && UniqueKeys(old(table.rows)) ==> UniqueKeys(table.rows)
  {
    events := [];
    var j := lo;
    while j < hi
      invariant lo <= j <= hi
      invariant table.Valid()
      invariant events == Attempts(file, lo, j)
      invariant table.rows == ChunksFold(old(table.rows), old(table.nextId), file, chunks, lo, j,
                                         createdAt, attempts, lookupFails, insertError)
      invariant table.nextId == old(table.nextId) + |table.rows| - |old(table.rows)|
    {
      AttemptsExtend(file, lo, j);
      events := events + [Attempt(file, j + 1)];
      ghost var before, beforeNext := table.rows, table.nextId;
      ProcessChunk(table, file, chunks[j], createdAt, attempts(j + 1), lookupFails(j + 1), insertError(j + 1));
      ChunksFoldNext(old(table.rows), old(table.nextId), before, beforeNext, table.rows, table.nextId,
                     file, chunks, lo, j, createdAt, attempts, lookupFails, insertError);
      j := j + 1;
    }
    ChunksFoldDone(old(table.rows), old(table.nextId), file, chunks, lo, hi, createdAt, attempts, lookupFails, insertError);
  }

  lemma AttemptsExtend(file: string, lo: nat, j: nat)
    requires lo <= j
    ensures Attempts(file, lo, j + 1) == Attempts(file, lo, j) + [Attempt(file, j + 1)]
  {
  }

  /** The events from batch `i` on: its starts, its pause, the later batches. */
  lemma BatchUnfold(file: string, n: nat, i: nat)
    requires i < n
    ensures EventsOf(file, Batches(n, i))
         == Attempts(file, i, Min(i + BatchSize, n)) + ([Pause(PauseMs)] + EventsOf(file, Batches(n, i + BatchSize)))
  {
    var bs := Batches(n, i);
    assert bs[1..] == Batches(n, i + BatchSize);
    AppendAssoc(Attempts(file, i, Min(i + BatchSize, n)), [Pause(PauseMs)], EventsOf(file, Batches(n, i + BatchSize)));
  }

  /** `events` followed by the events of the batches from `i` on make up the
      schedule of a file of `n` chunks. */
  predicate OnSchedule(events: seq<Event>, file: string, n: nat, i: nat)
  {
    events + EventsOf(file, Batches(n, i)) == Schedule(file, n)
  }

  lemma OnScheduleStart(file: string, n: nat)
    ensures OnSchedule([], file, n, 0)
  {
    assert [] + Schedule(file, n) == Schedule(file, n);
  }

  /** One pass of the batch loop keeps the events on schedule. */
  lemma ScheduleStep(file: string, n: nat, i: nat, events: seq<Event>, batchEvents: seq<Event>)
    requires i < n && OnSchedule(events, file, n, i)
    requires batchEvents == Attempts(file, i, Min(i + BatchSize, n))
    ensures OnSchedule(events + batchEvents + [Pause(PauseMs)], file, n, i + BatchSize)
  {
    BatchUnfold(file, n, i);
    AppendAssoc(events, batchEvents, [Pause(PauseMs)] + EventsOf(file, Batches(n, i + BatchSize)));
    AppendAssoc(events + batchEvents, [Pause(PauseMs)], EventsOf(file, Batches(n, i + BatchSize)));
  }

  /** Rows only ever get appended, so a stored chunk stays found. */
  lemma KeptRows(before: seq<Row>, after: seq<Row>, chunks: seq<string>, j: nat, file: string,
                 attempts: nat -> (nat -> Attempt), insertError: nat -> Option<string>)
    requires before <= after && j < |chunks|
    requires Covered(before, file, chunks, j, attempts, insertError)
    requires Succeeds(attempts(j + 1), insertError(j + 1)) ==> StoredIn(after, chunks[j], file)
    ensures Covered(after, file, chunks, j + 1, attempts, insertError)
  {
    forall c | 0 <= c < |chunks| && c < j + 1 && Succeeds(attempts(c + 1), insertError(c + 1))
      ensures StoredIn(after, chunks[c], file)
    {
      if c < j {
        assert StoredIn(before, chunks[c], file);
        var k :| 0 <= k < |before| && HasKey(before[k], chunks[c], file);
        assert after[k] == before[k];
      }
    }
  }

  // ---------------------------------------------------------------------------
  // processFiles
  // ---------------------------------------------------------------------------

  /** A directory entry as `fs.stat` and `fs.readFile` see it. */
  datatype Entry =
    | RegularFile(name: string, content: string)
    | OtherEntry(name: string)
    | StatFailed(name: string, message: string)
    | ReadFailed(name: string, message: string)

  /** What `fs.readdir` yields. */
  datatype Listing = Listed(entries: seq<Entry>) | ListFailed(message: string)

  /** What the loop over the entries does: each regular file's chunk schedule in
      directory order, skipping other entries, up to the first entry that cannot
      be examined or read. */
  function FilesSchedule(entries: seq<Entry>): seq<Event>
  {
    if |entries| == 0 then []
    else match entries[0]
      case RegularFile(name, content) =>
        Schedule(name, |SplitChunks(content, name, DefaultMaxTokens)|) + FilesSchedule(entries[1..])
      case OtherEntry(_) => FilesSchedule(entries[1..])
      case StatFailed(_, _) => []
      case ReadFailed(_, _) => []
  }

  /** The error `processFiles` rethrows: the first entry that cannot be examined
      or read stops the whole run. */
  function FirstError(entries: seq<Entry>): (e: Option<string>)
    ensures e.None? <==> forall i :: 0 <= i < |entries| ==> entries[i].RegularFile? || entries[i].OtherEntry?
  {
    if |entries| == 0 then None
    else match entries[0]
      case StatFailed(_, message) => Some(message)
      case ReadFailed(_, message) => Some(message)
      case _ =>
        assert forall i :: 1 <= i < |entries| ==> entries[i] == entries[1..][i - 1];
        FirstError(entries[1..])
  }

  /** A regular file called `name` is among the entries. */
  predicate HasFile(entries: seq<Entry>, name: string)
  {
    exists i :: 0 <= i < |entries| && entries[i].RegularFile? && entries[i].name == name
  }

  /** What `splitIntoChunks` makes of a regular file: its chunks at the default
      token limit. Other entries have none. */
  function FileChunks(e: Entry): seq<string>
  {
    if e.RegularFile? then SplitChunks(e.content, e.name, DefaultMaxTokens) else []
  }

  /** `row` is the record of a chunk of regular file `e` whose services succeed,
      the file being cut into `chunksOf(e)`. The entry-level definitions take the
      splitter as a parameter; the loop itself uses `FileChunks`. */
  predicate EntryRow(row: Row, e: Entry, chunksOf: Entry -> seq<string>, createdAt: string,
                     attempts: string -> nat -> nat -> Attempt, insertError: string -> nat -> Option<string>)
  {
    e.RegularFile? && ChunkRow(row, e.name, chunksOf(e), createdAt, attempts(e.name), insertError(e.name))
  }

  /** Each row after `before` is the record of a chunk of one of the first `n` entries. */
  predicate RowsFromEntries(before: seq<Row>, after: seq<Row>, entries: seq<Entry>, n: nat,
                            chunksOf: Entry -> seq<string>, createdAt: string,
                            attempts: string -> nat -> nat -> Attempt, insertError: string -> nat -> Option<string>)
  {
    forall k :: |before| <= k < |after| ==>
      exists j :: 0 <= j < n && j < |entries| && EntryRow(after[k], entries[j], chunksOf, createdAt, attempts, insertError)
  }

  /** Appending the records of entry `n` extends the range of entries by one. */
  lemma RowsFromEntriesStep(rows0: seq<Row>, rows1: seq<Row>, rows2: seq<Row>, entries: seq<Entry>, n: nat,
                            chunksOf: Entry -> seq<string>, createdAt: string,
                            attempts: string -> nat -> nat -> Attempt, insertError: string -> nat -> Option<string>)
    requires rows0 <= rows1 <= rows2 && n < |entries|
    requires RowsFromEntries(rows0, rows1, entries, n, chunksOf, createdAt, attempts, insertError)
    requires forall k :: |rows1| <= k < |rows2| ==> EntryRow(rows2[k], entries[n], chunksOf, createdAt, attempts, insertError)
    ensures RowsFromEntries(rows0, rows2, entries, n + 1, chunksOf, createdAt, attempts, insertError)
  {
    var m := n + 1;
    forall k | |rows0| <= k < |rows2|
      ensures exists j :: 0 <= j < m && j < |entries| && EntryRow(rows2[k], entries[j], chunksOf, createdAt, attempts, insertError)
    {
      if k < |rows1| {
        assert rows2[k] == rows1[k];
        var j :| 0 <= j < n && j < |entries| && EntryRow(rows1[k], entries[j], chunksOf, createdAt, attempts, insertError);
        assert j < m;
      } else {
        assert n < m && EntryRow(rows2[k], entries[n], chunksOf, createdAt, attempts, insertError);
      }
    }
    assert forall k :: |rows0| <= k < |rows2| ==>
      exists j :: 0 <= j < m && j < |entries| && EntryRow(rows2[k], entries[j], chunksOf, createdAt, attempts, insertError);
    assert RowsFromEntries(rows0, rows2, entries, m, chunksOf, createdAt, attempts, insertError);
  }

  /** A record of an entry's chunk names a regular file among the entries. */
  lemma RowsFromEntriesNamed(before: seq<Row>, after: seq<Row>, entries: seq<Entry>, n: nat,
                             chunksOf: Entry -> seq<string>, createdAt: string,
                             attempts: string -> nat -> nat -> Attempt, insertError: string -> nat -> Option<string>)
    requires RowsFromEntries(before, after, entries, n, chunksOf, createdAt, attempts, insertError)
    ensures forall k :: |before| <= k < |after| ==> HasFile(entries, after[k].filename)
  {
    forall k | |before| <= k < |after| ensures HasFile(entries, after[k].filename) {
      var j :| 0 <= j < n && j < |entries| && EntryRow(after[k], entries[j], chunksOf, createdAt, attempts, insertError);
      var c :| 0 <= c < |chunksOf(entries[j])|
               && IsChunkRow(after[k], entries[j].name, chunksOf(entries[j])[c], createdAt, attempts(entries[j].name)(c + 1));
    }
  }

  /** How many entries the loop gets through: those before the first that cannot
      be examined or read. */
  function Reached(entries: seq<Entry>): (n: nat)
    ensures n <= |entries|
    ensures forall i :: 0 <= i < n ==> entries[i].RegularFile? || entries[i].OtherEntry?
    ensures n < |entries| ==> entries[n].StatFailed? || entries[n].ReadFailed?
  {
    if |entries| == 0 then 0
    else if entries[0].StatFailed? || entries[0].ReadFailed? then 0
    else
      assert forall i :: 1 <= i < |entries| ==> entries[i] == entries[1..][i - 1];
      1 + Reached(entries[1..])
  }

  /** Of the chunks of file `name`, every one whose services succeed is stored. */
  predicate FileStored(rows: seq<Row>, name: string, content: string,
                       attempts: nat -> nat -> Attempt, insertError: nat -> Option<string>)
  {
    var chunks := SplitChunks(content, name, DefaultMaxTokens);
    Covered(rows, name, chunks, |chunks|, attempts, insertError)
  }

  /** A regular-file entry has each of its chunks whose services succeed stored;
      other entries ask nothing. */
  predicate EntryStored(rows: seq<Row>, e: Entry, chunksOf: Entry -> seq<string>,
                        attempts: string -> nat -> nat -> Attempt, insertError: string -> nat -> Option<string>)
  {
    e.RegularFile? ==> Covered(rows, e.name, chunksOf(e), |chunksOf(e)|, attempts(e.name), insertError(e.name))
  }

  /** No lookup of any file fails. */
  ghost predicate NoLookupFails(lookupFails: string -> nat -> bool)
  {
    forall f, k :: !lookupFails(f)(k)
  }

  /** Records stay where they are, so what was stored stays stored. */
  lemma CoveredGrows(rows: seq<Row>, more: seq<Row>, file: string, chunks: seq<string>, n: nat,
                     attempts: nat -> (nat -> Attempt), insertError: nat -> Option<string>)
    requires rows <= more && Covered(rows, file, chunks, n, attempts, insertError)
    ensures Covered(more, file, chunks, n, attempts, insertError)
  {
    forall c | 0 <= c < |chunks| && c < n && Succeeds(attempts(c + 1), insertError(c + 1))
      ensures StoredIn(more, chunks[c], file)
    {
      var k :| 0 <= k < |rows| && HasKey(rows[k], chunks[c], file);
      assert more[k] == rows[k];
    }
  }

  /** The first `n` entries are regular files or skipped entries. */
  predicate ExaminedBefore(entries: seq<Entry>, n: nat)
  {
    n <= |entries| && forall j :: 0 <= j < n ==> entries[j].RegularFile? || entries[j].OtherEntry?
  }

  /** The loop stops at the first entry that fails, or runs to the end. */
  lemma ReachedAt(entries: seq<Entry>, n: nat)
    requires ExaminedBefore(entries, n)
    requires n < |entries| ==> entries[n].StatFailed? || entries[n].ReadFailed?
    ensures Reached(entries) == n
  {
  }

  /** The rows after entry `e` of the loop: a regular file's chunks run in turn;
      any other entry adds nothing. */
  function EntryRows(rows: seq<Row>, nextId: int, e: Entry, chunksOf: Entry -> seq<string>, createdAt: string,
                     attempts: string -> nat -> nat -> Attempt, lookupFails: string -> nat -> bool,
                     insertError: string -> nat -> Option<string>): seq<Row>
  {
    if e.RegularFile? then
      ChunksFold(rows, nextId, e.name, chunksOf(e), 0, |chunksOf(e)|, createdAt,
                 attempts(e.name), lookupFails(e.name), insertError(e.name))
    else rows
  }

  /** The rows after the first `n` entries are run one after another from `rows`,
      with the id sequence standing at `nextId`. */
  function FilesFold(rows: seq<Row>, nextId: int, entries: seq<Entry>, n: nat, chunksOf: Entry -> seq<string>,
                     createdAt: string, attempts: string -> nat -> nat -> Attempt, lookupFails: string -> nat -> bool,
                     insertError: string -> nat -> Option<string>): seq<Row>
    requires n <= |entries|
  {
    if n == 0 then rows
    else
      var prev := FilesFold(rows, nextId, entries, n - 1, chunksOf, createdAt, attempts, lookupFails, insertError);
      EntryRows(prev, nextId + |prev| - |rows|, entries[n - 1], chunksOf, createdAt, attempts, lookupFails, insertError)
  }

  /** One more entry is one more `EntryRows`: the loop's invariant carried from
      the table `rows1`, `id1` after `i` entries to `rows2`, `id2` after entry `i`. */
  lemma FilesFoldStep(rows0: seq<Row>, id0: int, rows1: seq<Row>, id1: int, rows2: seq<Row>, id2: int,
                      entries: seq<Entry>, i: nat, chunksOf: Entry -> seq<string>, createdAt: string,
                      attempts: string -> nat -> nat -> Attempt, lookupFails: string -> nat -> bool,
                      insertError: string -> nat -> Option<string>)
    requires i < |entries|
    requires rows1 == FilesFold(rows0, id0, entries, i, chunksOf, createdAt, attempts, lookupFails, insertError)
    requires id1 == id0 + |rows1| - |rows0|
    requires rows2 == EntryRows(rows1, id1, entries[i], chunksOf, createdAt, attempts, lookupFails, insertError)
    requires id2 == id1 + |rows2| - |rows1|
    ensures rows2 == FilesFold(rows0, id0, entries, i + 1, chunksOf, createdAt, attempts, lookupFails, insertError)
    ensures id2 == id0 + |rows2| - |rows0|
  {
  }

  /** What one entry leaves behind: records appended after `rows` with new ids,
      each for a chunk of that entry whose services succeed; a regular file
      with every such chunk stored; unique keys while no lookup fails. */
  lemma EntryRowsAdds(rows: seq<Row>, nextId: int, e: Entry, chunksOf: Entry -> seq<string>, createdAt: string,
                      attempts: string -> nat -> nat -> Attempt, lookupFails: string -> nat -> bool,
                      insertError: string -> nat -> Option<string>)
    ensures AddedSince(rows, EntryRows(rows, nextId, e, chunksOf, createdAt, attempts, lookupFails, insertError), nextId)
    ensures forall k :: |rows| <= k < |EntryRows(rows, nextId, e, chunksOf, createdAt, attempts, lookupFails, insertError)| ==>
              EntryRow(EntryRows(rows, nextId, e, chunksOf, createdAt, attempts, lookupFails, insertError)[k],
                       e, chunksOf, createdAt, attempts, insertError)
    ensures EntryStored(EntryRows(rows, nextId, e, chunksOf, createdAt, attempts, lookupFails, insertError),
                        e, chunksOf, attempts, insertError)
    ensures NoLookupFails(lookupFails) && UniqueKeys(rows) ==>
              UniqueKeys(EntryRows(rows, nextId, e, chunksOf, createdAt, attempts, lookupFails, insertError))
  {
    if e.RegularFile? {
      var chunks := chunksOf(e);
      var after := EntryRows(rows, nextId, e, chunksOf, createdAt, attempts, lookupFails, insertError);
      assert Covered(rows, e.name, chunks, 0, attempts(e.name), insertError(e.name));
      ChunksFoldDone(rows, nextId, e.name, chunks, 0, |chunks|, createdAt,
                     attempts(e.name), lookupFails(e.name), insertError(e.name));
      forall k | |rows| <= k < |after| ensures EntryRow(after[k], e, chunksOf, createdAt, attempts, insertError) {
        assert ChunkRow(after[k], e.name, chunks, createdAt, attempts(e.name), insertError(e.name));
      }
      if NoLookupFails(lookupFails) {
        assert LookupsSucceed(lookupFails(e.name), 0, |chunks|);
      }
    }
  }

  /** Entry `n` keeps the provenance of the records appended since `rows0`. */
  lemma EntryAddsStep(rows0: seq<Row>, id0: nat, rows1: seq<Row>, id1: nat, entries: seq<Entry>, n: nat,
                      chunksOf: Entry -> seq<string>, createdAt: string,
                      attempts: string -> nat -> nat -> Attempt, lookupFails: string -> nat -> bool,
                      insertError: string -> nat -> Option<string>)
    requires n < |entries| && id0 <= id1
    requires AddedSince(rows0, rows1, id0) && RowsFromEntries(rows0, rows1, entries, n, chunksOf, createdAt, attempts, insertError)
    ensures var rows2 := EntryRows(rows1, id1, entries[n], chunksOf, createdAt, attempts, lookupFails, insertError);
            AddedSince(rows0, rows2, id0) && RowsFromEntries(rows0, rows2, entries, n + 1, chunksOf, createdAt, attempts, insertError)
  {
    var rows2 := EntryRows(rows1, id1, entries[n], chunksOf, createdAt, attempts, lookupFails, insertError);
    EntryRowsAdds(rows1, id1, entries[n], chunksOf, createdAt, attempts, lookupFails, insertError);
    AddedSinceTrans(rows0, rows1, rows2, id0, id1);
    RowsFromEntriesStep(rows0, rows1, rows2, entries, n, chunksOf, createdAt, attempts, insertError);
  }

  /** Entry `n` keeps every earlier regular file stored and stores its own chunks. */
  lemma EntryStoresStep(rows1: seq<Row>, id1: int, entries: seq<Entry>, n: nat,
                        chunksOf: Entry -> seq<string>, createdAt: string,
                        attempts: string -> nat -> nat -> Attempt, lookupFails: string -> nat -> bool,
                        insertError: string -> nat -> Option<string>)
    requires n < |entries|
    requires forall j :: 0 <= j < n ==> EntryStored(rows1, entries[j], chunksOf, attempts, insertError)
    ensures var rows2 := EntryRows(rows1, id1, entries[n], chunksOf, createdAt, attempts, lookupFails, insertError);
            forall j :: 0 <= j < n + 1 ==> EntryStored(rows2, entries[j], chunksOf, attempts, insertError)
  {
    var rows2 := EntryRows(rows1, id1, entries[n], chunksOf, createdAt, attempts, lookupFails, insertError);
    EntryRowsAdds(rows1, id1, entries[n], chunksOf, createdAt, attempts, lookupFails, insertError);
    forall j | 0 <= j < n + 1 ensures EntryStored(rows2, entries[j], chunksOf, attempts, insertError) {
      var e := entries[j];
      if j < n && e.RegularFile? {
        CoveredGrows(rows1, rows2, e.name, chunksOf(e), |chunksOf(e)|, attempts(e.name), insertError(e.name));
      }
    }
  }

  /** While no lookup fails, an entry keeps the keys unique. */
  lemma EntryUniqueStep(rows: seq<Row>, nextId: int, e: Entry, chunksOf: Entry -> seq<string>, createdAt: string,
                        attempts: string -> nat -> nat -> Attempt, lookupFails: string -> nat -> bool,
                        insertError: string -> nat -> Option<string>)
    requires NoLookupFails(lookupFails) && UniqueKeys(rows)
    ensures UniqueKeys(EntryRows(rows, nextId, e, chunksOf, createdAt, attempts, lookupFails, insertError))
  {
    EntryRowsAdds(rows, nextId, e, chunksOf, createdAt, attempts, lookupFails, insertError);
  }

  /** The records the first `n` entries leave behind are appended after `rows`
      with new ids, each for a chunk of one of those entries. */
  lemma {:induction false} FilesFoldAdds(rows: seq<Row>, nextId: nat, entries: seq<Entry>, n: nat,
                                         chunksOf: Entry -> seq<string>, createdAt: string,
                                         attempts: string -> nat -> nat -> Attempt, lookupFails: string -> nat -> bool,
                                         insertError: string -> nat -> Option<string>)
    requires n <= |entries|
    ensures AddedSince(rows, FilesFold(rows, nextId, entries, n, chunksOf, createdAt, attempts, lookupFails, insertError),
                       nextId)
    ensures RowsFromEntries(rows, FilesFold(rows, nextId, entries, n, chunksOf, createdAt, attempts, lookupFails, insertError),
                            entries, n, chunksOf, createdAt, attempts, insertError)
    decreases n
  {
    if n > 0 {
      FilesFoldAdds(rows, nextId, entries, n - 1, chunksOf, createdAt, attempts, lookupFails, insertError);
      var prev := FilesFold(rows, nextId, entries, n - 1, chunksOf, createdAt, attempts, lookupFails, insertError);
      EntryAddsStep(rows, nextId, prev, nextId + |prev| - |rows|, entries, n - 1,
                    chunksOf, createdAt, attempts, lookupFails, insertError);
    }
  }

  /** After the first `n` entries, each regular file among them has every chunk
      whose services succeed stored. */
  lemma {:induction false} FilesFoldStores(rows: seq<Row>, nextId: int, entries: seq<Entry>, n: nat,
                                           chunksOf: Entry -> seq<string>, createdAt: string,
                                           attempts: string -> nat -> nat -> Attempt, lookupFails: string -> nat -> bool,
                                           insertError: string -> nat -> Option<string>)
    requires n <= |entries|
    ensures forall j :: 0 <= j < n ==>
              EntryStored(FilesFold(rows, nextId, entries, n, chunksOf, createdAt, attempts, lookupFails, insertError),
                          entries[j], chunksOf, attempts, insertError)
    decreases n
  {
    if n > 0 {
      FilesFoldStores(rows, nextId, entries, n - 1, chunksOf, createdAt, attempts, lookupFails, insertError);
      var prev := FilesFold(rows, nextId, entries, n - 1, chunksOf, createdAt, attempts, lookupFails, insertError);
      EntryStoresStep(prev, nextId + |prev| - |rows|, entries, n - 1, chunksOf, createdAt, attempts, lookupFails, insertError);
    }
  }

  /** While no lookup fails, the entries keep the keys unique. */
  lemma {:induction false} FilesFoldUnique(rows: seq<Row>, nextId: int, entries: seq<Entry>, n: nat,
                                           chunksOf: Entry -> seq<string>, createdAt: string,
                                           attempts: string -> nat -> nat -> Attempt, lookupFails: string -> nat -> bool,
                                           insertError: string -> nat -> Option<string>)
    requires n <= |entries|
    requires NoLookupFails(lookupFails) && UniqueKeys(rows)
    ensures UniqueKeys(FilesFold(rows, nextId, entries, n, chunksOf, createdAt, attempts, lookupFails, insertError))
    decreases n
  {
    if n > 0 {
      FilesFoldUnique(rows, nextId, entries, n - 1, chunksOf, createdAt, attempts, lookupFails, insertError);
      var prev := FilesFold(rows, nextId, entries, n - 1, chunksOf, createdAt, attempts, lookupFails, insertError);
      EntryUniqueStep(prev, nextId + |prev| - |rows|, entries[n - 1], chunksOf, createdAt, attempts, lookupFails, insertError);
    }
  }

  /** One regular file of `processFiles`: its chunks, then its batches. */
  method ProcessFile(table: EmbeddingTable, name: string, content: string, createdAt: string,
                     attempts: nat -> nat -> Attempt, lookupFails: nat -> bool,
                     insertError: nat -> Option<string>)
    returns (events: seq<Event>)
    requires table.Valid()
    modifies table
    ensures table.Valid()
    ensures events == Schedule(name, |SplitChunks(content, name, DefaultMaxTokens)|)
    ensures table.rows == ChunksFold(old(table.rows), old(table.nextId), name, SplitChunks(content, name, DefaultMaxTokens),
                                     0, |SplitChunks(content, name, DefaultMaxTokens)|,
                                     createdAt, attempts, lookupFails, insertError)
    ensures table.nextId == old(table.nextId) + |table.rows| - |old(table.rows)|
    ensures FileRowsAdded(old(table.rows), table.rows, old(table.nextId), name,
                          SplitChunks(content, name, DefaultMaxTokens), createdAt, attempts, insertError)
    ensures old(table.nextId) <= table.nextId
    ensures FileStored(table.rows, name, content, attempts, insertError)
    ensures (LookupsSucceed(lookupFails, 0, |SplitChunks(content, name, DefaultMaxTokens)|) && UniqueKeys(old(table.rows)))
              ==> UniqueKeys(table.rows)
  {
    var chunks := SplitIntoChunks(content, name, DefaultMaxTokens);
    events := ProcessChunks(table, name, chunks, createdAt, attempts, lookupFails, insertError);
  }

  /** The schedule of the entries from `i` on, one entry at a time. */
  lemma FilesScheduleStep(entries: seq<Entry>, i: nat)
    requires i < |entries|
    ensures entries[i].RegularFile? ==>
              FilesSchedule(entries[i..]) ==
              Schedule(entries[i].name, |SplitChunks(entries[i].content, entries[i].name, DefaultMaxTokens)|)
              + FilesSchedule(entries[i + 1..])
    ensures entries[i].OtherEntry? ==> FilesSchedule(entries[i..]) == FilesSchedule(entries[i + 1..])
    ensures !entries[i].RegularFile? && !entries[i].OtherEntry? ==> FilesSchedule(entries[i..]) == []
    ensures (entries[i].RegularFile? || entries[i].OtherEntry?) ==> FirstError(entries[i..]) == FirstError(entries[i + 1..])
    ensures entries[i].StatFailed? || entries[i].ReadFailed? ==> FirstError(entries[i..]) == Some(entries[i].message)
  {
    assert entries[i..][1..] == entries[i + 1..];
  }

  /** One entry of `processFiles`' loop: process a regular file, skip anything
      else, or stop with the error of an entry that cannot be examined or read. */
  method ProcessEntry(table: EmbeddingTable, entries: seq<Entry>, i: nat, createdAt: string,
                      attempts: string -> nat -> nat -> Attempt, lookupFails: string -> nat -> bool,
                      insertError: string -> nat -> Option<string>)
    returns (error: Option<string>, events: seq<Event>)
    requires i < |entries| && table.Valid()
    modifies table
    ensures table.Valid()
    ensures error.Some? <==> entries[i].StatFailed? || entries[i].ReadFailed?
    ensures error.Some? ==> FirstError(entries[i..]) == error && FilesSchedule(entries[i..]) == []
    ensures error.None? ==> FirstError(entries[i..]) == FirstError(entries[i + 1..])
                            && FilesSchedule(entries[i..]) == events + FilesSchedule(entries[i + 1..])
    ensures table.rows == EntryRows(old(table.rows), old(table.nextId), entries[i], FileChunks, createdAt,
                                    attempts, lookupFails, insertError)
    ensures table.nextId == old(table.nextId) + |table.rows| - |old(table.rows)|
    ensures AddedSince(old(table.rows), table.rows, old(table.nextId)) && old(table.nextId) <= table.nextId
    ensures !entries[i].RegularFile? ==> table.rows == old(table.rows)
    ensures forall k :: |old(table.rows)| <= k < |table.rows| ==>
              EntryRow(table.rows[k], entries[i], FileChunks, createdAt, attempts, insertError)
    ensures error.None? ==> EntryStored(table.rows, entries[i], FileChunks, attempts, insertError)
    ensures NoLookupFails(lookupFails) && UniqueKeys(old(table.rows)) ==> UniqueKeys(table.rows)
  {
    FilesScheduleStep(entries, i);
    var entry := entries[i];
    if entry.StatFailed? || entry.ReadFailed? {
      return Some(entry.message), [];
    }
    error, events := None, [];
    if entry.RegularFile? {
      events := ProcessFile(table, entry.name, entry.content, createdAt,
                            attempts(entry.name), lookupFails(entry.name), insertError(entry.name));
    }
    EntryRowsAdds(old(table.rows), old(table.nextId), entry, FileChunks, createdAt, attempts, lookupFails, insertError);
  }

  /** What `ProcessFiles` promises about the table once the loop has stopped
      after `n` entries. */
  lemma FilesFoldDone(rows: seq<Row>, nextId: nat, entries: seq<Entry>, n: nat, createdAt: string,
                      attempts: string -> nat -> nat -> Attempt, lookupFails: string -> nat -> bool,
                      insertError: string -> nat -> Option<string>)
    requires n <= |entries|
    ensures var after := FilesFold(rows, nextId, entries, n, FileChunks, createdAt, attempts, lookupFails, insertError);
            && AddedSince(rows, after, nextId)
            && RowsFromEntries(rows, after, entries, n, FileChunks, createdAt, attempts, insertError)
            && (forall j :: 0 <= j < n ==> EntryStored(after, entries[j], FileChunks, attempts, insertError))
            && (NoLookupFails(lookupFails) && UniqueKeys(rows) ==> UniqueKeys(after))
  {
    FilesFoldAdds(rows, nextId, entries, n, FileChunks, createdAt, attempts, lookupFails, insertError);
    FilesFoldStores(rows, nextId, entries, n, FileChunks, createdAt, attempts, lookupFails, insertError);
    if NoLookupFails(lookupFails) && UniqueKeys(rows) {
      FilesFoldUnique(rows, nextId, entries, n, FileChunks, createdAt, attempts, lookupFails, insertError);
    }
  }

  /** `processFiles(directoryPath)`. The services' answers for chunk number `k` of
      file `f` are `attempts(f)(k)`, `lookupFails(f)(k)` and `insertError(f)(k)`;
      every record is stamped `createdAt`. The table only grows; every regular
      file the loop reaches has each chunk whose services succeed stored. */
  method ProcessFiles(table: EmbeddingTable, listing: Listing, createdAt: string,
                      attempts: string -> nat -> nat -> Attempt, lookupFails: string -> nat -> bool,
                      insertError: string -> nat -> Option<string>)
    returns (error: Option<string>, events: seq<Event>)
    requires table.Valid()
    modifies table
    ensures table.Valid()
    ensures listing.ListFailed? ==> error == Some(listing.message) && events == [] && table.rows == old(table.rows)
    ensures listing.Listed? ==> error == FirstError(listing.entries) && events == FilesSchedule(listing.entries)
    ensures listing.Listed? ==>
              table.rows == FilesFold(old(table.rows), old(table.nextId), listing.entries, Reached(listing.entries),
                                      FileChunks, createdAt, attempts, lookupFails, insertError)
    ensures table.nextId == old(table.nextId) + |table.rows| - |old(table.rows)|
    ensures AddedSince(old(table.rows), table.rows, old(table.nextId)) && old(table.nextId) <= table.nextId
    ensures listing.Listed? ==>
              RowsFromEntries(old(table.rows), table.rows, listing.entries, Reached(listing.entries),
                              FileChunks, createdAt, attempts, insertError)
    ensures listing.Listed? ==>
              forall i :: 0 <= i < Reached(listing.entries) ==>
                EntryStored(table.rows, listing.entries[i], FileChunks, attempts, insertError)
    ensures NoLookupFails(lookupFails) && UniqueKeys(old(table.rows)) ==> UniqueKeys(table.rows)
  {
    if listing.ListFailed? {
      return Some(listing.message), [];
    }
    var entries := listing.entries;
    events := [];
    var i := 0;
    while i < |entries|
      invariant i <= |entries| && table.Valid()
      invariant events + FilesSchedule(entries[i..]) == FilesSchedule(entries)
      invariant FirstError(entries[i..]) == FirstError(entries)
      invariant table.rows == FilesFold(old(table.rows), old(table.nextId), entries, i,
                                        FileChunks, createdAt, attempts, lookupFails, insertError)
      invariant table.nextId == old(table.nextId) + |table.rows| - |old(table.rows)|
      invariant ExaminedBefore(entries, i)
    {
      ghost var before, beforeNext := table.rows, table.nextId;
      var stop, entryEvents := ProcessEntry(table, entries, i, createdAt, attempts, lookupFails, insertError);
      FilesFoldStep(old(table.rows), old(table.nextId), before, beforeNext, table.rows, table.nextId,
                    entries, i, FileChunks, createdAt, attempts, lookupFails, insertError);
      if stop.Some? {
        assert events == FilesSchedule(entries);
        ReachedAt(entries, i);
        FilesFoldDone(old(table.rows), old(table.nextId), entries, i, createdAt, attempts, lookupFails, insertError);
        return stop, events;
      }
      AppendAssoc(events, entryEvents, FilesSchedule(entries[i + 1..]));
      events := events + entryEvents;
      i := i + 1;
    }
    assert entries[i..] == [];
    ReachedAt(entries, i);
    FilesFoldDone(old(table.rows), old(table.nextId), entries, i, createdAt, attempts, lookupFails, insertError);
    error := None;
  }
}
