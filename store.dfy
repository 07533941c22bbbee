/** The `embeddings` table and the three ways the server changes it:
    `storeEmbedding`'s insert-or-skip, and the two deletes of the reprocess and
    clear-embeddings routes. The database is a class whose rows the methods
    reassign; whether a request to it fails is an oracle argument. */
module Store {
  import opened Text
  import opened Embedding

  /** The `id` column: a serial number, or SQL NULL. */
  datatype RowId = NullId | Id(value: int)

  datatype Metadata = Metadata(chunkLength: nat, createdAt: string, embeddingModel: string)

  datatype Row = Row(id: RowId, content: string, embedding: Vector, filename: string, metadata: Metadata)

  /** What `storeEmbedding` does: return the id of the one record already stored
      for the chunk, insert a new one, or throw the insert's error. */
  datatype Stored = Existing(id: RowId) | Inserted | InsertFailed(message: string)

  /** A record for the chunk `content` of file `filename`. */
  predicate HasKey(row: Row, content: string, filename: string)
  {
    row.content == content && row.filename == filename
  }

  /** The records `.eq('content', content).eq('filename', filename)` selects, in
      table order. */
  function Matches(rows: seq<Row>, content: string, filename: string): (ms: seq<Row>)
    ensures forall row :: row in ms <==> row in rows && HasKey(row, content, filename)
    ensures |ms| <= |rows|
    ensures (forall k :: 0 <= k < |rows| ==> !HasKey(rows[k], content, filename)) ==> ms == []
  {
    if |rows| == 0 then []
    else
      var init := Matches(rows[..|rows| - 1], content, filename);
      var last := rows[|rows| - 1];
      assert rows == rows[..|rows| - 1] + [last];
      if HasKey(last, content, filename) then init + [last] else init
  }

  /** `ms` is the records of `rows` at the indices `idx`, which are, in increasing
      order, exactly the indices of the records that hold the chunk. */
  predicate SelectedAt(rows: seq<Row>, content: string, filename: string, ms: seq<Row>, idx: seq<nat>)
  {
    && |idx| == |ms|
    && (forall i :: 0 <= i < |idx| ==> idx[i] < |rows| && ms[i] == rows[idx[i]])
    && (forall i, j :: 0 <= i < j < |idx| ==> idx[i] < idx[j])
    && (forall k :: 0 <= k < |rows| ==> (HasKey(rows[k], content, filename) <==> k in idx))
  }

  /** What the lookup selects is exactly the matching records, each once and in
      table order. */
  lemma {:induction false} MatchesInOrder(rows: seq<Row>, content: string, filename: string) returns (idx: seq<nat>)
    ensures SelectedAt(rows, content, filename, Matches(rows, content, filename), idx)
  {
    if |rows| == 0 {
      idx := [];
    } else {
      var n := |rows| - 1;
      var init := rows[..n];
      var idx0 := MatchesInOrder(init, content, filename);
      assert rows == init + [rows[n]];
      SelectedExtend(init, rows[n], content, filename, Matches(init, content, filename), idx0);
      idx := if HasKey(rows[n], content, filename) then idx0 + [n] else idx0;
    }
  }

  /** One more record extends the selection when it holds the chunk. */
  lemma SelectedExtend(init: seq<Row>, last: Row, content: string, filename: string, ms: seq<Row>, idx: seq<nat>)
    requires SelectedAt(init, content, filename, ms, idx)
    ensures HasKey(last, content, filename) ==>
              SelectedAt(init + [last], content, filename, ms + [last], idx + [|init|])
    ensures !HasKey(last, content, filename) ==> SelectedAt(init + [last], content, filename, ms, idx)
  {
    var rows := init + [last];
    assert forall k :: 0 <= k < |init| ==> rows[k] == init[k];
    if HasKey(last, content, filename) {
      var idx' := idx + [|init|];
      assert forall i :: 0 <= i < |idx| ==> idx'[i] == idx[i];
      assert forall k :: k in idx' <==> k in idx || k == |init|;
    }
  }

  /** No two records for the same chunk of the same file: no record repeats the
      key of one before it. */
  predicate UniqueKeys(rows: seq<Row>)
  {
    forall j :: 0 <= j < |rows| ==> KeyNotBefore(rows, j)
  }

  /** No record before the `j`-th has its key. */
  predicate KeyNotBefore(rows: seq<Row>, j: nat)
    requires j < |rows|
  {
    forall i :: 0 <= i < j ==> !HasKey(rows[i], rows[j].content, rows[j].filename)
  }

  /** What is left after `.delete().not('id', 'is', null)`: the rows whose id is NULL. */
  function NullIdRows(rows: seq<Row>): (kept: seq<Row>)
    ensures forall row :: row in kept <==> row in rows && row.id == NullId
    ensures |kept| <= |rows|
  {
    if |rows| == 0 then []
    else
      var init := NullIdRows(rows[..|rows| - 1]);
      var last := rows[|rows| - 1];
      assert rows == rows[..|rows| - 1] + [last];
      if last.id == NullId then init + [last] else init
  }

  /** What is left after `.delete().neq('id', 0)`: the rows whose id is 0, and
      those whose id is NULL, for which SQL's `id <> 0` is not true. */
  function ZeroOrNullIdRows(rows: seq<Row>): (kept: seq<Row>)
    ensures forall row :: row in kept <==> row in rows && (row.id == NullId || row.id == Id(0))
    ensures |kept| <= |rows|
  {
    if |rows| == 0 then []
    else
      var init := ZeroOrNullIdRows(rows[..|rows| - 1]);
      var last := rows[|rows| - 1];
      assert rows == rows[..|rows| - 1] + [last];
      if last.id == NullId || last.id == Id(0) then init + [last] else init
  }

  /** The delete of `/api/reprocess` is a filter: it works row by row and keeps
      the survivors in table order, each as often as it occurs. */
  lemma {:induction false} NullIdRowsAppend(a: seq<Row>, b: seq<Row>)
    ensures NullIdRows(a + b) == NullIdRows(a) + NullIdRows(b)
    decreases |b|
  {
    if |b| > 0 {
      var init := b[..|b| - 1];
      assert (a + b)[..|a + b| - 1] == a + init;
      assert (a + b)[|a + b| - 1] == b[|b| - 1];
      NullIdRowsAppend(a, init);
    } else {
      assert a + b == a;
    }
  }

  /** The delete of `/api/clear-embeddings` is a filter in the same sense. */
  lemma {:induction false} ZeroOrNullIdRowsAppend(a: seq<Row>, b: seq<Row>)
    ensures ZeroOrNullIdRows(a + b) == ZeroOrNullIdRows(a) + ZeroOrNullIdRows(b)
    decreases |b|
  {
    if |b| > 0 {
      var init := b[..|b| - 1];
      assert (a + b)[..|a + b| - 1] == a + init;
      assert (a + b)[|a + b| - 1] == b[|b| - 1];
      ZeroOrNullIdRowsAppend(a, init);
    } else {
      assert a + b == a;
    }
  }

  /** `after` is `before` with records appended, each drawn from the id sequence
      once it stood at `firstId` or later. */
  predicate AddedSince(before: seq<Row>, after: seq<Row>, firstId: int)
  {
    before <= after && forall k :: |before| <= k < |after| ==> after[k].id.Id? && after[k].id.value >= firstId
  }

  /** Two rounds of appending are one. */
  lemma AddedSinceTrans(rows0: seq<Row>, rows1: seq<Row>, rows2: seq<Row>, id0: int, id1: int)
    requires AddedSince(rows0, rows1, id0) && AddedSince(rows1, rows2, id1) && id0 <= id1
    ensures AddedSince(rows0, rows2, id0)
  {
    forall k | |rows0| <= k < |rows2| ensures rows2[k].id.Id? && rows2[k].id.value >= id0 {
      if k < |rows1| {
        assert rows2[k] == rows1[k];
      }
    }
  }

  class EmbeddingTable {
    var rows: seq<Row>
    /** The next value of the `id` column's sequence. */
    var nextId: int

    /** Every id was drawn from the sequence, which starts at 1. */
    predicate Valid()
      reads this
    {
      && 1 <= nextId
      && forall row :: row in rows ==> row.id.Id? && 1 <= row.id.value < nextId
    }

    constructor ()
      ensures rows == [] && nextId == 1 && Valid()
    {
      rows := [];
      nextId := 1;
    }

    /** `storeEmbedding({content, embedding, filename})` at time `createdAt`.
        The lookup uses `maybeSingle`, which yields a record only when exactly one
        matches (more than one is an error); an error of the lookup, reported as
        `lookupFails`, is ignored and the record inserted. An insert error,
        reported as `insertError`, is rethrown and changes nothing. */
    method StoreEmbedding(content: string, embedding: Vector, filename: string, createdAt: string,
                          lookupFails: bool, insertError: Option<string>)
      returns (r: Stored)
      requires Valid()
      modifies this
      ensures Valid()
      ensures !lookupFails && |Matches(old(rows), content, filename)| == 1 ==>
                r == Existing(Matches(old(rows), content, filename)[0].id)
                && rows == old(rows) && nextId == old(nextId)
      ensures (lookupFails || |Matches(old(rows), content, filename)| != 1) && insertError.Some? ==>
                r == InsertFailed(insertError.value) && rows == old(rows) && nextId == old(nextId)
      ensures (lookupFails || |Matches(old(rows), content, filename)| != 1) && insertError.None? ==>
                r == Inserted && nextId == old(nextId) + 1
                && rows == old(rows) + [Row(Id(old(nextId)), content, embedding, filename,
                                            Metadata(|content|, createdAt, EmbeddingModel))]
      ensures !lookupFails && UniqueKeys(old(rows)) ==> UniqueKeys(rows)
    {
      var existing: Option<Row> := None;
      if !lookupFails {
        var found := Matches(rows, content, filename);
        if |found| == 1 {
          existing := Some(found[0]);
        }
      }
      if existing.Some? {
        return Existing(existing.value.id);
      }
      if insertError.Some? {
        return InsertFailed(insertError.value);
      }
      var row := Row(Id(nextId), content, embedding, filename, Metadata(|content|, createdAt, EmbeddingModel));
      if !lookupFails && UniqueKeys(rows) {
        UniqueAtMostOne(rows, content, filename);
        AppendNewKey(rows, row);
      }
      rows := rows + [row];
      nextId := nextId + 1;
      r := Inserted;
    }

    /** The reprocess route's clear. */
    method DeleteWhereIdNotNull(failure: Option<string>) returns (error: Option<string>)
      requires Valid()
      modifies this
      ensures Valid() && nextId == old(nextId)
      ensures failure.Some? ==> error == failure && rows == old(rows)
      ensures failure.None? ==> error == None && rows == NullIdRows(old(rows))
    {
      if failure.Some? {
        return failure;
      }
      rows := NullIdRows(rows);
      error := None;
    }

    /** The clear-embeddings route's delete. */
    method DeleteWhereIdNotZero(failure: Option<string>) returns (error: Option<string>)
      requires Valid()
      modifies this
      ensures Valid() && nextId == old(nextId)
      ensures failure.Some? ==> error == failure && rows == old(rows)
      ensures failure.None? ==> error == None && rows == ZeroOrNullIdRows(old(rows))
    {
      if failure.Some? {
        return failure;
      }
      rows := ZeroOrNullIdRows(rows);
      error := None;
    }
  }

  /** With no duplicate keys a lookup finds at most one record. */
  lemma {:induction false} UniqueAtMostOne(rows: seq<Row>, content: string, filename: string)
    requires UniqueKeys(rows)
    ensures |Matches(rows, content, filename)| <= 1
    ensures |Matches(rows, content, filename)| == 0 ==> forall row :: row in rows ==> !HasKey(row, content, filename)
  {
    if |rows| > 0 {
      var init := rows[..|rows| - 1];
      var last := rows[|rows| - 1];
      UniqueInit(rows);
      UniqueAtMostOne(init, content, filename);
      if HasKey(last, content, filename) {
        assert KeyNotBefore(rows, |rows| - 1);
        forall k | 0 <= k < |init| ensures !HasKey(init[k], content, filename) {
          assert rows[k] == init[k];
        }
      }
      assert rows == init + [last];
    }
  }

  lemma UniqueInit(rows: seq<Row>)
    requires UniqueKeys(rows) && |rows| > 0
    ensures UniqueKeys(rows[..|rows| - 1])
  {
    var init := rows[..|rows| - 1];
    forall j | 0 <= j < |init| ensures KeyNotBefore(init, j) {
      assert KeyNotBefore(rows, j);
      forall i | 0 <= i < j ensures !HasKey(init[i], init[j].content, init[j].filename) {
        assert init[i] == rows[i] && init[j] == rows[j];
      }
    }
  }

  /** Appending a record for a chunk not yet stored keeps the keys unique. */
  lemma AppendNewKey(rows: seq<Row>, row: Row)
    requires UniqueKeys(rows)
    requires forall r :: r in rows ==> !HasKey(r, row.content, row.filename)
    ensures UniqueKeys(rows + [row])
  {
    var all := rows + [row];
    forall j | 0 <= j < |all| ensures KeyNotBefore(all, j) {
      forall i | 0 <= i < j ensures !HasKey(all[i], all[j].content, all[j].filename) {
        assert all[i] == rows[i];
        if j == |rows| {
          assert rows[i] in rows;
        } else {
          assert all[j] == rows[j] && KeyNotBefore(rows, j);
        }
      }
    }
  }

  /** After a record for a chunk not yet stored is inserted, a second
      `storeEmbedding` of the same chunk finds exactly that record and skips. */
  lemma {:induction false} SecondStoreFindsFirst(rows: seq<Row>, row: Row)
    requires forall k :: 0 <= k < |rows| ==> !HasKey(rows[k], row.content, row.filename)
    ensures Matches(rows + [row], row.content, row.filename) == [row]
  {
    assert (rows + [row])[..|rows|] == rows;
  }

  /** Both deletes empty a table whose ids all came from the sequence; neither
      would remove a row whose id is NULL. */
  lemma {:induction false} ClearsSerialIds(rows: seq<Row>)
    requires forall k :: 0 <= k < |rows| ==> rows[k].id.Id? && rows[k].id.value >= 1
    ensures NullIdRows(rows) == [] && ZeroOrNullIdRows(rows) == []
  {
    if |rows| > 0 {
      ClearsSerialIds(rows[..|rows| - 1]);
    }
  }

  /** The two deletes differ only on rows whose id is 0. */
  lemma {:induction false} DeletesAgreeWithoutZero(rows: seq<Row>)
    requires forall k :: 0 <= k < |rows| ==> rows[k].id != Id(0)
    ensures NullIdRows(rows) == ZeroOrNullIdRows(rows)
  {
    if |rows| > 0 {
      DeletesAgreeWithoutZero(rows[..|rows| - 1]);
    }
  }
}
