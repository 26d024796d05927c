/**
 * The aggregation chunker: it forwards a stream of records to a sequence of
 * chunk writers, rotating to a new writer when the current chunk is full,
 * and records the first item, the last item and the count of every chunk.
 */
module AggregationChunkers {
  import opened Base

  /** The record of a saved chunk: its id, the keys of its first and last item, and its item count. */
  datatype NewChunk<K> = NewChunk(id: int, minKey: K, maxKey: K, count: int)

  /** The record of one chunk's items, or nothing for an empty chunk. */
  function RecordOf<T, K>(keyOf: T -> K, id: int, items: seq<T>): (r: seq<NewChunk<K>>)
    ensures |r| == if items == [] then 0 else 1
    ensures items != [] ==> r[0].id == id && r[0].count == |items|
    ensures items != [] ==> r[0].minKey == keyOf(items[0]) && r[0].maxKey == keyOf(items[|items| - 1])
  {
    if items == [] then [] else [NewChunk(id, keyOf(items[0]), keyOf(items[|items| - 1]), |items|)]
  }

  /** The records of a sequence of chunks, with their ids, skipping empty chunks. */
  function Records<T, K>(keyOf: T -> K, ids: seq<int>, written: seq<seq<T>>): seq<NewChunk<K>>
    requires |ids| == |written|
  {
    if written == [] then []
    else
      var n := |written| - 1;
      Records(keyOf, ids[..n], written[..n]) + RecordOf(keyOf, ids[n], written[n])
  }

  function TotalCount<K>(chunks: seq<NewChunk<K>>): int {
    if chunks == [] then 0 else TotalCount(chunks[..|chunks| - 1]) + chunks[|chunks| - 1].count
  }

  lemma {:induction false} TotalCountAppend<K>(a: seq<NewChunk<K>>, b: seq<NewChunk<K>>)
    ensures TotalCount(a + b) == TotalCount(a) + TotalCount(b)
    decreases |b|
  {
    if b == [] {
      assert a + b == a;
    } else {
      assert (a + b)[..|a + b| - 1] == a + b[..|b| - 1];
      TotalCountAppend(a, b[..|b| - 1]);
    }
  }

  /** The chunk records count every item written: their counts add up to the items of all chunks. */
  lemma {:induction false} RecordsCount<T, K>(keyOf: T -> K, ids: seq<int>, written: seq<seq<T>>)
    requires |ids| == |written|
    ensures TotalCount(Records(keyOf, ids, written)) == |Flatten(written)|
  {
    if written != [] {
      var n := |written| - 1;
      RecordsCount(keyOf, ids[..n], written[..n]);
      TotalCountAppend(Records(keyOf, ids[..n], written[..n]), RecordOf(keyOf, ids[n], written[n]));
      RecordCount(keyOf, ids[n], written[n]);
      FlattenLast(written);
    }
  }

  /** A chunk's record counts its items. */
  lemma RecordCount<T, K>(keyOf: T -> K, id: int, items: seq<T>)
    ensures TotalCount(RecordOf(keyOf, id, items)) == |items|
  {
    if items != [] {
      assert RecordOf(keyOf, id, items)[..0] == [];
    }
  }

  /** The items of all chunks are those of all but the last, then the last's. */
  lemma FlattenLast<T>(written: seq<seq<T>>)
    requires written != []
    ensures Flatten(written) == Flatten(written[..|written| - 1]) + written[|written| - 1]
  {
    var n := |written| - 1;
    assert written == written[..n] + [written[n]];
    FlattenAppend(written[..n], [written[n]]);
    assert Flatten([written[n]]) == written[n] + Flatten([]);
  }

  /** Adding an item to the last chunk adds it at the end of all the items written. */
  lemma FlattenSnoc<T>(written: seq<seq<T>>, item: T)
    requires written != []
    ensures var n := |written| - 1;
            Flatten(written[n := written[n] + [item]]) == Flatten(written) + [item]
  {
    var n := |written| - 1;
    var w' := written[n := written[n] + [item]];
    assert written == written[..n] + [written[n]];
    assert w' == written[..n] + [written[n] + [item]];
    FlattenAppend(written[..n], [written[n]]);
    FlattenAppend(written[..n], [written[n] + [item]]);
    assert Flatten([written[n]]) == written[n] + Flatten([]);
    assert Flatten([written[n] + [item]]) == (written[n] + [item]) + Flatten([]);
  }

  /** Starting a new, empty chunk adds nothing to the items written. */
  lemma FlattenEmptyChunk<T>(written: seq<seq<T>>)
    ensures Flatten(written + [[]]) == Flatten(written)
  {
    var empty: seq<seq<T>> := [[]];
    FlattenAppend(written, empty);
    assert Flatten(empty) == [] + Flatten(empty[1..]);
  }

  /**
   * The chunker's invariant over its field values: `first` and `last` are the
   * current chunk's first and latest item and `count` its size; every earlier
   * chunk holds `chunkSize + 1` items and was ended; every non-empty chunk
   * that was closed has its record, in order; the writers together received
   * every item, in order; and the pending count is the number of writers not
   * yet completed.
   */
  ghost predicate CoreOf<T, K>(keyOf: T -> K, chunkSize: int, newId: int, first: Option<T>, last: Option<T>, count: int,
                               written: seq<seq<T>>, ids: seq<int>, chunks: seq<NewChunk<K>>, endsSent: int,
                               received: seq<T>, ended: bool, completed: int, pendingChunks: int)
  {
    && written != [] && |ids| == |written| && newId == ids[|ids| - 1]
    && var current := written[|written| - 1];
    && count == |current|
    && first == (if current == [] then None else Some(current[0]))
    && last == (if current == [] then None else Some(current[|current| - 1]))
    && (forall i :: 0 <= i < |written| - 1 ==> |written[i]| == chunkSize + 1)
    && chunks == Records(keyOf, ids[..|ids| - 1], written[..|written| - 1])
                 + (if ended then RecordOf(keyOf, newId, current) else [])
    && endsSent == |written| - 1 + (if ended then 1 else 0)
    && Flatten(written) == received
    && completed <= |written| && pendingChunks == |written| - completed
  }

  /** Adding an item to the open chunk keeps the invariant: the item becomes the chunk's last, and its first if it was empty. */
  lemma AddItemCore<T, K>(keyOf: T -> K, chunkSize: int, newId: int, first: Option<T>, last: Option<T>, count: int,
                          written: seq<seq<T>>, ids: seq<int>, chunks: seq<NewChunk<K>>, endsSent: int,
                          received: seq<T>, completed: int, pendingChunks: int, item: T)
    requires CoreOf(keyOf, chunkSize, newId, first, last, count, written, ids, chunks, endsSent, received, false, completed, pendingChunks)
    ensures var n := |written| - 1;
            CoreOf(keyOf, chunkSize, newId, if first.None? then Some(item) else first, Some(item), count + 1,
                   written[n := written[n] + [item]], ids, chunks, endsSent, received + [item], false, completed, pendingChunks)
  {
    var n := |written| - 1;
    var w := written[n := written[n] + [item]];
    assert w[..n] == written[..n];
    FlattenSnoc(written, item);
  }

  /** Saving a full chunk's record, ending its writer and opening an empty chunk with a new id keeps the invariant. */
  lemma RotateCore<T, K>(keyOf: T -> K, chunkSize: int, newId: int, first: Option<T>, last: Option<T>, count: int,
                         written: seq<seq<T>>, ids: seq<int>, chunks: seq<NewChunk<K>>, endsSent: int,
                         received: seq<T>, completed: int, pendingChunks: int, id: int)
    requires CoreOf(keyOf, chunkSize, newId, first, last, count, written, ids, chunks, endsSent, received, false, completed, pendingChunks)
    requires count == chunkSize + 1
    ensures count != 0 ==> first.Some? && last.Some?
    ensures var saved := if count != 0 then chunks + [NewChunk(newId, keyOf(first.value), keyOf(last.value), count)] else chunks;
            && saved == chunks + RecordOf(keyOf, newId, written[|written| - 1])
            && CoreOf(keyOf, chunkSize, id, None, None, 0, written + [[]], ids + [id], saved, endsSent + 1,
                      received, false, completed, pendingChunks + 1)
  {
    assert (written + [[]])[..|written|] == written;
    assert (ids + [id])[..|ids|] == ids;
    FlattenEmptyChunk(written);
  }

  class Chunker<T, K> {
    const keyOf: T -> K
    const chunkSize: int
    var newId: int
    var first: Option<T>
    var last: Option<T>
    var count: int
    var pendingChunks: int
    var chunks: seq<NewChunk<K>>
    /** What each chunk writer received, oldest first; the last one is the current writer. */
    var written: seq<seq<T>>
    /** The ids the chunk writers were opened with. */
    var ids: seq<int>
    /** How many chunk writers were sent end-of-stream. */
    var endsSent: nat
    /** The lists passed to the chunks callback, one per call. */
    var results: seq<seq<NewChunk<K>>>
    var ended: bool
    ghost var received: seq<T>
    ghost var completed: nat

    function Current(): seq<T>
      requires written != []
      reads this
    {
      written[|written| - 1]
    }

    /** `CoreOf` on the fields, and the current chunk holds at most `chunkSize` items. */
    ghost predicate Valid()
      reads this
    {
      Core() && (chunkSize >= 0 ==> count <= chunkSize)
    }

    /** All of `Valid` but the bound on the current chunk, which holds again once a full chunk is rotated. */
    ghost predicate Core()
      reads this
    {
      CoreOf(keyOf, chunkSize, newId, first, last, count, written, ids, chunks, endsSent, received, ended, completed, pendingChunks)
    }

    /** The constructor starts exactly one chunk, with the id the metadata storage hands out. */
    constructor (keyOf: T -> K, chunkSize: int, id: int)
      ensures Valid() && !ended
      ensures this.keyOf == keyOf && this.chunkSize == chunkSize
      ensures written == [[]] && ids == [id] && chunks == [] && pendingChunks == 1 && results == []
    {
      this.keyOf := keyOf;
      this.chunkSize := chunkSize;
      newId := id;
      first := None;
      last := None;
      count := 0;
      pendingChunks := 1;
      chunks := [];
      written := [[]];
      ids := [id];
      endsSent := 0;
      results := [];
      ended := false;
      received := [];
      completed := 0;
    }

    /**
     * `startNewChunk`: takes the id, resets first, last and count, counts one
     * more pending chunk and switches to a new chunk writer.
     */
    method StartNewChunk(id: int)
      modifies this
      ensures newId == id && first == None && last == None && count == 0
      ensures pendingChunks == old(pendingChunks) + 1
      ensures written == old(written) + [[]] && ids == old(ids) + [id]
      ensures unchanged(this`chunks, this`endsSent, this`results, this`ended, this`received, this`completed)
    {
      newId := id;
      first := None;
      last := None;
      count := 0;
      pendingChunks := pendingChunks + 1;
      written := written + [[]];
      ids := ids + [id];
    }

    /** `saveChunk`: appends the current chunk's record, unless the chunk is empty. */
    method SaveChunk()
      requires count != 0 ==> first.Some? && last.Some?
      modifies this`chunks
      ensures count != 0 ==> chunks == old(chunks) + [NewChunk(newId, keyOf(first.value), keyOf(last.value), count)]
      ensures count == 0 ==> chunks == old(chunks)
    {
      if count != 0 {
        chunks := chunks + [NewChunk(newId, keyOf(first.value), keyOf(last.value), count)];
      }
    }

    /** `onData`: the item goes to the current writer; when the count before it was `chunkSize`, the chunk rotates. */
    method OnData(item: T, id: int)
      requires Valid() && !ended
      modifies this
      ensures Valid() && !ended
      ensures received == old(received) + [item]
      ensures var filled := old(written)[|old(written)| - 1 := old(Current()) + [item]];
              if old(count) == chunkSize then
                && written == filled + [[]] && ids == old(ids) + [id] && endsSent == old(endsSent) + 1
                && chunks == old(chunks) + [NewChunk(old(newId), keyOf(filled[|filled| - 1][0]), keyOf(item), chunkSize + 1)]
                && pendingChunks == old(pendingChunks) + 1
              else
                written == filled && unchanged(this`ids, this`chunks, this`endsSent, this`pendingChunks)
      ensures unchanged(this`results, this`completed)
    {
      var before := count;
      AddItem(item);
      if before == chunkSize {
        RotateChunk(id);
      }
    }

    /** The part of `onData` before the size check: `first`, `last`, forwarding and the count. */
    method AddItem(item: T)
      requires Valid() && !ended
      modifies this
      ensures Core() && !ended
      ensures count == old(count) + 1
      ensures written == old(written)[|old(written)| - 1 := old(Current()) + [item]]
      ensures received == old(received) + [item]
      ensures unchanged(this`ids, this`chunks, this`endsSent, this`results, this`newId, this`pendingChunks, this`completed)
    {
      var n := |written| - 1;
      AddItemCore(keyOf, chunkSize, newId, first, last, count, written, ids, chunks, endsSent, received, completed, pendingChunks, item);
      if first.None? {
        first := Some(item);
      }
      last := Some(item);
      written := written[n := written[n] + [item]];
      received := received + [item];
      count := count + 1;
    }

    /** `rotateChunk`: saves the full chunk, sends end-of-stream to its writer and starts a new chunk. */
    method RotateChunk(id: int)
      requires Core() && !ended && count == chunkSize + 1
      modifies this
      ensures Valid() && !ended
      ensures written == old(written) + [[]] && ids == old(ids) + [id] && endsSent == old(endsSent) + 1
      ensures chunks == old(chunks) + RecordOf(keyOf, old(newId), old(Current()))
      ensures pendingChunks == old(pendingChunks) + 1
      ensures unchanged(this`received, this`results, this`completed)
    {
      RotateCore(keyOf, chunkSize, newId, first, last, count, written, ids, chunks, endsSent, received, completed, pendingChunks, id);
      ghost var saved := chunks + RecordOf(keyOf, newId, Current());
      SaveChunk();
      assert chunks == saved;
      endsSent := endsSent + 1;
      StartNewChunk(id);
    }

    /** `onEndOfStream`: end-of-stream goes to the current writer, and the trailing chunk is saved if it has items. */
    method OnEndOfStream()
      requires Valid() && !ended
      modifies this
      ensures Valid() && ended
      ensures chunks == Records(keyOf, ids, written)
      ensures unchanged(this`written, this`ids, this`results, this`pendingChunks, this`completed)
    {
      ghost var trailing := RecordOf(keyOf, newId, Current());
      assert count != 0 ==> trailing == [NewChunk(newId, keyOf(first.value), keyOf(last.value), count)];
      ended := true;
      endsSent := endsSent + 1;
      SaveChunk();
      assert chunks == old(chunks) + trailing;
    }

    /**
     * A chunk writer's completion: the callback gets the chunk list exactly
     * when this makes the pending count zero. Only a writer that has been
     * sent its end of stream completes, so before the input ends the open
     * writer is not among those that can.
     */
    method OnChunkComplete()
      requires Valid() && completed < |written| - (if ended then 0 else 1)
      modifies this
      ensures Valid()
      ensures pendingChunks == old(pendingChunks) - 1
      ensures results == old(results) + (if pendingChunks == 0 then [chunks] else [])
      ensures pendingChunks == 0 <==> completed == |written|
      ensures unchanged(this`chunks, this`written, this`ids, this`ended)
    {
      completed := completed + 1;
      pendingChunks := pendingChunks - 1;
      if pendingChunks == 0 {
        results := results + [chunks];
      }
    }

    /** After end-of-stream the records' counts add up to the number of items received. */
    lemma RecordsCountReceived()
      requires Valid() && ended
      ensures TotalCount(chunks) == |received|
    {
      assert ids == ids[..|ids| - 1] + [newId];
      assert written == written[..|written| - 1] + [Current()];
      RecordsCount(keyOf, ids, written);
    }
  }
}
