/**
 * The aggregation group reducer: it groups records by key into a hash map
 * of accumulators, and whenever the map holds `chunkSize` keys, or the
 * upstream has ended, it writes the map out as one chunk sorted by key,
 * suspending the upstream while a chunk is being saved.
 */
module AggregationGroupReducers {
  import opened Base
  import opened StreamStatus

  /** A map entry: a key and its accumulator. */
  datatype Entry<A> = Entry(key: int, value: A)

  /** The record of a saved chunk: its id, the keys of its first and last entry, and its entry count. */
  datatype NewChunk<P> = NewChunk(id: int, minKey: P, maxKey: P, count: int)

  /** The aggregate: a fresh accumulator made from a first item, and the fold of a later item. */
  datatype Aggregate<!T, !A> = Aggregate(createAccumulator: T -> A, accumulate: (A, T) -> A)

  /** `onData`'s map update: an existing key folds the item in, a new key stores an accumulator made from it. */
  function GroupItem<T, A>(key: T -> int, agg: Aggregate<T, A>, m: map<int, A>, item: T): (r: map<int, A>)
    ensures r.Keys == m.Keys + {key(item)}
    ensures forall k :: k in m && k != key(item) ==> r[k] == m[k]
  {
    var k := key(item);
    if k in m then m[k := agg.accumulate(m[k], item)] else m[k := agg.createAccumulator(item)]
  }

  /** The map after grouping `items`, from an empty map. */
  function GroupAll<T, A>(key: T -> int, agg: Aggregate<T, A>, items: seq<T>): map<int, A> {
    if items == [] then map[] else GroupItem(key, agg, GroupAll(key, agg, items[..|items| - 1]), items[|items| - 1])
  }

  /** The fold of `items`, in order, into `acc`. */
  function Fold<T, A>(agg: Aggregate<T, A>, acc: A, items: seq<T>): A {
    if items == [] then acc else agg.accumulate(Fold(agg, acc, items[..|items| - 1]), items[|items| - 1])
  }

  /** The map has an entry for exactly the keys seen since it was last cleared. */
  lemma {:induction false} GroupAllKeys<T, A>(key: T -> int, agg: Aggregate<T, A>, items: seq<T>)
    ensures GroupAll(key, agg, items).Keys == KeysOf(key, items)
  {
    if items != [] {
      GroupAllKeys(key, agg, items[..|items| - 1]);
      KeysOfSnoc(key, items);
    }
  }

  lemma {:induction false} GroupUnseenKey<T, A>(key: T -> int, agg: Aggregate<T, A>, items: seq<T>, k: int)
    requires k !in GroupAll(key, agg, items)
    ensures OfKey(key, k, items) == []
  {
    if items != [] {
      GroupUnseenKey(key, agg, items[..|items| - 1], k);
      OfKeySnoc(key, k, items);
    }
  }

  /** Each key's accumulator is made from its first item, with its later items folded in, in input order. */
  lemma {:induction false} GroupAllFolds<T, A>(key: T -> int, agg: Aggregate<T, A>, items: seq<T>, k: int)
    requires k in GroupAll(key, agg, items)
    ensures OfKey(key, k, items) != []
    ensures var of := OfKey(key, k, items);
            GroupAll(key, agg, items)[k] == Fold(agg, agg.createAccumulator(of[0]), of[1..])
  {
    var init := items[..|items| - 1];
    var x := items[|items| - 1];
    var before := GroupAll(key, agg, init);
    OfKeySnoc(key, k, items);
    if key(x) != k {
      assert k in before;
      assert OfKey(key, k, items) == OfKey(key, k, init) + [] == OfKey(key, k, init);
      GroupAllFolds(key, agg, init, k);
    } else if k in before {
      GroupAllFolds(key, agg, init, k);
      var f := OfKey(key, k, init) + [x];
      assert f[1..] == OfKey(key, k, init)[1..] + [x];
      assert f[1..][..|f[1..]| - 1] == OfKey(key, k, init)[1..];
    } else {
      GroupUnseenKey(key, agg, init, k);
      assert OfKey(key, k, items) == [x];
    }
  }

  // ---------------------------------------------------------------- sorting the snapshot

  ghost predicate KeySorted<A>(s: seq<Entry<A>>) {
    forall i, j :: 0 <= i < j < |s| ==> s[i].key <= s[j].key
  }

  /** One entry inserted into a key-sorted list, before the first entry with a key not below its own. */
  function Insert<A>(s: seq<Entry<A>>, e: Entry<A>): (r: seq<Entry<A>>)
    ensures multiset(r) == multiset(s) + multiset{e}
    ensures r != [] && (r[0] == e || (s != [] && r[0] == s[0]))
  {
    if s == [] || e.key <= s[0].key then [e] + s
    else
      assert s == [s[0]] + s[1..];
      [s[0]] + Insert(s[1..], e)
  }

  lemma {:induction false} InsertSorted<A>(s: seq<Entry<A>>, e: Entry<A>)
    requires KeySorted(s)
    ensures KeySorted(Insert(s, e))
  {
    if s != [] && e.key > s[0].key {
      var tail := s[1..];
      InsertSorted(tail, e);
      var r := Insert(s, e);
      var rest := Insert(tail, e);
      assert r == [s[0]] + rest;
      assert s[0].key <= rest[0].key;
      forall i, j | 0 <= i < j < |r| ensures r[i].key <= r[j].key {
        if i > 0 {
          assert r[i] == rest[i - 1] && r[j] == rest[j - 1];
        } else {
          assert r[j] == rest[j - 1];
        }
      }
    }
  }

  /** `Collections.sort` of the snapshot by key: the same entries, ascending by key. */
  method SortByKey<A>(entries: seq<Entry<A>>) returns (sorted: seq<Entry<A>>)
    ensures KeySorted(sorted)
    ensures multiset(sorted) == multiset(entries)
  {
    sorted := [];
    var i := 0;
    while i < |entries|
      invariant 0 <= i <= |entries|
      invariant KeySorted(sorted)
      invariant multiset(sorted) == multiset(entries[..i])
    {
      InsertSorted(sorted, entries[i]);
      assert entries[..i + 1] == entries[..i] + [entries[i]];
      sorted := Insert(sorted, entries[i]);
      i := i + 1;
    }
    assert entries[..i] == entries;
  }

  /** The entries of `m` in the iteration order `order`. */
  function Snapshot<A>(m: map<int, A>, order: seq<int>): (s: seq<Entry<A>>)
    requires IterationOrder(m, order)
    ensures |s| == |m|
    ensures forall i :: 0 <= i < |s| ==> s[i].key in m && s[i].value == m[s[i].key]
  {
    seq(|order|, i requires 0 <= i < |order| => Entry(order[i], m[order[i]]))
  }

  /** The status of the upstream after the reducer acts on it. */
  function After(s: Status, ev: Event<int>): Status {
    Apply(Endpoint(s, None, [], []), ev).status
  }

  /** What `doNext` does, by its guards in order. */
  datatype Action = Nothing | SuspendUpstream | DeliverChunks | Flush

  function Decide(upstream: Status, saving: bool, mapIsEmpty: bool): (a: Action)
    ensures a == Flush <==> upstream != Closed && !saving && !mapIsEmpty
    ensures a == DeliverChunks <==> upstream == EndOfStream && !saving && mapIsEmpty
    ensures a == SuspendUpstream <==> upstream != Closed && saving
  {
    if upstream == Closed then Nothing
    else if saving then SuspendUpstream
    else if upstream == EndOfStream && mapIsEmpty then DeliverChunks
    else if mapIsEmpty then Nothing
    else Flush
  }

  class GroupReducer<T, A, P> {
    const keyFunction: T -> int
    const aggregate: Aggregate<T, A>
    /** `PrimaryKey.ofObject` on an accumulator. */
    const primaryKeyOf: A -> P
    const chunkSize: int
    var groups: map<int, A>
    var saving: bool
    var upstream: Status
    var chunks: seq<NewChunk<P>>
    /** The sorted snapshot waiting for the metadata storage's new chunk id. */
    var awaitingId: Option<seq<Entry<A>>>
    /** The entries whose accumulators each chunk writer received, one list per chunk. */
    var written: seq<seq<Entry<A>>>
    /** The chunk lists passed to the chunks callback, and those passed to `saveChunks`. */
    var results: seq<seq<NewChunk<P>>>
    var metadataSaves: seq<seq<NewChunk<P>>>
    /** The `doNext` runs posted to the event loop and not yet run. */
    var posted: nat
    /** The items grouped since the map was last cleared. */
    ghost var grouped: seq<T>

    /**
     * The map is the grouping of the items since the last flush; a snapshot
     * waits for its id only while saving; every chunk record matches the
     * sorted entries written for it.
     */
    ghost predicate Valid()
      reads this
    {
      && groups == GroupAll(keyFunction, aggregate, grouped)
      && (awaitingId.Some? ==> saving && awaitingId.value != [] && KeySorted(awaitingId.value))
      && |chunks| == |written|
      && (forall i :: 0 <= i < |written| ==> ChunkOf(chunks[i], written[i]))
    }

    /** A chunk record describes a non-empty, key-sorted chunk: its first and last entry and its size. */
    ghost predicate ChunkOf(c: NewChunk<P>, entries: seq<Entry<A>>) {
      && entries != [] && KeySorted(entries)
      && c.minKey == primaryKeyOf(entries[0].value)
      && c.maxKey == primaryKeyOf(entries[|entries| - 1].value)
      && c.count == |entries|
    }

    constructor (keyFunction: T -> int, aggregate: Aggregate<T, A>, primaryKeyOf: A -> P, chunkSize: int)
      ensures Valid()
      ensures this.keyFunction == keyFunction && this.aggregate == aggregate
      ensures this.primaryKeyOf == primaryKeyOf && this.chunkSize == chunkSize
      ensures groups == map[] && !saving && upstream == Ready && chunks == [] && written == []
      ensures awaitingId == None && results == [] && metadataSaves == [] && posted == 0
    {
      this.keyFunction := keyFunction;
      this.aggregate := aggregate;
      this.primaryKeyOf := primaryKeyOf;
      this.chunkSize := chunkSize;
      groups := map[];
      saving := false;
      upstream := Ready;
      chunks := [];
      awaitingId := None;
      written := [];
      results := [];
      metadataSaves := [];
      posted := 0;
      grouped := [];
    }

    /**
     * `onData`: the item is grouped under its key; only when it adds a new
     * key that brings the map to `chunkSize` entries does `doNext` run.
     */
    method OnData(item: T, order: seq<int>)
      requires Valid()
      requires IterationOrder(GroupItem(keyFunction, aggregate, groups, item), order)
      modifies this
      ensures Valid()
      ensures var grown := GroupItem(keyFunction, aggregate, old(groups), item);
              if keyFunction(item) !in old(groups) && |grown| == chunkSize then
                && DoneNext(old(upstream), old(saving), grown, order)
                && results == old(results) + (if Decide(old(upstream), old(saving), grown == map[]) == DeliverChunks then [chunks] else [])
              else
                groups == grown && unchanged(this`saving, this`upstream, this`awaitingId, this`results)
      ensures unchanged(this`chunks, this`written, this`metadataSaves, this`posted)
    {
      var key := keyFunction(item);
      var isNew := key !in groups;
      Group(item);
      if isNew && |groups| == chunkSize {
        DoNext(order);
      }
    }

    /** The map update of `onData`. */
    method Group(item: T)
      requires Valid()
      modifies this`groups, this`grouped
      ensures Valid()
      ensures groups == GroupItem(keyFunction, aggregate, old(groups), item)
    {
      groups := GroupItem(keyFunction, aggregate, groups, item);
      grouped := grouped + [item];
      assert grouped[..|grouped| - 1] == old(grouped);
    }

    /** The state `doNext` leaves, from the upstream status, the saving flag and the map it started with. */
    ghost predicate DoneNext(upstream0: Status, saving0: bool, map0: map<int, A>, order: seq<int>)
      requires IterationOrder(map0, order)
      reads this
    {
      match Decide(upstream0, saving0, map0 == map[])
      case Nothing => groups == map0 && saving == saving0 && upstream == upstream0
      case SuspendUpstream => groups == map0 && saving && upstream == After(upstream0, Suspend)
      case DeliverChunks => groups == map0 && !saving && upstream == After(upstream0, Close)
                            && |results| > 0 && results[|results| - 1] == chunks
      case Flush =>
        && groups == map[] && saving && upstream == upstream0 && awaitingId.Some?
        && KeySorted(awaitingId.value)
        && multiset(awaitingId.value) == multiset(Snapshot(map0, order))
    }

    /**
     * `doNext`: nothing once the upstream is closed; suspend it while a
     * chunk is being saved; deliver the chunk list and close it at
     * end-of-stream with an empty map; otherwise flush a non-empty map:
     * snapshot, clear, sort by key, and ask for a new chunk id.
     */
    method DoNext(order: seq<int>)
      requires Valid() && IterationOrder(groups, order)
      modifies this
      ensures Valid()
      ensures DoneNext(old(upstream), old(saving), old(groups), order)
      ensures var a := Decide(old(upstream), old(saving), old(groups) == map[]);
              results == old(results) + (if a == DeliverChunks then [chunks] else [])
      ensures unchanged(this`chunks, this`written, this`metadataSaves, this`posted)
    {
      ghost var a := Decide(upstream, saving, groups == map[]);
      if upstream == Closed {
        assert a == Nothing;
        return;
      }
      if saving {
        assert a == SuspendUpstream;
        upstream := After(upstream, Suspend);
        return;
      }
      if upstream == EndOfStream && groups == map[] {
        assert a == DeliverChunks;
        results := results + [chunks];
        upstream := After(upstream, Close);
        return;
      }
      if groups == map[] {
        assert a == Nothing;
        return;
      }
      assert a.Flush?;
      Flush(order);
    }

    /** The flush at the end of `doNext`: snapshot the map, clear it, sort the snapshot and wait for a chunk id. */
    method Flush(order: seq<int>)
      requires Valid() && IterationOrder(groups, order) && groups != map[] && !saving
      modifies this`saving, this`groups, this`grouped, this`awaitingId
      ensures Valid()
      ensures groups == map[] && saving && awaitingId.Some?
      ensures KeySorted(awaitingId.value) && multiset(awaitingId.value) == multiset(Snapshot(old(groups), order))
    {
      saving := true;
      var entryList := Snapshot(groups, order);
      groups := map[];
      grouped := [];
      var sorted := SortByKey(entryList);
      assert |entryList| > 0 by {
        var k :| k in old(groups);
      }
      assert |sorted| == |multiset(sorted)| == |entryList|;
      awaitingId := Some(sorted);
    }

    /**
     * The new chunk id arrives: the chunk record of the first and last
     * sorted entries and their count is added, the accumulators go to the
     * chunk writer, and the upstream is resumed.
     */
    method OnNewChunkId(id: int)
      requires Valid() && awaitingId.Some?
      modifies this
      ensures Valid()
      ensures var entries := old(awaitingId.value);
              && chunks == old(chunks) + [NewChunk(id, primaryKeyOf(entries[0].value), primaryKeyOf(entries[|entries| - 1].value), |entries|)]
              && written == old(written) + [entries]
      ensures awaitingId == None && upstream == After(old(upstream), Resume)
      ensures unchanged(this`groups, this`saving, this`results, this`metadataSaves, this`posted)
    {
      var entryList := awaitingId.value;
      chunks := chunks + [NewChunk(id, primaryKeyOf(entryList[0].value), primaryKeyOf(entryList[|entryList| - 1].value), |entryList|)];
      written := written + [entryList];
      awaitingId := None;
      upstream := After(upstream, Resume);
    }

    /** The chunk writer finished: saving ends, the chunk list goes to `saveChunks`, and a `doNext` is posted. */
    method OnChunkWritten()
      requires Valid() && awaitingId.None?
      modifies this
      ensures Valid()
      ensures !saving && metadataSaves == old(metadataSaves) + [chunks] && posted == old(posted) + 1
      ensures unchanged(this`groups, this`upstream, this`chunks, this`written, this`results, this`awaitingId)
    {
      saving := false;
      metadataSaves := metadataSaves + [chunks];
      posted := posted + 1;
    }

    /** A posted `doNext` runs. */
    method RunPosted(order: seq<int>)
      requires Valid() && posted > 0 && IterationOrder(groups, order)
      modifies this
      ensures Valid() && posted == old(posted) - 1
      ensures DoneNext(old(upstream), old(saving), old(groups), order)
      ensures var a := Decide(old(upstream), old(saving), old(groups) == map[]);
              results == old(results) + (if a == DeliverChunks then [chunks] else [])
      ensures unchanged(this`chunks, this`written, this`metadataSaves)
    {
      posted := posted - 1;
      DoNext(order);
    }

    /** `onEndOfStream`: the upstream has ended, and `doNext` runs. */
    method OnEndOfStream(order: seq<int>)
      requires Valid() && IterationOrder(groups, order)
      modifies this
      ensures Valid()
      ensures DoneNext(After(old(upstream), SendEndOfStream), old(saving), old(groups), order)
      ensures var a := Decide(After(old(upstream), SendEndOfStream), old(saving), old(groups) == map[]);
              results == old(results) + (if a == DeliverChunks then [chunks] else [])
      ensures unchanged(this`chunks, this`written, this`metadataSaves, this`posted)
    {
      upstream := After(upstream, SendEndOfStream);
      DoNext(order);
    }
  }
}
