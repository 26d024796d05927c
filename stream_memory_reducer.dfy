/**
 * `StreamMemoryReducer`: buffers its whole input in a hash map from key to
 * accumulator, and after end-of-stream emits one result per accumulator,
 * honouring backpressure while it does.
 */
module StreamMemoryReducer {
  import opened Base
  import opened StreamStatus
  import opened StreamProducers

  /** `ReducerToResult`: a fresh accumulator for a key, the fold of one item, and the result of an accumulator. */
  datatype ReducerToResult<!K, !T, !A, O> = ReducerToResult(createAccumulator: K -> A, accumulate: (A, T) -> A, produceResult: A -> O)

  /** Why a memory reducer could not be built: the key function is checked first, then the reducer. */
  datatype NullArgument = NullKeyFunction | NullReducer

  datatype Config<!K, !T, !A, O> = Config(keyFunction: T -> K, reducer: ReducerToResult<K, T, A, O>)

  /** The constructor's null checks. */
  function NewMemoryReducer<K, T, A, O>(keyFunction: Option<T -> K>, reducer: Option<ReducerToResult<K, T, A, O>>): (r: Result<Config<K, T, A, O>, NullArgument>)
    ensures r.Ok? <==> keyFunction.Some? && reducer.Some?
    ensures r.Ok? ==> r.value.keyFunction == keyFunction.value && r.value.reducer == reducer.value
    ensures keyFunction.None? ==> r == Err(NullKeyFunction)
    ensures keyFunction.Some? && reducer.None? ==> r == Err(NullReducer)
  {
    if keyFunction.None? then Err(NullKeyFunction)
    else if reducer.None? then Err(NullReducer)
    else Ok(Config(keyFunction.value, reducer.value))
  }

  /** The accumulator after folding `items`, in order, into `acc`. */
  function FoldAcc<K, T, A, O>(r: ReducerToResult<K, T, A, O>, acc: A, items: seq<T>): A {
    if items == [] then acc else r.accumulate(FoldAcc(r, acc, items[..|items| - 1]), items[|items| - 1])
  }

  /**
   * `apply` as written: a key seen for the first time gets
   * `createAccumulator(key)`, and that first item is not folded in; a key
   * seen before has the item folded into its accumulator.
   */
  function ApplyItemAsWritten<K, T, A, O>(key: T -> K, r: ReducerToResult<K, T, A, O>, state: map<K, A>, item: T): (s: map<K, A>)
    ensures s.Keys == state.Keys + {key(item)}
    ensures forall k :: k in state && k != key(item) ==> s[k] == state[k]
  {
    var k := key(item);
    if k !in state then state[k := r.createAccumulator(k)]
    else state[k := r.accumulate(state[k], item)]
  }

  /** `apply` with the first item folded into the fresh accumulator too. */
  function ApplyItem<K, T, A, O>(key: T -> K, r: ReducerToResult<K, T, A, O>, state: map<K, A>, item: T): (s: map<K, A>)
    ensures s.Keys == state.Keys + {key(item)}
    ensures forall k :: k in state && k != key(item) ==> s[k] == state[k]
  {
    var k := key(item);
    var acc := if k in state then state[k] else r.createAccumulator(k);
    state[k := r.accumulate(acc, item)]
  }

  /** The map after `apply` of every item, from an empty map. */
  function ApplyAll<K, T, A, O>(key: T -> K, r: ReducerToResult<K, T, A, O>, items: seq<T>): map<K, A> {
    if items == [] then map[] else ApplyItem(key, r, ApplyAll(key, r, items[..|items| - 1]), items[|items| - 1])
  }

  function ApplyAllAsWritten<K, T, A, O>(key: T -> K, r: ReducerToResult<K, T, A, O>, items: seq<T>): map<K, A> {
    if items == [] then map[] else ApplyItemAsWritten(key, r, ApplyAllAsWritten(key, r, items[..|items| - 1]), items[|items| - 1])
  }

  /** One more item is one more `apply` on the map of the items before it. */
  lemma ApplySnoc<K, T, A, O>(key: T -> K, r: ReducerToResult<K, T, A, O>, items: seq<T>, item: T)
    ensures ApplyAll(key, r, items + [item]) == ApplyItem(key, r, ApplyAll(key, r, items), item)
  {
    assert (items + [item])[..|items|] == items;
  }

  /** The update `apply` makes in place is one more `ApplyItem`, and leaves a key for every item seen. */
  lemma ApplyStep<K, T, A, O>(key: T -> K, r: ReducerToResult<K, T, A, O>, items: seq<T>, item: T)
    ensures var state := ApplyAll(key, r, items);
            var k := key(item);
            var acc := if k in state then state[k] else r.createAccumulator(k);
            && state[k := r.accumulate(acc, item)] == ApplyItem(key, r, state, item)
            && ApplyItem(key, r, state, item) == ApplyAll(key, r, items + [item])
            && ApplyAll(key, r, items + [item]).Keys == KeysOf(key, items + [item])
  {
    ApplySnoc(key, r, items, item);
    ApplyAllKeys(key, r, items + [item]);
  }

  /** The map has an entry for exactly the keys seen so far. */
  lemma {:induction false} ApplyAllKeys<K, T, A, O>(key: T -> K, r: ReducerToResult<K, T, A, O>, items: seq<T>)
    ensures ApplyAll(key, r, items).Keys == KeysOf(key, items)
    ensures ApplyAllAsWritten(key, r, items).Keys == KeysOf(key, items)
  {
    if items != [] {
      ApplyAllKeys(key, r, items[..|items| - 1]);
      KeysOfSnoc(key, items);
    }
  }

  /** A key without an entry has had no items. */
  lemma {:induction false} UnseenKey<K, T, A, O>(key: T -> K, r: ReducerToResult<K, T, A, O>, items: seq<T>, k: K)
    requires k !in ApplyAll(key, r, items) || k !in ApplyAllAsWritten(key, r, items)
    ensures OfKey(key, k, items) == []
  {
    if items != [] {
      var init := items[..|items| - 1];
      UnseenKey(key, r, init, k);
      OfKeySnoc(key, k, items);
    }
  }

  /** Each key's accumulator is the fold of all its items, in input order, into a fresh accumulator. */
  lemma {:induction false} ApplyAllFolds<K, T, A, O>(key: T -> K, r: ReducerToResult<K, T, A, O>, items: seq<T>, k: K)
    requires k in ApplyAll(key, r, items)
    ensures ApplyAll(key, r, items)[k] == FoldAcc(r, r.createAccumulator(k), OfKey(key, k, items))
  {
    var init := items[..|items| - 1];
    var x := items[|items| - 1];
    var before := ApplyAll(key, r, init);
    assert ApplyAll(key, r, items) == ApplyItem(key, r, before, x);
    OfKeySnoc(key, k, items);
    if key(x) != k {
      assert k in before;
      assert OfKey(key, k, items) == OfKey(key, k, init) + [] == OfKey(key, k, init);
      ApplyAllFolds(key, r, init, k);
    } else if k in before {
      ApplyAllFolds(key, r, init, k);
      var f := OfKey(key, k, init) + [x];
      assert f[..|f| - 1] == OfKey(key, k, init);
    } else {
      UnseenKey(key, r, init, k);
      assert OfKey(key, k, items) == [x];
      assert [x][..0] == [];
    }
  }

  /** As written, a key's accumulator folds all its items but the first. */
  lemma {:induction false} ApplyAllAsWrittenSkipsFirst<K, T, A, O>(key: T -> K, r: ReducerToResult<K, T, A, O>, items: seq<T>, k: K)
    requires k in ApplyAllAsWritten(key, r, items)
    ensures OfKey(key, k, items) != []
    ensures ApplyAllAsWritten(key, r, items)[k] == FoldAcc(r, r.createAccumulator(k), OfKey(key, k, items)[1..])
  {
    var init := items[..|items| - 1];
    var x := items[|items| - 1];
    var before := ApplyAllAsWritten(key, r, init);
    assert ApplyAllAsWritten(key, r, items) == ApplyItemAsWritten(key, r, before, x);
    OfKeySnoc(key, k, items);
    if key(x) != k {
      assert k in before;
      assert OfKey(key, k, items) == OfKey(key, k, init) + [] == OfKey(key, k, init);
      ApplyAllAsWrittenSkipsFirst(key, r, init, k);
    } else if k in before {
      ApplyAllAsWrittenSkipsFirst(key, r, init, k);
      var f := OfKey(key, k, init) + [x];
      assert f[1..] == OfKey(key, k, init)[1..] + [x];
      assert f[1..][..|f[1..]| - 1] == OfKey(key, k, init)[1..];
    } else {
      UnseenKey(key, r, init, k);
      assert OfKey(key, k, items) == [x];
    }
  }

  /** A counting reducer: every accumulator starts at 0, and each item adds one. */
  function Zero(k: int): int { 0 }
  function CountOne(acc: int, x: int): int { acc + 1 }
  function Identity(acc: int): int { acc }
  function SelfKey(x: int): int { x }

  /** With the counting reducer, one item of key 5 counts 0 as written, where the reducer means 1. */
  lemma CountingReducerLosesFirstItem(items: seq<int>)
    requires items == [5]
    ensures ApplyAllAsWritten(SelfKey, ReducerToResult(Zero, CountOne, Identity), items)[5] == 0
    ensures ApplyAll(SelfKey, ReducerToResult(Zero, CountOne, Identity), items)[5] == 1
  {
    assert items[..0] == [];
  }

  /** The map's values in the order `order` visits their keys. */
  function Values<K, A>(state: map<K, A>, order: seq<K>): (vs: seq<A>)
    requires forall i :: 0 <= i < |order| ==> order[i] in state
    ensures |vs| == |order|
    ensures forall i :: 0 <= i < |order| ==> vs[i] == state[order[i]]
  {
    seq(|order|, i requires 0 <= i < |order| => state[order[i]])
  }

  /**
   * The results of a whole run whose consumer accepts everything: in the
   * map's iteration order, one result per distinct key, each the result of
   * folding all items of that key into a fresh accumulator.
   */
  lemma MemoryReduceResults<K, T, A, O>(key: T -> K, r: ReducerToResult<K, T, A, O>, items: seq<T>, order: seq<K>)
    requires IterationOrder(ApplyAll(key, r, items), order)
    ensures var results := MapSeq(r.produceResult, Values(ApplyAll(key, r, items), order));
            && |results| == |KeysOf(key, items)|
            && (forall i :: 0 <= i < |order| ==> order[i] in KeysOf(key, items))
            && (forall i :: 0 <= i < |order| ==>
                  results[i] == r.produceResult(FoldAcc(r, r.createAccumulator(order[i]), OfKey(key, order[i], items))))
  {
    ApplyAllKeys(key, r, items);
    forall i | 0 <= i < |order| {
      ApplyAllFolds(key, r, items, order[i]);
    }
  }

  /**
   * The push loop of `doProduce` from iterator position `from`: it emits
   * the result of each accumulator while the status is READY, and stops at
   * the end of the iterator or at the first status that is not READY.
   */
  method PushResults<A, O>(items: seq<A>, from: nat, s: Status, react: nat -> Reaction, f: A -> O)
    returns (i: nat, st: Status, out: seq<O>)
    requires from <= |items|
    ensures (i, st) == ProduceSpec(items, from, s, react)
    ensures from <= i <= |items| && out == MapSeq(f, items[from..i])
  {
    i, st, out := from, s, [];
    while i < |items| && st == Ready
      invariant from <= i <= |items|
      invariant ProduceSpec(items, i, st, react) == ProduceSpec(items, from, s, react)
      invariant out == MapSeq(f, items[from..i])
      decreases |items| - i
    {
      assert items[from..i + 1] == items[from..i] + [items[i]];
      MapSeqAppend(f, items[from..i], [items[i]]);
      out := out + [f(items[i])];
      st := React(st, react(i));
      i := i + 1;
    }
  }

  /**
   * A `StreamMemoryReducer`: the hash map filled by `apply`, and after
   * end-of-stream the accumulators to emit, the iterator position among them,
   * the producer status and the results emitted downstream.
   */
  class MemoryReducer<K(==), T, A, O> {
    const keyFunction: T -> K
    const reducer: ReducerToResult<K, T, A, O>
    var state: map<K, A>
    ghost var received: seq<T>
    var ended: bool
    var pending: seq<A>
    var pos: nat
    var status: Status
    var delivered: seq<O>

    /**
     * The map is the `apply` of every received item; after end-of-stream,
     * exactly the results of the accumulators passed by the iterator have
     * been emitted, in iteration order.
     */
    ghost predicate Valid()
      reads this
    {
      && state == ApplyAll(keyFunction, reducer, received)
      && pos <= |pending|
      && delivered == MapSeq(reducer.produceResult, pending[..pos])
      && (!ended ==> pending == [] && pos == 0)
    }

    constructor (config: Config<K, T, A, O>)
      ensures Valid()
      ensures keyFunction == config.keyFunction && reducer == config.reducer
      ensures state == map[] && received == [] && !ended && status == Ready && delivered == []
    {
      keyFunction := config.keyFunction;
      reducer := config.reducer;
      state := map[];
      received := [];
      ended := false;
      pending := [];
      pos := 0;
      status := Ready;
      delivered := [];
    }

    /** `apply`: groups one item under its key; no other entry changes. */
    method OnData(item: T)
      requires Valid() && !ended
      modifies this`state, this`received
      ensures Valid() && !ended
      ensures received == old(received) + [item]
      ensures state == ApplyItem(keyFunction, reducer, old(state), item)
      ensures state.Keys == KeysOf(keyFunction, received)
      ensures unchanged(this`pending, this`pos, this`status, this`delivered)
    {
      ApplyStep(keyFunction, reducer, received, item);
      var k := keyFunction(item);
      var acc := if k in state then state[k] else reducer.createAccumulator(k);
      state := state[k := reducer.accumulate(acc, item)];
      received := received + [item];
    }

    /** `afterEndOfStream`: the iterator over the map's values, in the map's own order `order`. */
    method AfterEndOfStream(order: seq<K>)
      requires Valid() && !ended
      requires IterationOrder(state, order)
      modifies this
      ensures unchanged(this`state, this`status, this`received)
      ensures Valid() && ended
      ensures pending == Values(state, order) && pos == 0 && delivered == []
    {
      var st := state;
      pending := seq(|order|, i requires 0 <= i < |order| => st[order[i]]);
      ended := true;
    }

    /**
     * `doProduce`: emits the result of each remaining accumulator while the
     * status is READY and returns at once when it is not; once the iterator
     * is exhausted it sends end-of-stream.
     */
    method DoProduce(react: nat -> Reaction, onEnd: Reaction)
      requires Valid() && ended
      modifies this
      ensures Valid() && ended
      ensures old(pos) <= pos
      ensures var r := ProduceSpec(pending, old(pos), old(status), react);
              pos == r.0 && status == (if pos == |pending| then EndStatus(r.1, onEnd) else r.1)
      ensures delivered == old(delivered) + MapSeq(reducer.produceResult, pending[old(pos)..pos])
      ensures unchanged(this`state, this`pending, this`received)
    {
      var i, st, out := PushResults(pending, pos, status, react, reducer.produceResult);
      SplitDelivered(pos, i);
      delivered := delivered + out;
      pos := i;
      status := if i == |pending| then EndStatus(st, onEnd) else st;
    }

    /** The results emitted up to `q` are those up to `p` followed by those between. */
    lemma SplitDelivered(p: nat, q: nat)
      requires p <= q <= |pending|
      ensures MapSeq(reducer.produceResult, pending[..q]) == MapSeq(reducer.produceResult, pending[..p]) + MapSeq(reducer.produceResult, pending[p..q])
    {
      assert pending[..q] == pending[..p] + pending[p..q];
      MapSeqAppend(reducer.produceResult, pending[..p], pending[p..q]);
    }
  }
}
