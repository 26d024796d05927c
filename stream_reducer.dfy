/**
 * `StreamReducerSimple`: a k-way merge of inputs sorted by key that folds all
 * items of one key, across every input, into one accumulator and emits one
 * result per key, in ascending key order. All inputs share the reducer's
 * key function and reducer.
 */
module StreamReducer {
  import opened Base
  import opened StreamStatus
  import opened StreamOperators

  /**
   * A reducer: the accumulator for a key's first item, the fold of each
   * further item, and the result emitted once the key is complete.
   */
  datatype Reducer<!T, !A, O> = Reducer(onFirstItem: (int, T) -> A, onNextItem: (int, T, A) -> A, onComplete: A -> O)

  /** Folding one more item of key k into the accumulator, which is absent before the first item. */
  function Step<T, A, O>(r: Reducer<T, A, O>, k: int, acc: Option<A>, x: T): A {
    if acc.None? then r.onFirstItem(k, x) else r.onNextItem(k, x, acc.value)
  }

  /** The accumulator after folding `items`, in order, into `acc`. */
  function FoldFrom<T, A, O>(r: Reducer<T, A, O>, k: int, acc: Option<A>, items: seq<T>): (res: Option<A>)
    ensures items != [] ==> res.Some?
    ensures items == [] ==> res == acc
  {
    if items == [] then acc
    else Some(Step(r, k, FoldFrom(r, k, acc, items[..|items| - 1]), items[|items| - 1]))
  }

  /** Folding a concatenation is folding its two halves one after the other. */
  lemma {:induction false} FoldFromAppend<T, A, O>(r: Reducer<T, A, O>, k: int, acc: Option<A>, a: seq<T>, b: seq<T>)
    ensures FoldFrom(r, k, acc, a + b) == FoldFrom(r, k, FoldFrom(r, k, acc, a), b)
  {
    if b == [] {
      assert a + b == a;
    } else {
      assert (a + b)[..|a + b| - 1] == a + b[..|b| - 1];
      FoldFromAppend(r, k, acc, a, b[..|b| - 1]);
    }
  }

  /** The items at the head of `s` whose key is k: the longest such prefix. */
  function TakeKey<T>(key: T -> int, k: int, s: seq<T>): (p: seq<T>)
    ensures |p| <= |s| && p == s[..|p|]
    ensures forall t :: 0 <= t < |p| ==> key(s[t]) == k
    ensures |p| < |s| ==> key(s[|p|]) != k
  {
    if s == [] || key(s[0]) != k then [] else [s[0]] + TakeKey(key, k, s[1..])
  }

  /** What is left of `s` once its key-k prefix is taken. */
  function DropKey<T>(key: T -> int, k: int, s: seq<T>): seq<T> {
    s[|TakeKey(key, k, s)|..]
  }

  /** A prefix of key-k items that cannot be extended is the key-k prefix. */
  lemma {:induction false} TakeKeyMaximal<T>(key: T -> int, k: int, s: seq<T>, j: nat)
    requires j <= |s|
    requires forall t :: 0 <= t < j ==> key(s[t]) == k
    requires j < |s| ==> key(s[j]) != k
    ensures TakeKey(key, k, s) == s[..j]
  {
    if j > 0 {
      TakeKeyMaximal(key, k, s[1..], j - 1);
      assert s[..j] == [s[0]] + s[1..][..j - 1];
    }
  }

  /** The smaller of a running minimum and the head key of `s`. */
  function Combine<T>(key: T -> int, m: Option<int>, s: seq<T>): Option<int> {
    if s == [] then m else if m.None? || key(s[0]) < m.value then Some(key(s[0])) else m
  }

  /** The least head key over the inputs, if any input has an item left. */
  function MinHead<T>(key: T -> int, rests: seq<seq<T>>): (m: Option<int>)
    ensures m.Some? <==> exists i :: 0 <= i < |rests| && rests[i] != []
    ensures m.Some? ==> forall i :: 0 <= i < |rests| && rests[i] != [] ==> m.value <= key(rests[i][0])
    ensures m.Some? ==> exists i :: 0 <= i < |rests| && rests[i] != [] && key(rests[i][0]) == m.value
  {
    if rests == [] then None
    else
      var init := rests[..|rests| - 1];
      var mi := MinHead(key, init);
      assert forall i :: 0 <= i < |init| ==> init[i] == rests[i];
      Combine(key, mi, rests[|rests| - 1])
  }

  /** The key-k items of every input, input by input: the items one accumulator folds. */
  function GroupOf<T>(key: T -> int, k: int, rests: seq<seq<T>>): seq<T> {
    if rests == [] then []
    else GroupOf(key, k, rests[..|rests| - 1]) + TakeKey(key, k, rests[|rests| - 1])
  }

  /** Every input with its key-k prefix consumed. */
  function AfterOf<T>(key: T -> int, k: int, rests: seq<seq<T>>): (a: seq<seq<T>>)
    ensures |a| == |rests|
    ensures forall i :: 0 <= i < |rests| ==> a[i] == DropKey(key, k, rests[i])
  {
    if rests == [] then []
    else AfterOf(key, k, rests[..|rests| - 1]) + [DropKey(key, k, rests[|rests| - 1])]
  }

  function TotalLen<T>(rests: seq<seq<T>>): nat {
    if rests == [] then 0 else TotalLen(rests[..|rests| - 1]) + |rests[|rests| - 1]|
  }

  /** The multiset of all items left in the inputs. */
  function Items<T>(rests: seq<seq<T>>): multiset<T> {
    if rests == [] then multiset{} else Items(rests[..|rests| - 1]) + multiset(rests[|rests| - 1])
  }

  ghost predicate AllSorted<T>(key: T -> int, rests: seq<seq<T>>) {
    forall i :: 0 <= i < |rests| ==> SortedBy(key, rests[i])
  }

  /** Taking the key-k group splits the inputs: the group and the rest together are all items. */
  lemma {:induction false} GroupSplitLen<T>(key: T -> int, k: int, rests: seq<seq<T>>)
    ensures TotalLen(rests) == |GroupOf(key, k, rests)| + TotalLen(AfterOf(key, k, rests))
  {
    if rests != [] {
      var init := rests[..|rests| - 1];
      var last := rests[|rests| - 1];
      GroupSplitLen(key, k, init);
      var after := AfterOf(key, k, rests);
      assert after[..|after| - 1] == AfterOf(key, k, init);
      assert |last| == |TakeKey(key, k, last)| + |DropKey(key, k, last)|;
    }
  }

  lemma {:induction false} GroupSplitItems<T>(key: T -> int, k: int, rests: seq<seq<T>>)
    ensures Items(rests) == multiset(GroupOf(key, k, rests)) + Items(AfterOf(key, k, rests))
  {
    if rests != [] {
      var init := rests[..|rests| - 1];
      var last := rests[|rests| - 1];
      GroupSplitItems(key, k, init);
      var after := AfterOf(key, k, rests);
      var take := TakeKey(key, k, last);
      var drop := DropKey(key, k, last);
      TakeDropSplit(key, k, last);
      assert after == AfterOf(key, k, init) + [drop];
      assert after[..|after| - 1] == AfterOf(key, k, init);
      var g := GroupOf(key, k, init);
      var a := Items(AfterOf(key, k, init));
      calc {
        Items(rests);
        Items(init) + multiset(last);
        (multiset(g) + a) + (multiset(take) + multiset(drop));
        multiset(g + take) + (a + multiset(drop));
        multiset(GroupOf(key, k, rests)) + Items(after);
      }
    }
  }

  /** A sequence is its key-k prefix followed by the rest. */
  lemma TakeDropSplit<T>(key: T -> int, k: int, s: seq<T>)
    ensures multiset(s) == multiset(TakeKey(key, k, s)) + multiset(DropKey(key, k, s))
  {
    var p := TakeKey(key, k, s);
    assert s == p + DropKey(key, k, s);
  }

  /** An input whose head has key k contributes to the key-k group. */
  lemma {:induction false} GroupNonEmpty<T>(key: T -> int, k: int, rests: seq<seq<T>>, i: nat)
    requires i < |rests| && rests[i] != [] && key(rests[i][0]) == k
    ensures GroupOf(key, k, rests) != []
  {
    var init := rests[..|rests| - 1];
    if i < |init| {
      assert init[i] == rests[i];
      GroupNonEmpty(key, k, init, i);
    }
  }

  /** Taking the least key k: the group is nonempty and the inputs shrink. */
  lemma GroupSplit<T>(key: T -> int, k: int, rests: seq<seq<T>>)
    requires MinHead(key, rests) == Some(k)
    ensures GroupOf(key, k, rests) != []
    ensures TotalLen(AfterOf(key, k, rests)) < TotalLen(rests)
    ensures Items(rests) == multiset(GroupOf(key, k, rests)) + Items(AfterOf(key, k, rests))
  {
    var i :| 0 <= i < |rests| && rests[i] != [] && key(rests[i][0]) == k;
    GroupNonEmpty(key, k, rests, i);
    GroupSplitLen(key, k, rests);
    GroupSplitItems(key, k, rests);
  }

  /** After the least key k is taken, every input is still sorted and every head key is above k. */
  lemma AfterAboveMin<T>(key: T -> int, k: int, rests: seq<seq<T>>)
    requires AllSorted(key, rests)
    requires forall i :: 0 <= i < |rests| && rests[i] != [] ==> k <= key(rests[i][0])
    ensures AllSorted(key, AfterOf(key, k, rests))
    ensures forall i :: 0 <= i < |rests| && AfterOf(key, k, rests)[i] != [] ==> k < key(AfterOf(key, k, rests)[i][0])
  {
    var after := AfterOf(key, k, rests);
    forall i | 0 <= i < |rests|
      ensures SortedBy(key, after[i])
      ensures after[i] != [] ==> k < key(after[i][0])
    {
      var s := rests[i];
      var n := |TakeKey(key, k, s)|;
      assert after[i] == s[n..];
      if after[i] != [] {
        assert key(s[0]) <= key(s[n]);
      }
    }
  }

  /** A group of consecutive items of one key, as the merge emits it. */
  datatype Group<T> = Group(key: int, items: seq<T>)

  /** A group holds at least one item, and only items of its key. */
  ghost predicate Uniform<T>(key: T -> int, g: Group<T>) {
    g.items != [] && forall x :: x in g.items ==> key(x) == g.key
  }

  /** Group keys strictly ascend, so no key is emitted twice. */
  ghost predicate Ascending<T>(gs: seq<Group<T>>) {
    forall i, j :: 0 <= i < j < |gs| ==> gs[i].key < gs[j].key
  }

  /** All items of a sequence of groups, in order. */
  function GroupItems<T>(gs: seq<Group<T>>): seq<T> {
    if gs == [] then [] else gs[0].items + GroupItems(gs[1..])
  }

  /**
   * The merge, as a function: take the least head key k, gather the key-k
   * items of every input in input order, and go on with what is left.
   */
  function Groups<T>(key: T -> int, rests: seq<seq<T>>): (gs: seq<Group<T>>)
    requires AllSorted(key, rests)
    ensures forall i :: 0 <= i < |gs| ==> Uniform(key, gs[i])
    ensures Ascending(gs)
    ensures gs != [] ==> MinHead(key, rests) == Some(gs[0].key)
    ensures multiset(GroupItems(gs)) == Items(rests)
    decreases TotalLen(rests)
  {
    var m := MinHead(key, rests);
    if m.None? then
      NoItems(key, rests);
      []
    else
      var k := m.value;
      GroupsStep(key, k, rests);
      var rest := Groups(key, AfterOf(key, k, rests));
      GroupsCons(key, k, GroupOf(key, k, rests), rest, Items(AfterOf(key, k, rests)), Items(rests));
      [Group(k, GroupOf(key, k, rests))] + rest
  }

  /** Taking the least key k leaves sorted inputs with heads above k, fewer items, and a nonempty group of key k. */
  lemma GroupsStep<T>(key: T -> int, k: int, rests: seq<seq<T>>)
    requires AllSorted(key, rests)
    requires MinHead(key, rests) == Some(k)
    ensures AllSorted(key, AfterOf(key, k, rests))
    ensures MinHead(key, AfterOf(key, k, rests)).Some? ==> k < MinHead(key, AfterOf(key, k, rests)).value
    ensures TotalLen(AfterOf(key, k, rests)) < TotalLen(rests)
    ensures GroupOf(key, k, rests) != [] && forall x :: x in GroupOf(key, k, rests) ==> key(x) == k
    ensures Items(rests) == multiset(GroupOf(key, k, rests)) + Items(AfterOf(key, k, rests))
  {
    AfterAboveMin(key, k, rests);
    MinHeadAbove(key, k, AfterOf(key, k, rests));
    GroupSplit(key, k, rests);
    GroupKeys(key, k, rests);
  }

  /** When every head is above k, so is the least head. */
  lemma MinHeadAbove<T>(key: T -> int, k: int, rests: seq<seq<T>>)
    requires forall i :: 0 <= i < |rests| && rests[i] != [] ==> k < key(rests[i][0])
    ensures MinHead(key, rests).Some? ==> k < MinHead(key, rests).value
  {
    if MinHead(key, rests).Some? {
      var i :| 0 <= i < |rests| && rests[i] != [] && key(rests[i][0]) == MinHead(key, rests).value;
    }
  }

  /** Prepending the least key's group to the groups of the rest keeps every property of `Groups`. */
  lemma GroupsCons<T>(key: T -> int, k: int, g: seq<T>, rest: seq<Group<T>>, restItems: multiset<T>, items: multiset<T>)
    requires g != [] && forall x :: x in g ==> key(x) == k
    requires multiset(GroupItems(rest)) == restItems && items == multiset(g) + restItems
    requires rest != [] ==> k < rest[0].key
    requires forall i :: 0 <= i < |rest| ==> Uniform(key, rest[i])
    requires Ascending(rest)
    ensures var gs := [Group(k, g)] + rest;
            && (forall i :: 0 <= i < |gs| ==> Uniform(key, gs[i]))
            && Ascending(gs)
            && multiset(GroupItems(gs)) == items
  {
    var gs := [Group(k, g)] + rest;
    assert gs[1..] == rest;
    assert GroupItems(gs) == g + GroupItems(rest);
    forall i | 0 <= i < |gs| ensures Uniform(key, gs[i]) {
      if i > 0 {
        assert gs[i] == rest[i - 1];
      }
    }
    forall i, j | 0 <= i < j < |gs| ensures gs[i].key < gs[j].key {
      if i > 0 {
        assert gs[i] == rest[i - 1] && gs[j] == rest[j - 1];
      } else if j > 1 {
        assert gs[j] == rest[j - 1];
        assert rest[0].key < rest[j - 1].key;
      }
    }
  }

  lemma ItemsCons<T>(all: seq<T>, g: seq<T>, rest: seq<T>, restItems: multiset<T>, items: multiset<T>)
    requires all == g + rest && multiset(rest) == restItems && items == multiset(g) + restItems
    ensures multiset(all) == items
  {
  }

  /** Inputs without a head have no items left. */
  lemma NoItems<T>(key: T -> int, rests: seq<seq<T>>)
    requires MinHead(key, rests).None?
    ensures Items(rests) == multiset{}
  {
    EmptyItems(rests);
  }

  lemma {:induction false} EmptyItems<T>(rests: seq<seq<T>>)
    requires forall i :: 0 <= i < |rests| ==> rests[i] == []
    ensures Items(rests) == multiset{}
  {
    if rests != [] {
      var init := rests[..|rests| - 1];
      assert forall i :: 0 <= i < |init| ==> init[i] == rests[i];
      EmptyItems(init);
    }
  }

  lemma {:induction false} GroupKeys<T>(key: T -> int, k: int, rests: seq<seq<T>>)
    ensures forall x :: x in GroupOf(key, k, rests) ==> key(x) == k
  {
    if rests != [] {
      GroupKeys(key, k, rests[..|rests| - 1]);
    }
  }

  /** The result the reducer emits for a group. */
  function Emit<T, A, O>(r: Reducer<T, A, O>, g: Group<T>): O
    requires g.items != []
  {
    r.onComplete(FoldFrom(r, g.key, None, g.items).value)
  }

  function EmitAll<T, A, O>(r: Reducer<T, A, O>, gs: seq<Group<T>>): (out: seq<O>)
    requires forall g :: g in gs ==> g.items != []
    ensures |out| == |gs|
  {
    if gs == [] then [] else [Emit(r, gs[0])] + EmitAll(r, gs[1..])
  }

  /** The output of the merge-reduce: one emitted result per key, in ascending key order. */
  function Reduce<T, A, O>(key: T -> int, r: Reducer<T, A, O>, inputs: seq<seq<T>>): seq<O>
    requires AllSorted(key, inputs)
  {
    EmitAll(r, Groups(key, inputs))
  }

  /**
   * Each result is the fold of exactly the items of one key: no item is lost
   * or duplicated, no key appears twice, and every key of the inputs has its group.
   */
  lemma ReduceGroupsAreKeys<T>(key: T -> int, inputs: seq<seq<T>>, x: T)
    requires AllSorted(key, inputs)
    ensures x in Items(inputs) <==> exists i :: 0 <= i < |Groups(key, inputs)| && x in Groups(key, inputs)[i].items
    ensures forall i :: 0 <= i < |Groups(key, inputs)| && x in Groups(key, inputs)[i].items ==> Groups(key, inputs)[i].key == key(x)
  {
    var gs := Groups(key, inputs);
    GroupItemsMembers(gs, x);
    assert multiset(GroupItems(gs)) == Items(inputs);
    forall i | 0 <= i < |gs| && x in gs[i].items ensures gs[i].key == key(x) {
      assert Uniform(key, gs[i]);
    }
  }

  lemma {:induction false} GroupItemsMembers<T>(gs: seq<Group<T>>, x: T)
    ensures x in GroupItems(gs) <==> exists i :: 0 <= i < |gs| && x in gs[i].items
  {
    if gs != [] {
      GroupItemsMembers(gs[1..], x);
      if x in gs[0].items {
      } else if x in GroupItems(gs[1..]) {
        var i :| 0 <= i < |gs[1..]| && x in gs[1..][i].items;
        assert x in gs[i + 1].items;
      } else {
        forall i | 0 <= i < |gs| ensures x !in gs[i].items {
          if i > 0 {
            assert gs[i] == gs[1..][i - 1];
          }
        }
      }
    }
  }

  /** Unfolding `Reduce` once: the least key's result, then the results of what is left. */
  lemma ReduceUnfold<T, A, O>(key: T -> int, r: Reducer<T, A, O>, k: int, rests: seq<seq<T>>)
    requires AllSorted(key, rests) && MinHead(key, rests) == Some(k)
    ensures GroupOf(key, k, rests) != [] && AllSorted(key, AfterOf(key, k, rests))
    ensures TotalLen(AfterOf(key, k, rests)) < TotalLen(rests)
    ensures Reduce(key, r, rests) == [Emit(r, Group(k, GroupOf(key, k, rests)))] + Reduce(key, r, AfterOf(key, k, rests))
  {
    GroupsStep(key, k, rests);
    var gs := Groups(key, rests);
    assert gs[1..] == Groups(key, AfterOf(key, k, rests));
  }

  /** The result emitted for the folded group of the least key starts what is left of `Reduce`. */
  lemma ReduceStep<T, A, O>(key: T -> int, r: Reducer<T, A, O>, k: int, rests: seq<seq<T>>, acc: Option<A>)
    requires AllSorted(key, rests) && MinHead(key, rests) == Some(k)
    requires acc == FoldFrom(r, k, None, GroupOf(key, k, rests))
    ensures acc.Some? && AllSorted(key, AfterOf(key, k, rests))
    ensures TotalLen(AfterOf(key, k, rests)) < TotalLen(rests)
    ensures Reduce(key, r, rests) == [r.onComplete(acc.value)] + Reduce(key, r, AfterOf(key, k, rests))
  {
    ReduceUnfold(key, r, k, rests);
  }

  lemma AppendAssoc<O>(a: seq<O>, b: seq<O>, c: seq<O>)
    ensures (a + b) + c == a + (b + c)
  {
  }

  /** The least head key, scanning the cursors one by one. */
  method FindMin<T>(key: T -> int, rests: seq<seq<T>>) returns (m: Option<int>)
    ensures m == MinHead(key, rests)
  {
    m := None;
    var i := 0;
    while i < |rests|
      invariant 0 <= i <= |rests|
      invariant m == MinHead(key, rests[..i])
    {
      assert rests[..i + 1][..i] == rests[..i];
      m := Combine(key, m, rests[i]);
      i := i + 1;
    }
    assert rests[..|rests|] == rests;
  }

  /** Folds the key-k items at the head of one input into `acc`; `n` is how many were taken. */
  method FoldHead<T, A, O>(key: T -> int, r: Reducer<T, A, O>, k: int, acc0: Option<A>, s: seq<T>) returns (acc: Option<A>, n: nat)
    ensures n == |TakeKey(key, k, s)|
    ensures acc == FoldFrom(r, k, acc0, TakeKey(key, k, s))
  {
    acc := acc0;
    n := 0;
    while n < |s| && key(s[n]) == k
      invariant 0 <= n <= |s|
      invariant forall t :: 0 <= t < n ==> key(s[t]) == k
      invariant acc == FoldFrom(r, k, acc0, s[..n])
    {
      assert s[..n + 1][..n] == s[..n];
      acc := Some(Step(r, k, acc, s[n]));
      n := n + 1;
    }
    TakeKeyMaximal(key, k, s, n);
  }

  /** One more input adds its key-k prefix to the group and its remainder to what is left. */
  lemma GroupOfSnoc<T>(key: T -> int, k: int, rests: seq<seq<T>>, i: nat)
    requires i < |rests|
    ensures GroupOf(key, k, rests[..i + 1]) == GroupOf(key, k, rests[..i]) + TakeKey(key, k, rests[i])
    ensures AfterOf(key, k, rests[..i + 1]) == AfterOf(key, k, rests[..i]) + [DropKey(key, k, rests[i])]
  {
    assert rests[..i + 1][..i] == rests[..i];
  }

  /** Folds the key-k items of every input, input by input, and advances each cursor past them. */
  method FoldGroup<T, A, O>(key: T -> int, r: Reducer<T, A, O>, k: int, rests: seq<seq<T>>) returns (acc: Option<A>, next: seq<seq<T>>)
    ensures acc == FoldFrom(r, k, None, GroupOf(key, k, rests))
    ensures next == AfterOf(key, k, rests)
  {
    acc := None;
    next := [];
    var i := 0;
    while i < |rests|
      invariant 0 <= i <= |rests|
      invariant acc == FoldFrom(r, k, None, GroupOf(key, k, rests[..i]))
      invariant next == AfterOf(key, k, rests[..i])
    {
      GroupOfSnoc(key, k, rests, i);
      FoldFromAppend(r, k, None, GroupOf(key, k, rests[..i]), TakeKey(key, k, rests[i]));
      var n;
      acc, n := FoldHead(key, r, k, acc, rests[i]);
      next := next + [rests[i][n..]];
      i := i + 1;
    }
    assert rests[..|rests|] == rests;
  }

  /**
   * The merge with one cursor per input: find the least head key, fold the
   * key's items input by input, emit the result, and repeat.
   */
  method MergeReduce<T, A, O>(key: T -> int, r: Reducer<T, A, O>, inputs: seq<seq<T>>) returns (out: seq<O>)
    requires AllSorted(key, inputs)
    ensures out == Reduce(key, r, inputs)
  {
    var rests := inputs;
    out := [];
    assert out + Reduce(key, r, rests) == Reduce(key, r, inputs);
    while true
      invariant AllSorted(key, rests)
      invariant out + Reduce(key, r, rests) == Reduce(key, r, inputs)
      decreases TotalLen(rests)
    {
      var m := FindMin(key, rests);
      if m.None? {
        assert Groups(key, rests) == [];
        assert out + [] == out;
        break;
      }
      var k := m.value;
      var acc, next := FoldGroup(key, r, k, rests);
      ReduceStep(key, r, k, rests, acc);
      var result := r.onComplete(acc.value);
      AppendAssoc(out, [result], Reduce(key, r, next));
      out := out + [result];
      rests := next;
    }
  }

  /** Why a reducer could not be built: the source rejects a null key function or a null reducer. */
  datatype NullArgument = NullKeyFunction | NullReducer

  /** The key function and reducer every input of a `StreamReducerSimple` shares. */
  datatype Config<!T, !A, O> = Config(keyFunction: T -> int, reducer: Reducer<T, A, O>)

  /** The constructor's null checks: the reducer is checked first, then the key function. */
  function NewReducerSimple<T, A, O>(keyFunction: Option<T -> int>, reducer: Option<Reducer<T, A, O>>): (r: Result<Config<T, A, O>, NullArgument>)
    ensures r.Ok? <==> keyFunction.Some? && reducer.Some?
    ensures r.Ok? ==> r.value.keyFunction == keyFunction.value && r.value.reducer == reducer.value
    ensures reducer.None? ==> r == Err(NullReducer)
    ensures reducer.Some? && keyFunction.None? ==> r == Err(NullKeyFunction)
  {
    if reducer.None? then Err(NullReducer)
    else if keyFunction.None? then Err(NullKeyFunction)
    else Ok(Config(keyFunction.value, reducer.value))
  }

  /** A `StreamReducerSimple` and the inputs created on it so far. */
  class ReducerSimple<T, A, O> {
    const config: Config<T, A, O>
    var inputs: seq<Config<T, A, O>>

    /** Every input uses the reducer's own key function and reducer. */
    ghost predicate Valid()
      reads this
    {
      forall i :: 0 <= i < |inputs| ==> inputs[i] == config
    }

    constructor (config: Config<T, A, O>)
      ensures Valid() && this.config == config && inputs == []
    {
      this.config := config;
      inputs := [];
    }

    /** `newInput()`: a new input with the fixed key function and reducer; its index is returned. */
    method NewInput() returns (index: nat)
      requires Valid()
      modifies this
      ensures Valid()
      ensures inputs == old(inputs) + [config] && index == |old(inputs)|
    {
      index := |inputs|;
      inputs := inputs + [config];
    }
  }

  /** The outcome of a reducer run: the results and the status of every source. */
  datatype ReduceRun<O> = ReduceRun(out: seq<O>, sources: seq<Status>)

  /**
   * A reducer run. A consumer reacting to result `at` keeps the results up
   * to it; how many results precede a failing source is up to the
   * scheduler, given as `after`. After any error every source ends
   * CLOSED_WITH_ERROR, otherwise CLOSED.
   */
  function ReduceOf<T, A, O>(key: T -> int, r: Reducer<T, A, O>, inputs: seq<seq<T>>, sc: Scenario): (run: ReduceRun<O>)
    requires AllSorted(key, inputs)
    ensures var full := Reduce(key, r, inputs);
            |run.out| <= |full| && run.out == full[..|run.out|]
    ensures sc.Normal? ==> run.out == Reduce(key, r, inputs)
    ensures DownstreamFires(sc, |Reduce(key, r, inputs)|) ==> |run.out| == sc.at + 1
    ensures |run.sources| == |inputs|
    ensures forall i :: 0 <= i < |inputs| ==>
              run.sources[i] == if ErrorRun(sc, |Reduce(key, r, inputs)|) then ClosedWithError else Closed
  {
    CutRun(Reduce(key, r, inputs), |inputs|, sc)
  }

  /** What survives of the results `full` of a run with `sources` sources under scenario `sc`. */
  function CutRun<O>(full: seq<O>, sources: nat, sc: Scenario): (run: ReduceRun<O>)
    ensures |run.out| <= |full| && run.out == full[..|run.out|]
    ensures sc.Normal? ==> run.out == full
    ensures DownstreamFires(sc, |full|) ==> |run.out| == sc.at + 1
    ensures |run.sources| == sources
    ensures forall i :: 0 <= i < sources ==> run.sources[i] == if ErrorRun(sc, |full|) then ClosedWithError else Closed
  {
    var out := if sc.UpstreamError? then Take(full, sc.after) else DownstreamCut(full, sc);
    ReduceRun(out, seq(sources, _ => SourceStatus(sc, |full|)))
  }

  /** A single empty input gives no result, and its source ends CLOSED. */
  lemma ReduceEmpty<T, A, O>(key: T -> int, r: Reducer<T, A, O>)
    ensures ReduceOf(key, r, [[]], Normal) == ReduceRun([], [Closed])
  {
    assert Groups(key, [[]]) == [];
  }

  /** A source failing before any result: no output, and all three sources end CLOSED_WITH_ERROR. */
  lemma ReduceUpstreamErrorRun<T, A, O>(key: T -> int, r: Reducer<T, A, O>, inputs: seq<seq<T>>)
    requires AllSorted(key, inputs) && |inputs| == 3
    ensures ReduceOf(key, r, inputs, UpstreamError(0)) == ReduceRun([], [ClosedWithError, ClosedWithError, ClosedWithError])
  {
  }
}
