/**
 * The stream operators whose behaviour is fixed by their test suites: map,
 * filter, sharder, union and the left-outer merge join. Each is a function
 * from its input sequences to its outputs, together with the final status of
 * every source in four kinds of run: a normal run, a consumer that closes
 * with an error on some output, a consumer that closes (end-of-stream) on some
 * output, and a source that fails part-way.
 */
module StreamOperators {
  import opened Base
  import opened StreamStatus

  /**
   * How a run ends. `DownstreamError(at)` and `DownstreamEnd(at)`: the consumer
   * keeps output number `at` (counting from 0) and then closes its upstream
   * with an error, or closes it normally. `UpstreamError(after)`: a source
   * delivers `after` items and then fails.
   */
  datatype Scenario = Normal | DownstreamError(at: nat) | DownstreamEnd(at: nat) | UpstreamError(after: nat)

  /** The consumer's reaction takes effect only if output number `at` exists. */
  predicate DownstreamFires(sc: Scenario, outputs: nat) {
    (sc.DownstreamError? || sc.DownstreamEnd?) && sc.at < outputs
  }

  /** An error somewhere in the run: a failing source, or a consumer that closed with an error. */
  predicate ErrorRun(sc: Scenario, outputs: nat) {
    sc.UpstreamError? || (sc.DownstreamError? && sc.at < outputs)
  }

  /** What the consumer keeps: everything, or everything up to output `at` inclusive. */
  function DownstreamCut<U>(full: seq<U>, sc: Scenario): seq<U> {
    if sc.DownstreamError? || sc.DownstreamEnd? then Take(full, sc.at + 1) else full
  }

  /** The end-of-run status of a source: CLOSED_WITH_ERROR after an error, CLOSED otherwise. */
  function SourceStatus(sc: Scenario, outputs: nat): Status {
    if ErrorRun(sc, outputs) then ClosedWithError else Closed
  }

  /** The outcome of a run of a one-input, one-output operator. */
  datatype Run<U> = Run(out: seq<U>, source: Status)

  /** `StreamMap`: `f` applied element-wise, in order. */
  function MapRun<T, U>(f: T -> U, input: seq<T>, sc: Scenario): (r: Run<U>)
    ensures |r.out| <= |input| && r.out == MapSeq(f, input)[..|r.out|]
    ensures sc.Normal? ==> r.out == MapSeq(f, input)
    ensures DownstreamFires(sc, |input|) ==> |r.out| == sc.at + 1
    ensures sc.UpstreamError? ==> |r.out| == if sc.after <= |input| then sc.after else |input|
    ensures r.source == ClosedWithError <==> ErrorRun(sc, |input|)
    ensures r.source == Closed <==> !ErrorRun(sc, |input|)
  {
    match sc
    case UpstreamError(after) => Run(MapSeq(f, Take(input, after)), ClosedWithError)
    case _ => Run(DownstreamCut(MapSeq(f, input), sc), SourceStatus(sc, |input|))
  }

  /** A filtered prefix is a prefix of the filtered whole. */
  lemma FilterPrefix<T>(p: T -> bool, s: seq<T>, n: nat)
    requires n <= |s|
    ensures |Filter(p, s[..n])| <= |Filter(p, s)|
    ensures Filter(p, s[..n]) == Filter(p, s)[..|Filter(p, s[..n])|]
  {
    assert s == s[..n] + s[n..];
    FilterAppend(p, s[..n], s[n..]);
  }

  /** `StreamFilter`: the in-order subsequence of the items that satisfy `p`. */
  function FilterRun<T>(p: T -> bool, input: seq<T>, sc: Scenario): (r: Run<T>)
    ensures |r.out| <= |Filter(p, input)| && r.out == Filter(p, input)[..|r.out|]
    ensures sc.Normal? ==> r.out == Filter(p, input)
    ensures DownstreamFires(sc, |Filter(p, input)|) ==> |r.out| == sc.at + 1
    ensures sc.UpstreamError? && sc.after <= |input| ==> r.out == Filter(p, input[..sc.after])
    ensures r.source == ClosedWithError <==> ErrorRun(sc, |Filter(p, input)|)
    ensures r.source == Closed <==> !ErrorRun(sc, |Filter(p, input)|)
  {
    match sc
    case UpstreamError(after) =>
      FilterPrefix(p, input, if after <= |input| then after else |input|);
      assert input[..|input|] == input;
      Run(Filter(p, Take(input, after)), ClosedWithError)
    case _ =>
      var full := Filter(p, input);
      Run(DownstreamCut(full, sc), SourceStatus(sc, |full|))
  }

  function Plus10(x: int): int { x + 10 }

  predicate IsOdd(x: int) { x % 2 == 1 }

  /** The filter test's predicate `x % 2 != 2`, which holds of every integer. */
  predicate NotTwoModTwo(x: int) { x % 2 != 2 }

  function Parity(x: int): nat { x % 2 }

  /** The map tests: x + 10 over 1, 2, 3 in each kind of run. */
  lemma MapTestRuns()
    ensures MapRun(Plus10, [1, 2, 3], Normal) == Run([11, 12, 13], Closed)
    ensures MapRun(Plus10, [1, 2, 3], DownstreamError(1)) == Run([11, 12], ClosedWithError)
    ensures MapRun(Plus10, [1, 2, 3], DownstreamEnd(1)) == Run([11, 12], Closed)
    ensures MapRun(Plus10, [1, 2, 3], UpstreamError(2)) == Run([11, 12], ClosedWithError)
  {
    assert MapSeq(Plus10, [1, 2, 3]) == [11, 12, 13];
    assert MapSeq(Plus10, [1, 2]) == [11, 12];
    assert [1, 2, 3][..2] == [1, 2];
  }

  /** The filter tests: odd numbers of 1, 2, 3; and an always-true predicate over 1..5 cut at output 3. */
  lemma FilterTestRuns()
    ensures FilterRun(IsOdd, [1, 2, 3], Normal) == Run([1, 3], Closed)
  {
    OddOfTestInput();
  }

  lemma FilterTestCutRuns(s: seq<int>)
    requires s == [1, 2, 3, 4, 5]
    ensures FilterRun(NotTwoModTwo, s, DownstreamError(2)) == Run([1, 2, 3], ClosedWithError)
    ensures FilterRun(NotTwoModTwo, s, DownstreamEnd(2)) == Run([1, 2, 3], Closed)
    ensures FilterRun(NotTwoModTwo, s, UpstreamError(3)) == Run([1, 2, 3], ClosedWithError)
  {
    FilterAllTrue(s);
    FilterTestCut(s, DownstreamError(2));
    FilterTestCut(s, DownstreamEnd(2));
    FilterTestCut(s, UpstreamError(3));
  }

  /** Any of the three cut runs of the always-true filter over 1..5 keeps 1, 2, 3. */
  lemma FilterTestCut(s: seq<int>, sc: Scenario)
    requires s == [1, 2, 3, 4, 5] && Filter(NotTwoModTwo, s) == s
    requires sc == DownstreamError(2) || sc == DownstreamEnd(2) || sc == UpstreamError(3)
    ensures FilterRun(NotTwoModTwo, s, sc).out == [1, 2, 3]
  {
    if sc.UpstreamError? {
      FilterAllTrue(s[..3]);
      assert s[..3] == [1, 2, 3];
    }
  }

  lemma OddOfTestInput()
    ensures Filter(IsOdd, [1, 2, 3]) == [1, 3]
  {
    var s: seq<int> := [1, 2, 3];
    assert Filter(IsOdd, s[2..]) == [3];
    assert Filter(IsOdd, s[1..]) == [3] by { assert s[1..][1..] == s[2..]; }
  }

  lemma {:induction false} FilterAllTrue(s: seq<int>)
    ensures Filter(NotTwoModTwo, s) == s
  {
    if s != [] {
      FilterAllTrue(s[1..]);
      assert s == [s[0]] + s[1..];
    }
  }

  /**
   * The sharder's outputs after routing `s` item by item: each item is
   * appended to output number `shard(item)`.
   */
  function Shards<T>(shard: T -> nat, n: nat, s: seq<T>): (outs: seq<seq<T>>)
    requires forall i :: 0 <= i < |s| ==> shard(s[i]) < n
    ensures |outs| == n
  {
    if s == [] then seq(n, _ => [])
    else
      var outs := Shards(shard, n, s[..|s| - 1]);
      var x := s[|s| - 1];
      outs[shard(x) := outs[shard(x)] + [x]]
  }

  /** The multiset of all items held by a sequence of outputs. */
  function SumMultisets<T>(ss: seq<seq<T>>): multiset<T> {
    if ss == [] then multiset{} else multiset(ss[0]) + SumMultisets(ss[1..])
  }

  lemma {:induction false} SumMultisetsAppendAt<T>(ss: seq<seq<T>>, j: nat, x: T)
    requires j < |ss|
    ensures SumMultisets(ss[j := ss[j] + [x]]) == SumMultisets(ss) + multiset{x}
  {
    if j > 0 {
      assert ss[j := ss[j] + [x]][1..] == ss[1..][j - 1 := ss[1..][j - 1] + [x]];
      SumMultisetsAppendAt(ss[1..], j - 1, x);
    } else {
      assert ss[j := ss[j] + [x]][1..] == ss[1..];
    }
  }

  lemma {:induction false} SumMultisetsEmpty<T>(n: nat)
    ensures SumMultisets(seq<seq<T>>(n, _ => [])) == multiset{}
  {
    if n > 0 {
      assert seq<seq<T>>(n, _ => [])[1..] == seq<seq<T>>(n - 1, _ => []);
      SumMultisetsEmpty<T>(n - 1);
    }
  }

  /**
   * Output k of the sharder is exactly the in-order subsequence of the
   * items whose shard is k, and together the outputs hold every item once.
   */
  lemma ShardsPartition<T>(shard: T -> nat, n: nat, s: seq<T>)
    requires forall i :: 0 <= i < |s| ==> shard(s[i]) < n
    ensures forall k :: 0 <= k < n ==> Shards(shard, n, s)[k] == Filter(x => shard(x) == k, s)
    ensures SumMultisets(Shards(shard, n, s)) == multiset(s)
  {
    forall k | 0 <= k < n {
      ShardIsFilter(shard, n, s, k);
    }
    ShardsItems(shard, n, s);
  }

  /** Output k holds the in-order subsequence of items whose shard is k. */
  lemma {:induction false} ShardIsFilter<T>(shard: T -> nat, n: nat, s: seq<T>, k: nat)
    requires forall i :: 0 <= i < |s| ==> shard(s[i]) < n
    requires k < n
    ensures Shards(shard, n, s)[k] == Filter(x => shard(x) == k, s)
  {
    var p := (x: T) => shard(x) == k;
    if s != [] {
      var init := s[..|s| - 1];
      var x := s[|s| - 1];
      ShardIsFilter(shard, n, init, k);
      assert s == init + [x];
      FilterAppend(p, init, [x]);
      assert Filter(p, [x]) == (if p(x) then [x] else []) + Filter(p, []);
    }
  }

  /** Together the outputs hold every item exactly once. */
  lemma {:induction false} ShardsItems<T>(shard: T -> nat, n: nat, s: seq<T>)
    requires forall i :: 0 <= i < |s| ==> shard(s[i]) < n
    ensures SumMultisets(Shards(shard, n, s)) == multiset(s)
  {
    if s == [] {
      SumMultisetsEmpty<T>(n);
    } else {
      var init := s[..|s| - 1];
      var x := s[|s| - 1];
      ShardsItems(shard, n, init);
      assert s == init + [x];
      SumMultisetsAppendAt(Shards(shard, n, init), shard(x), x);
    }
  }

  /** The outcome of a sharder run: each output's items and the source's status. */
  datatype ShardRun<T> = ShardRun(outs: seq<seq<T>>, source: Status)

  /**
   * The input items a one-input operator takes in: all of them, those up to
   * and including the one the consumer reacts to, or those before the
   * source fails.
   */
  function Fed<T>(input: seq<T>, sc: Scenario): (fed: seq<T>)
    ensures |fed| <= |input| && fed == input[..|fed|]
    ensures !DownstreamFires(sc, |input|) && !sc.UpstreamError? ==> fed == input
    ensures DownstreamFires(sc, |input|) ==> |fed| == sc.at + 1
    ensures sc.UpstreamError? ==> |fed| == if sc.after <= |input| then sc.after else |input|
  {
    match sc
    case UpstreamError(after) => Take(input, after)
    case _ => DownstreamCut(input, sc)
  }

  /**
   * `StreamSharder`: a consumer reacting to the item at input index `at`
   * stops the sharder there, so the outputs share out what precedes it;
   * likewise a source that fails after `after` items. Output k is the
   * in-order subsequence of those items whose shard is k.
   */
  function SharderRun<T>(shard: T -> nat, n: nat, input: seq<T>, sc: Scenario): (r: ShardRun<T>)
    requires forall i :: 0 <= i < |input| ==> shard(input[i]) < n
    ensures |r.outs| == n
    ensures forall k :: 0 <= k < n ==> r.outs[k] == Filter(x => shard(x) == k, Fed(input, sc))
    ensures SumMultisets(r.outs) == multiset(Fed(input, sc))
    ensures r.source == ClosedWithError <==> ErrorRun(sc, |input|)
    ensures r.source == Closed <==> !ErrorRun(sc, |input|)
  {
    var fed := Fed(input, sc);
    assert forall i :: 0 <= i < |fed| ==> fed[i] == input[i];
    ShardsPartition(shard, n, fed);
    ShardRun(Shards(shard, n, fed), SourceStatus(sc, |input|))
  }

  /** The sharder tests: x % 2 over 1, 2, 3, 4 across two outputs. */
  lemma SharderTestRuns()
    ensures SharderRun(Parity, 2, [1, 2, 3, 4], Normal) == ShardRun([[2, 4], [1, 3]], Closed)
    ensures SharderRun(Parity, 2, [1, 2, 3, 4], DownstreamError(2)) == ShardRun([[2], [1, 3]], ClosedWithError)
    ensures SharderRun(Parity, 2, [1, 2, 3, 4], DownstreamEnd(2)) == ShardRun([[2], [1, 3]], Closed)
    ensures SharderRun(Parity, 2, [1, 2, 3, 4], UpstreamError(3)) == ShardRun([[2], [1, 3]], ClosedWithError)
  {
    ShardsOfTestInput();
    FedOfTestInput();
  }

  lemma FedOfTestInput()
    ensures Fed([1, 2, 3, 4], Normal) == [1, 2, 3, 4]
    ensures Fed([1, 2, 3, 4], DownstreamError(2)) == [1, 2, 3]
    ensures Fed([1, 2, 3, 4], DownstreamEnd(2)) == [1, 2, 3]
    ensures Fed([1, 2, 3, 4], UpstreamError(3)) == [1, 2, 3]
  {
    assert [1, 2, 3, 4][..3] == [1, 2, 3];
  }

  lemma ShardsOfTestInput()
    ensures Shards(Parity, 2, [1, 2, 3]) == [[2], [1, 3]]
    ensures Shards(Parity, 2, [1, 2, 3, 4]) == [[2, 4], [1, 3]]
  {
    var o2: seq<seq<int>> := [[2], [1]];
    var o3: seq<seq<int>> := [[2], [1, 3]];
    var o4: seq<seq<int>> := [[2, 4], [1, 3]];
    ShardsOfTestPrefix();
    ShardsSnoc(Parity, 2, [1, 2], 3);
    assert [1, 2] + [3] == [1, 2, 3];
    assert o2[1] + [3] == [1, 3];
    assert o2[1 := [1, 3]] == o3;
    ShardsSnoc(Parity, 2, [1, 2, 3], 4);
    assert [1, 2, 3] + [4] == [1, 2, 3, 4];
    assert o3[0] + [4] == [2, 4];
    assert o3[0 := [2, 4]] == o4;
  }

  lemma ShardsOfTestPrefix()
    ensures Shards(Parity, 2, [1, 2]) == [[2], [1]]
  {
    var e: seq<int> := [];
    var o0: seq<seq<int>> := [[], []];
    var o1: seq<seq<int>> := [[], [1]];
    var o2: seq<seq<int>> := [[2], [1]];
    assert Shards(Parity, 2, e) == o0;
    ShardsSnoc(Parity, 2, e, 1);
    assert e + [1] == [1];
    assert o0[1] + [1] == [1];
    assert o0[1 := [1]] == o1;
    assert Shards(Parity, 2, [1]) == o1;
    ShardsSnoc(Parity, 2, [1], 2);
    assert [1] + [2] == [1, 2];
    assert o1[0] + [2] == [2];
    assert o1[0 := [2]] == o2;
  }

  lemma ShardsSnoc<T>(shard: T -> nat, n: nat, s: seq<T>, x: T)
    requires forall i :: 0 <= i < |s| ==> shard(s[i]) < n
    requires shard(x) < n
    ensures Shards(shard, n, s + [x]) == Shards(shard, n, s)[shard(x) := Shards(shard, n, s)[shard(x)] + [x]]
  {
    assert (s + [x])[..|s|] == s;
  }

  /** How many items each input of a union delivered before the run was cut, as the scheduler chose. */
  predicate Progress<T>(inputs: seq<seq<T>>, got: seq<nat>) {
    |got| == |inputs| && forall i :: 0 <= i < |got| ==> got[i] <= |inputs[i]|
  }

  function Total(got: seq<nat>): nat {
    if got == [] then 0 else got[0] + Total(got[1..])
  }

  /** The multiset of the first `got[i]` items of every input i. */
  function SumPrefixes<T>(inputs: seq<seq<T>>, got: seq<nat>): (m: multiset<T>)
    requires Progress(inputs, got)
    ensures |m| == Total(got)
    ensures m <= SumMultisets(inputs)
  {
    if inputs == [] then multiset{}
    else
      var rest := SumPrefixes(inputs[1..], got[1..]);
      assert inputs[0] == inputs[0][..got[0]] + inputs[0][got[0]..];
      multiset(inputs[0][..got[0]]) + rest
  }

  /** The number of items of all inputs together. */
  function Size<T>(inputs: seq<seq<T>>): nat {
    if inputs == [] then 0 else |inputs[0]| + Size(inputs[1..])
  }

  /** The union of the inputs holds as many items as the inputs together. */
  lemma {:induction false} SizeIsCount<T>(inputs: seq<seq<T>>)
    ensures |SumMultisets(inputs)| == Size(inputs)
  {
    if inputs != [] {
      SizeIsCount(inputs[1..]);
    }
  }

  /** The outcome of a union run: the multiset of the items output, and the status of every input. */
  datatype UnionRun<T> = UnionRun(out: multiset<T>, sources: seq<Status>)

  /**
   * `StreamUnion`: the output is the multiset union of the inputs; their
   * interleaving is left to the scheduler, so a cut run outputs the first
   * `got[i]` items of each input i, as many as the run outputs: up to the
   * output the consumer reacts to, or the `after` items before a source
   * fails. An error anywhere ends every input CLOSED_WITH_ERROR; otherwise
   * every input, even an empty one, ends CLOSED.
   */
  function UnionOf<T>(inputs: seq<seq<T>>, got: seq<nat>, sc: Scenario): (r: UnionRun<T>)
    requires Progress(inputs, got)
    requires DownstreamFires(sc, Size(inputs)) ==> Total(got) == sc.at + 1
    requires sc.UpstreamError? ==> Total(got) == if sc.after <= Size(inputs) then sc.after else Size(inputs)
    ensures |r.sources| == |inputs|
    ensures r.out <= SumMultisets(inputs)
    ensures !DownstreamFires(sc, Size(inputs)) && !sc.UpstreamError? ==> r.out == SumMultisets(inputs)
    ensures DownstreamFires(sc, Size(inputs)) ==> |r.out| == sc.at + 1
    ensures sc.UpstreamError? ==> |r.out| == if sc.after <= Size(inputs) then sc.after else Size(inputs)
    ensures forall i :: 0 <= i < |inputs| ==>
              r.sources[i] == if ErrorRun(sc, Size(inputs)) then ClosedWithError else Closed
  {
    var cut := DownstreamFires(sc, Size(inputs)) || sc.UpstreamError?;
    var status := SourceStatus(sc, Size(inputs));
    UnionRun(if cut then SumPrefixes(inputs, got) else SumMultisets(inputs), seq(|inputs|, _ => status))
  }

  /** The union test: inputs [], [1], [2, 3], [], [4, 5], [6], [] give 1..6, and every input ends CLOSED. */
  lemma UnionTestRun()
    ensures var r := UnionOf([[], [1], [2, 3], [], [4, 5], [6], []], [0, 0, 0, 0, 0, 0, 0], Normal);
            r.out == multiset([1, 2, 3, 4, 5, 6]) && |r.sources| == 7 &&
            forall i :: 0 <= i < 7 ==> r.sources[i] == Closed
  {
    UnionTestSum();
  }

  lemma UnionTestSum()
    ensures SumMultisets([[], [1], [2, 3], [], [4, 5], [6], []]) == multiset([1, 2, 3, 4, 5, 6])
  {
    var i6: seq<seq<int>> := [[]];
    var i5, i4, i3 := [[6]] + i6, [[4, 5]] + ([[6]] + i6), [[]] + ([[4, 5]] + ([[6]] + i6));
    var i2 := [[2, 3]] + i3;
    var i1 := [[1]] + i2;
    var i0 := [[]] + i1;
    assert i6[1..] == [] && i5[1..] == i6 && i4[1..] == i5 && i3[1..] == i4;
    assert i2[1..] == i3 && i1[1..] == i2 && i0[1..] == i1;
    assert Flatten(i6) == [];
    assert Flatten(i5) == [6];
    assert Flatten(i4) == [4, 5] + [6];
    assert Flatten(i3) == [4, 5, 6];
    assert Flatten(i2) == [2, 3] + [4, 5, 6];
    assert Flatten(i1) == [1] + [2, 3, 4, 5, 6];
    assert Flatten(i0) == [1, 2, 3, 4, 5, 6];
    assert i0 == [[], [1], [2, 3], [], [4, 5], [6], []];
    SumMultisetsFlatten(i0);
  }

  /**
   * The union error tests: inputs [1, 2, 3], [4, 5], [6, 7] and a consumer
   * reacting to item 5, the fourth output, after the first two items of
   * each of the first two inputs. An error there leaves four items and ends
   * every input CLOSED_WITH_ERROR; an end there leaves the same four items
   * and ends every input CLOSED.
   */
  lemma UnionTestCutRuns()
    ensures var e := UnionOf([[1, 2, 3], [4, 5], [6, 7]], [2, 2, 0], DownstreamError(3));
            |e.out| == 4 && e.sources == [ClosedWithError, ClosedWithError, ClosedWithError]
    ensures var d := UnionOf([[1, 2, 3], [4, 5], [6, 7]], [2, 2, 0], DownstreamEnd(3));
            |d.out| == 4 && d.sources == [Closed, Closed, Closed]
  {
    UnionTestCut();
    UnionCutRun([[1, 2, 3], [4, 5], [6, 7]], [2, 2, 0], DownstreamError(3));
    UnionCutRun([[1, 2, 3], [4, 5], [6, 7]], [2, 2, 0], DownstreamEnd(3));
  }

  /** A run of three inputs cut by the consumer. */
  lemma UnionCutRun<T>(inputs: seq<seq<T>>, got: seq<nat>, sc: Scenario)
    requires sc.DownstreamError? || sc.DownstreamEnd?
    requires |inputs| == 3 && Progress(inputs, got) && sc.at < Size(inputs)
    requires Total(got) == sc.at + 1
    ensures var r := UnionOf(inputs, got, sc);
            |r.out| == sc.at + 1 &&
            r.sources == if sc.DownstreamError? then [ClosedWithError, ClosedWithError, ClosedWithError]
                         else [Closed, Closed, Closed]
  {
    var r := UnionOf(inputs, got, sc);
    assert r.sources[0] == r.sources[1] == r.sources[2];
  }

  lemma UnionTestCut()
    ensures Progress([[1, 2, 3], [4, 5], [6, 7]], [2, 2, 0])
    ensures Size([[1, 2, 3], [4, 5], [6, 7]]) == 7 && Total([2, 2, 0]) == 4
  {
  }

  /**
   * The union producer-error test: inputs delivering 1, 2 and 7, 8, 9 before
   * their sources fail; the run outputs three items and both inputs end
   * CLOSED_WITH_ERROR.
   */
  lemma UnionTestProducerError()
    ensures var r := UnionOf([[1, 2], [7, 8, 9]], [2, 1], UpstreamError(3));
            |r.out| == 3 && r.sources == [ClosedWithError, ClosedWithError]
  {
    UnionTestProducerCut();
  }

  lemma UnionTestProducerCut()
    ensures Progress([[1, 2], [7, 8, 9]], [2, 1])
    ensures Size([[1, 2], [7, 8, 9]]) == 5 && Total([2, 1]) == 3
  {
  }

  /** The multiset union of the inputs is the multiset of their concatenation. */
  lemma {:induction false} SumMultisetsFlatten<T>(ss: seq<seq<T>>)
    ensures SumMultisets(ss) == multiset(Flatten(ss))
  {
    if ss != [] {
      SumMultisetsFlatten(ss[1..]);
    }
  }

  /** Keys ascend along `s`. */
  ghost predicate SortedBy<T>(key: T -> int, s: seq<T>) {
    forall i, j :: 0 <= i < j < |s| ==> key(s[i]) <= key(s[j])
  }

  /** The first right item with key `k`, if any. */
  function FirstMatch<R>(rightKey: R -> int, right: seq<R>, k: int): (m: Option<R>)
    ensures m.Some? ==> m.value in right && rightKey(m.value) == k
    ensures m.None? ==> forall j :: 0 <= j < |right| ==> rightKey(right[j]) != k
  {
    if right == [] then None
    else if rightKey(right[0]) == k then Some(right[0])
    else FirstMatch(rightKey, right[1..], k)
  }

  /**
   * The join as specified: one row per left item, in left order, the inner
   * join with its first matching right item, or the left join when there is none.
   */
  function JoinSpec<L, R, O>(leftKey: L -> int, rightKey: R -> int, inner: (int, L, R) -> O, leftJoin: (int, L) -> O,
                             left: seq<L>, right: seq<R>): (rows: seq<O>)
    ensures |rows| == |left|
  {
    if left == [] then []
    else
      var k := leftKey(left[0]);
      var m := FirstMatch(rightKey, right, k);
      [if m.Some? then inner(k, left[0], m.value) else leftJoin(k, left[0])] +
      JoinSpec(leftKey, rightKey, inner, leftJoin, left[1..], right)
  }

  /**
   * `StreamJoin` over two inputs sorted by key: a sorted merge that
   * advances the left input on equal keys, so several left items can match
   * one right item.
   */
  function MergeJoin<L, R, O>(leftKey: L -> int, rightKey: R -> int, inner: (int, L, R) -> O, leftJoin: (int, L) -> O,
                              left: seq<L>, right: seq<R>): seq<O>
    decreases |left| + |right|
  {
    if left == [] then []
    else
      var k := leftKey(left[0]);
      if right == [] || k < rightKey(right[0]) then
        [leftJoin(k, left[0])] + MergeJoin(leftKey, rightKey, inner, leftJoin, left[1..], right)
      else if k == rightKey(right[0]) then
        [inner(k, left[0], right[0])] + MergeJoin(leftKey, rightKey, inner, leftJoin, left[1..], right)
      else
        MergeJoin(leftKey, rightKey, inner, leftJoin, left, right[1..])
  }

  /** Dropping right items whose key is below every left key changes no row of the specified join. */
  lemma {:induction false} JoinSpecDropSmallRight<L, R, O>(leftKey: L -> int, rightKey: R -> int, inner: (int, L, R) -> O,
                                                          leftJoin: (int, L) -> O, left: seq<L>, right: seq<R>)
    requires right != []
    requires forall i :: 0 <= i < |left| ==> rightKey(right[0]) < leftKey(left[i])
    ensures JoinSpec(leftKey, rightKey, inner, leftJoin, left, right) == JoinSpec(leftKey, rightKey, inner, leftJoin, left, right[1..])
  {
    if left != [] {
      JoinSpecDropSmallRight(leftKey, rightKey, inner, leftJoin, left[1..], right);
    }
  }

  /** The merge computes the specified join whenever both inputs are sorted by key. */
  lemma {:induction false} MergeJoinMeetsSpec<L, R, O>(leftKey: L -> int, rightKey: R -> int, inner: (int, L, R) -> O,
                                                      leftJoin: (int, L) -> O, left: seq<L>, right: seq<R>)
    requires SortedBy(leftKey, left) && SortedBy(rightKey, right)
    ensures MergeJoin(leftKey, rightKey, inner, leftJoin, left, right) == JoinSpec(leftKey, rightKey, inner, leftJoin, left, right)
    decreases |left| + |right|
  {
    if left != [] {
      var k := leftKey(left[0]);
      if right == [] || k < rightKey(right[0]) {
        if right != [] {
          assert FirstMatch(rightKey, right, k).None? by {
            forall j | 0 <= j < |right| ensures rightKey(right[j]) != k {
              assert rightKey(right[0]) <= rightKey(right[j]);
            }
          }
        }
        MergeJoinMeetsSpec(leftKey, rightKey, inner, leftJoin, left[1..], right);
      } else if k == rightKey(right[0]) {
        MergeJoinMeetsSpec(leftKey, rightKey, inner, leftJoin, left[1..], right);
      } else {
        forall i | 0 <= i < |left| ensures rightKey(right[0]) < leftKey(left[i]) {
          assert leftKey(left[0]) <= leftKey(left[i]);
        }
        JoinSpecDropSmallRight(leftKey, rightKey, inner, leftJoin, left, right);
        MergeJoinMeetsSpec(leftKey, rightKey, inner, leftJoin, left, right[1..]);
      }
    }
  }

  /** The rows of a left prefix are the same prefix of the rows. */
  lemma {:induction false} JoinSpecPrefix<L, R, O>(leftKey: L -> int, rightKey: R -> int, inner: (int, L, R) -> O,
                                                  leftJoin: (int, L) -> O, left: seq<L>, right: seq<R>, n: nat)
    requires n <= |left|
    ensures JoinSpec(leftKey, rightKey, inner, leftJoin, left[..n], right) == JoinSpec(leftKey, rightKey, inner, leftJoin, left, right)[..n]
  {
    if n > 0 {
      assert left[..n][1..] == left[1..][..n - 1];
      JoinSpecPrefix(leftKey, rightKey, inner, leftJoin, left[1..], right, n - 1);
    }
  }

  /** The outcome of a join run: the rows and the status of the left and the right source. */
  datatype JoinRun<O> = JoinRun(rows: seq<O>, left: Status, right: Status)

  /**
   * A join run over sorted inputs. `UpstreamError(after)` is a left source
   * that fails after `after` items; the rows are then those of that prefix.
   */
  function JoinOf<L, R, O>(leftKey: L -> int, rightKey: R -> int, inner: (int, L, R) -> O, leftJoin: (int, L) -> O,
                           left: seq<L>, right: seq<R>, sc: Scenario): (r: JoinRun<O>)
    requires SortedBy(leftKey, left) && SortedBy(rightKey, right)
    ensures var full := JoinSpec(leftKey, rightKey, inner, leftJoin, left, right);
            |r.rows| <= |full| && r.rows == full[..|r.rows|]
    ensures sc.Normal? ==> r.rows == JoinSpec(leftKey, rightKey, inner, leftJoin, left, right)
    ensures DownstreamFires(sc, |left|) ==> |r.rows| == sc.at + 1
    ensures sc.UpstreamError? ==> |r.rows| == if sc.after <= |left| then sc.after else |left|
    ensures r.left == r.right
    ensures r.left == ClosedWithError <==> ErrorRun(sc, |left|)
    ensures r.left == Closed <==> !ErrorRun(sc, |left|)
  {
    MergeJoinMeetsSpec(leftKey, rightKey, inner, leftJoin, left, right);
    var status := SourceStatus(sc, |left|);
    match sc
    case UpstreamError(after) =>
      var n := if after <= |left| then after else |left|;
      assert SortedBy(leftKey, left[..n]);
      MergeJoinMeetsSpec(leftKey, rightKey, inner, leftJoin, left[..n], right);
      JoinSpecPrefix(leftKey, rightKey, inner, leftJoin, left, right, n);
      JoinRun(MergeJoin(leftKey, rightKey, inner, leftJoin, left[..n], right), status, status)
    case _ =>
      JoinRun(DownstreamCut(MergeJoin(leftKey, rightKey, inner, leftJoin, left, right), sc), status, status)
  }

  /** The rows of the join test: a master item, a detail item and their joined row. */
  datatype Master = Master(id: int, detailId: int, master: string)
  datatype Detail = Detail(id: int, detail: string)
  datatype MasterDetail = MasterDetail(id: int, detailId: int, master: string, detail: Option<string>)

  function MasterKey(m: Master): int { m.detailId }
  function DetailKey(d: Detail): int { d.id }
  function InnerJoin(k: int, m: Master, d: Detail): MasterDetail { MasterDetail(m.id, m.detailId, m.master, Some(d.detail)) }
  function LeftJoin(k: int, m: Master): MasterDetail { MasterDetail(m.id, m.detailId, m.master, None) }

  /** The join test: five masters against two details give five rows, the unmatched one with no detail. */
  lemma JoinTestRun(left: seq<Master>, right: seq<Detail>)
    requires left == [Master(10, 10, "masterA"), Master(20, 10, "masterB"), Master(25, 15, "masterB+"),
                      Master(30, 20, "masterC"), Master(40, 20, "masterD")]
    requires right == [Detail(10, "detailX"), Detail(20, "detailY")]
    ensures SortedBy(MasterKey, left) && SortedBy(DetailKey, right)
    ensures JoinOf(MasterKey, DetailKey, InnerJoin, LeftJoin, left, right, Normal) ==
            JoinRun([MasterDetail(10, 10, "masterA", Some("detailX")), MasterDetail(20, 10, "masterB", Some("detailX")),
                     MasterDetail(25, 15, "masterB+", None), MasterDetail(30, 20, "masterC", Some("detailY")),
                     MasterDetail(40, 20, "masterD", Some("detailY"))], Closed, Closed)
  {
    assert FirstMatch(DetailKey, right, 10) == Some(right[0]);
    assert FirstMatch(DetailKey, right, 15) == None by {
      assert FirstMatch(DetailKey, right[1..], 15) == None by { assert right[1..][1..] == []; }
    }
    assert FirstMatch(DetailKey, right, 20) == Some(right[1]);
    var rows := [MasterDetail(10, 10, "masterA", Some("detailX")), MasterDetail(20, 10, "masterB", Some("detailX")),
                 MasterDetail(25, 15, "masterB+", None), MasterDetail(30, 20, "masterC", Some("detailY")),
                 MasterDetail(40, 20, "masterD", Some("detailY"))];
    assert JoinSpec(MasterKey, DetailKey, InnerJoin, LeftJoin, left[5..], right) == [];
    assert JoinSpec(MasterKey, DetailKey, InnerJoin, LeftJoin, left[4..], right) == rows[4..] by { assert left[4..][1..] == left[5..]; }
    assert JoinSpec(MasterKey, DetailKey, InnerJoin, LeftJoin, left[3..], right) == rows[3..] by { assert left[3..][1..] == left[4..]; }
    assert JoinSpec(MasterKey, DetailKey, InnerJoin, LeftJoin, left[2..], right) == rows[2..] by { assert left[2..][1..] == left[3..]; }
    assert JoinSpec(MasterKey, DetailKey, InnerJoin, LeftJoin, left[1..], right) == rows[1..] by { assert left[1..][1..] == left[2..]; }
    assert JoinSpec(MasterKey, DetailKey, InnerJoin, LeftJoin, left, right) == rows;
  }
}
