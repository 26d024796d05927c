/**
 * The stateless one-to-one transformer: it passes backpressure and
 * end-of-stream across itself, and its subclasses only transform items.
 */
module StreamTransformer {
  import opened Base
  import opened StreamStatus

  /**
   * A transformer between an upstream producer and a downstream consumer:
   * `upstream` is the producer it reads from, `downstream` its own producer
   * side, which its consumer suspends, resumes and closes.
   */
  class Stateless<E> {
    var upstream: Endpoint<E>
    var downstream: Endpoint<E>

    /** While both sides are still running, the upstream is suspended exactly when the downstream is. */
    ghost predicate InStep()
      reads this
    {
      !IsTerminating(upstream.status) && !IsTerminating(downstream.status) ==>
        (upstream.status == Suspended <==> downstream.status == Suspended)
    }

    constructor ()
      ensures InStep()
      ensures upstream == Fresh() && downstream == Fresh()
    {
      upstream := Fresh();
      downstream := Fresh();
    }

    /** `onSuspended`: the consumer suspended the transformer, which suspends its upstream. */
    method OnSuspended()
      requires InStep()
      modifies this
      ensures InStep()
      ensures downstream == Apply(old(downstream), Suspend)
      ensures upstream == Apply(old(upstream), Suspend)
    {
      downstream := Apply(downstream, Suspend);
      upstream := Apply(upstream, Suspend);
    }

    /** `onResumed`: the consumer resumed the transformer, which resumes its upstream. */
    method OnResumed()
      requires InStep()
      modifies this
      ensures InStep()
      ensures downstream == Apply(old(downstream), Resume)
      ensures upstream == Apply(old(upstream), Resume)
    {
      downstream := Apply(downstream, Resume);
      upstream := Apply(upstream, Resume);
    }

    /** `onEndOfStream`: the upstream ended, and the transformer sends end-of-stream downstream. */
    method OnEndOfStream()
      requires InStep()
      modifies this
      ensures InStep()
      ensures upstream == Apply(old(upstream), SendEndOfStream)
      ensures downstream == Apply(old(downstream), SendEndOfStream)
      ensures IsTerminating(upstream.status) && IsTerminating(downstream.status)
    {
      upstream := Apply(upstream, SendEndOfStream);
      downstream := Apply(downstream, SendEndOfStream);
    }
  }

  /** The longest string the example transformer lets through is one shorter than this. */
  const MaxLength: nat := 10

  /** The example transformer's `onData`: the length of a short string, nothing for a long one. */
  function ExampleOnData(s: string): (r: Option<nat>)
    ensures r.Some? <==> |s| < MaxLength
    ensures r.Some? ==> r.value == |s|
  {
    if |s| < MaxLength then Some(|s|) else None
  }

  /** The example transformer over a whole stream, item by item. */
  function ExampleTransform(input: seq<string>): (out: seq<nat>)
    ensures |out| <= |input|
    ensures forall n :: n in out ==> n < MaxLength
  {
    if input == [] then []
    else
      var head := ExampleOnData(input[0]);
      (if head.Some? then [head.value] else []) + ExampleTransform(input[1..])
  }

  function Length(s: string): nat { |s| }

  predicate IsShort(s: string) { |s| < MaxLength }

  /** The example transformer keeps the order of its input: it is the lengths of the short strings, in order. */
  lemma {:induction false} ExampleIsFilterThenMap(input: seq<string>)
    ensures ExampleTransform(input) == MapSeq(Length, Filter(IsShort, input))
  {
    if input != [] {
      ExampleIsFilterThenMap(input[1..]);
      var head := if IsShort(input[0]) then [input[0]] else [];
      assert Filter(IsShort, input) == head + Filter(IsShort, input[1..]);
      MapSeqAppend(Length, head, Filter(IsShort, input[1..]));
    }
  }

  /** "testdata", "testdata1" and "testdata1000" give 8 and 9; the long string is dropped. */
  lemma ExampleRun()
    ensures ExampleTransform(["testdata", "testdata1", "testdata1000"]) == [8, 9]
  {
    var input := ["testdata", "testdata1", "testdata1000"];
    assert input[1..][1..][1..] == [];
    assert ExampleTransform(input[1..][1..]) == [];
    assert ExampleTransform(input[1..]) == [9];
  }
}
