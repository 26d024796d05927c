/**
 * The canned producers: `OfIterator` with its backpressure-aware push loop,
 * the one-shot producers `OfValue`, `EndOfStream`, `ClosingWithError` and
 * `Idle`, and `StreamProducerConcat`, which plays a sequence of producers one
 * after the other.
 */
module StreamProducers {
  import opened Base
  import opened StreamStatus

  /**
   * What the consumer does with something it has just received: nothing,
   * suspend the producer, close it (it wants no more), or close it with an
   * error.
   */
  datatype Reaction = Accept | SuspendIt | EndIt | FailIt

  /** The producer's status after the consumer's reaction. */
  function React(s: Status, r: Reaction): (t: Status)
    ensures r == Accept ==> t == s
    ensures IsClosed(s) ==> t == s
    ensures !IsClosed(s) && r == EndIt ==> t == Closed
    ensures !IsClosed(s) && r == FailIt ==> t == ClosedWithError
  {
    match r
    case Accept => s
    case SuspendIt => if s == Ready then Suspended else s
    case EndIt => if IsClosed(s) then s else Closed
    case FailIt => if IsClosed(s) then s else ClosedWithError
  }

  /** `sendEndOfStream()`: ignored by a terminating producer, otherwise END_OF_STREAM followed by the consumer's reaction. */
  function EndStatus(s: Status, onEnd: Reaction): (t: Status)
    ensures IsTerminating(t)
    ensures IsTerminating(s) ==> t == s
  {
    if IsTerminating(s) then s else React(EndOfStream, onEnd)
  }

  /**
   * The push loop of `OfIterator.doProduce` from iterator position `pos` and
   * status `s`, as a function: the position where it stops and the status
   * then. `react(i)` is the consumer's reaction to item number i.
   */
  function ProduceSpec<T>(items: seq<T>, pos: nat, s: Status, react: nat -> Reaction): (r: (nat, Status))
    requires pos <= |items|
    ensures pos <= r.0 <= |items|
    ensures r.0 < |items| ==> r.1 != Ready
    ensures s != Ready ==> r == (pos, s)
    ensures s == Ready && pos < |items| ==> r.0 > pos
    ensures IsClosed(s) ==> r.1 == s
    decreases |items| - pos
  {
    if pos == |items| then (pos, s)
    else if s != Ready then (pos, s)
    else ProduceSpec(items, pos + 1, React(s, react(pos)), react)
  }

  /** The loop delivers every item only while each earlier one was accepted: item i + 1 is sent only if item i met `Accept`. */
  lemma {:induction false} ProduceSendsOnlyWhileReady<T>(items: seq<T>, pos: nat, react: nat -> Reaction, i: nat)
    requires pos <= i && i + 1 < |items|
    requires i + 1 < ProduceSpec(items, pos, Ready, react).0
    ensures react(i) == Accept
    decreases |items| - pos
  {
    if i > pos {
      var next := React(Ready, react(pos));
      assert ProduceSpec(items, pos, Ready, react) == ProduceSpec(items, pos + 1, next, react);
      ProduceSendsOnlyWhileReady(items, pos + 1, react, i);
    }
  }

  /** A consumer that accepts everything receives every remaining item, and the producer stays READY. */
  lemma {:induction false} ProduceDeliversAll<T>(items: seq<T>, pos: nat, react: nat -> Reaction)
    requires pos <= |items|
    requires forall i :: pos <= i < |items| ==> react(i) == Accept
    ensures ProduceSpec(items, pos, Ready, react) == (|items|, Ready)
    decreases |items| - pos
  {
    if pos < |items| {
      ProduceDeliversAll(items, pos + 1, react);
    }
  }

  /**
   * `OfIterator`: an iterator over `items` (consumed up to `pos`) and the
   * items delivered so far. An item leaves the iterator only when it is sent.
   */
  class OfIterator<T> {
    const items: seq<T>
    const sendEndOfStream: bool
    var pos: nat
    var status: Status
    var delivered: seq<T>

    /** Exactly the items taken from the iterator have been delivered, in iterator order. */
    ghost predicate Valid()
      reads this
    {
      pos <= |items| && delivered == items[..pos]
    }

    /** `ofIterator(iterator, sendEndOfStream)`; `ofIterable` passes `sendEndOfStream = true`. */
    constructor (items: seq<T>, sendEndOfStream: bool)
      ensures Valid()
      ensures this.items == items && this.sendEndOfStream == sendEndOfStream
      ensures pos == 0 && status == Ready && delivered == []
    {
      this.items := items;
      this.sendEndOfStream := sendEndOfStream;
      pos := 0;
      status := Ready;
      delivered := [];
    }

    /**
     * `doProduce`: sends items in iterator order while the status is READY,
     * and returns at once when it is not; once the iterator is exhausted it
     * sends end-of-stream if `sendEndOfStream` is set.
     */
    method DoProduce(react: nat -> Reaction, onEnd: Reaction)
      requires Valid()
      modifies this
      ensures Valid()
      ensures old(pos) <= pos
      ensures var r := ProduceSpec(items, old(pos), old(status), react);
              pos == r.0 && status == (if pos == |items| && sendEndOfStream then EndStatus(r.1, onEnd) else r.1)
    {
      ghost var goal := ProduceSpec(items, pos, status, react);
      while true
        invariant Valid()
        invariant old(pos) <= pos
        invariant ProduceSpec(items, pos, status, react) == goal
        decreases |items| - pos
      {
        if pos == |items| {
          break;
        }
        if status != Ready {
          return;
        }
        var item := items[pos];
        assert items[..pos + 1] == items[..pos] + [item];
        pos := pos + 1;
        delivered := delivered + [item];
        status := React(status, react(pos - 1));
      }
      if sendEndOfStream {
        status := EndStatus(status, onEnd);
      }
    }

    /** `onResumed`: back to READY, then the push loop continues from the next unsent item. */
    method OnResumed(react: nat -> Reaction, onEnd: Reaction)
      requires Valid()
      modifies this
      ensures Valid()
      ensures old(pos) <= pos
      ensures delivered == old(delivered) + items[old(pos)..pos]
      ensures var s := if old(status) == Suspended then Ready else old(status);
              var r := ProduceSpec(items, old(pos), s, react);
              pos == r.0 && status == (if pos == |items| && sendEndOfStream then EndStatus(r.1, onEnd) else r.1)
    {
      if status == Suspended {
        status := Ready;
      }
      ghost var p0 := pos;
      DoProduce(react, onEnd);
      assert items[..pos] == items[..p0] + items[p0..pos];
    }
  }

  /**
   * What a run of a producer leaves behind: the items delivered, the final
   * status of the producer, and the error it was closed with.
   */
  datatype Outcome<T, E> = Outcome(delivered: seq<T>, status: Status, error: Option<E>)

  /** A whole `OfIterator` run from its start, as a function. */
  function IteratorRun<T, E>(items: seq<T>, sendEnd: bool, react: nat -> Reaction, onEnd: Reaction): Outcome<T, E> {
    var r := ProduceSpec(items, 0, Ready, react);
    Outcome(items[..r.0], if r.0 == |items| && sendEnd then EndStatus(r.1, onEnd) else r.1, None)
  }

  /** `ofIterable(list)` streamed to a list consumer delivers exactly `list` and ends CLOSED. */
  lemma OfIterableToList<T, E>(list: seq<T>)
    ensures IteratorRun<T, E>(list, true, _ => Accept, EndIt) == Outcome(list, Closed, None)
  {
    ProduceDeliversAll(list, 0, _ => Accept);
    assert list[..|list|] == list;
  }

  /** The one-shot producers. */
  datatype Canned<T, E> =
    | OfValue(value: T, sendEnd: bool)
    | EndOfStreamProducer
    | ClosingWithError(err: E)
    | Idle

  /** `ofValue(value)` closes by default. */
  function OfValueDefault<T, E>(value: T): (p: Canned<T, E>)
    ensures p.OfValue? && p.value == value && p.sendEnd
  {
    OfValue(value, true)
  }

  /**
   * `onProducerStarted` of a one-shot producer: `OfValue` sends its value and
   * then, if its flag is set, end-of-stream; `EndOfStream` only sends
   * end-of-stream; `ClosingWithError` closes with its exception; `Idle` does
   * nothing.
   */
  function Start<T, E>(p: Canned<T, E>, react: nat -> Reaction, onEnd: Reaction): (r: Outcome<T, E>)
    ensures p.OfValue? ==> r.delivered == [p.value]
    ensures !p.OfValue? ==> r.delivered == []
    ensures p.Idle? ==> r.status == Ready
    ensures p.EndOfStreamProducer? ==> IsTerminating(r.status)
    ensures p.ClosingWithError? ==> r.status == ClosedWithError && r.error == Some(p.err)
  {
    match p
    case OfValue(v, sendEnd) =>
      var s := React(Ready, react(0));
      Outcome([v], if sendEnd then EndStatus(s, onEnd) else s, None)
    case EndOfStreamProducer => Outcome([], EndStatus(Ready, onEnd), None)
    case ClosingWithError(e) => Outcome([], ClosedWithError, Some(e))
    case Idle => Outcome([], Ready, None)
  }

  /**
   * `OfValue`, `EndOfStream` and `Idle` behave as `OfIterator` over one value
   * or none, whatever the consumer does.
   */
  lemma CannedAsIterator<T, E>(v: T, sendEnd: bool, react: nat -> Reaction, onEnd: Reaction)
    ensures Start<T, E>(OfValue(v, sendEnd), react, onEnd) == IteratorRun([v], sendEnd, react, onEnd)
    ensures Start<T, E>(EndOfStreamProducer, react, onEnd) == IteratorRun([], true, react, onEnd)
    ensures Start<T, E>(Idle, react, onEnd) == IteratorRun([], false, react, onEnd)
  {
    assert ProduceSpec([v], 0, Ready, react) == ProduceSpec([v], 1, React(Ready, react(0)), react);
    assert [v][..1] == [v];
  }

  /** `ClosingWithError` leaves its endpoint exactly as a consumer's close-with-error would. */
  lemma ClosingWithErrorAsEndpoint<T, E>(e: E, react: nat -> Reaction, onEnd: Reaction)
    ensures Start<T, E>(ClosingWithError(e), react, onEnd).status == Run([CloseWithError(e)]).status
    ensures Start<T, E>(ClosingWithError(e), react, onEnd).error == Run([CloseWithError(e)]).error
  {
    assert [CloseWithError(e)][..0] == [];
  }

  /**
   * One step of the concat's asynchronous iterator: the next producer, which
   * delivers `items` and then ends normally or fails, or an iterator error.
   */
  datatype Piece<T, E> = Segment(items: seq<T>, failure: Option<E>) | IteratorError(err: E)

  predicate Fails<T, E>(p: Piece<T, E>) {
    p.IteratorError? || p.failure.Some?
  }

  function PieceItems<T, E>(p: Piece<T, E>): seq<T> {
    if p.Segment? then p.items else []
  }

  /** Every item the pieces hold, in order. */
  function AllItems<T, E>(pieces: seq<Piece<T, E>>): seq<T> {
    if pieces == [] then [] else PieceItems(pieces[0]) + AllItems(pieces[1..])
  }

  /**
   * The concat as a function: segments play in order, iterator end sends
   * end-of-stream, and the first failing piece stops the chain with its error.
   */
  function ConcatRun<T, E>(pieces: seq<Piece<T, E>>): (r: Outcome<T, E>)
    ensures r.status == EndOfStream || r.status == ClosedWithError
    ensures r.status == ClosedWithError <==> exists i :: 0 <= i < |pieces| && Fails(pieces[i])
    ensures r.error.Some? <==> r.status == ClosedWithError
    ensures |r.delivered| <= |AllItems(pieces)| && r.delivered == AllItems(pieces)[..|r.delivered|]
    ensures r.status == EndOfStream ==> r.delivered == AllItems(pieces)
  {
    if pieces == [] then Outcome([], EndOfStream, None)
    else
      var p := pieces[0];
      if p.IteratorError? then Outcome([], ClosedWithError, Some(p.err))
      else if p.failure.Some? then Outcome(p.items, ClosedWithError, p.failure)
      else
        var rest := ConcatRun(pieces[1..]);
        assert forall i :: 0 < i < |pieces| ==> pieces[i] == pieces[1..][i - 1];
        var all := AllItems(pieces[1..]);
        assert (p.items + all)[..|p.items| + |rest.delivered|] == p.items + all[..|rest.delivered|];
        Outcome(p.items + rest.delivered, rest.status, rest.error)
  }

  /** The concat from piece n on, one piece unrolled. */
  lemma ConcatRunFrom<T, E>(pieces: seq<Piece<T, E>>, n: nat)
    requires n < |pieces|
    ensures pieces[n..][1..] == pieces[n + 1..]
    ensures ConcatRun(pieces[n..]) ==
            match pieces[n]
            case IteratorError(e) => Outcome([], ClosedWithError, Some(e))
            case Segment(items, failure) =>
              if failure.Some? then Outcome(items, ClosedWithError, failure)
              else Outcome(items + ConcatRun(pieces[n + 1..]).delivered, ConcatRun(pieces[n + 1..]).status, ConcatRun(pieces[n + 1..]).error)
  {
    assert pieces[n..][1..] == pieces[n + 1..];
  }

  /** With every piece played, what was delivered is the whole concat, ended by end-of-stream. */
  lemma ConcatAtEnd<T, E>(rest: seq<Piece<T, E>>, d: seq<T>, whole: Outcome<T, E>)
    requires rest == []
    requires d + ConcatRun(rest).delivered == whole.delivered
    requires ConcatRun(rest).status == whole.status && ConcatRun(rest).error == whole.error
    ensures Outcome(d, EndOfStream, None) == whole
  {
    assert d + [] == d;
  }

  /** Playing the next piece keeps the running invariant of the concat, or finishes it with the piece's error. */
  lemma ConcatStep<T, E>(rest: seq<Piece<T, E>>, d: seq<T>, whole: Outcome<T, E>)
    requires rest != []
    requires d + ConcatRun(rest).delivered == whole.delivered
    requires ConcatRun(rest).status == whole.status && ConcatRun(rest).error == whole.error
    ensures rest[0].IteratorError? ==> Outcome(d, ClosedWithError, Some(rest[0].err)) == whole
    ensures rest[0].Segment? && rest[0].failure.Some? ==>
              Outcome(d + rest[0].items, ClosedWithError, rest[0].failure) == whole
    ensures rest[0].Segment? && rest[0].failure.None? ==>
              && (d + rest[0].items) + ConcatRun(rest[1..]).delivered == whole.delivered
              && ConcatRun(rest[1..]).status == whole.status
              && ConcatRun(rest[1..]).error == whole.error
  {
    if rest[0].IteratorError? {
      assert d + [] == d;
    } else if rest[0].failure.None? {
      var tail := ConcatRun(rest[1..]).delivered;
      assert d + (rest[0].items + tail) == (d + rest[0].items) + tail;
    }
  }

  /** Nothing after the first failing piece is ever delivered. */
  lemma {:induction false} ConcatStopsAtFirstFailure<T, E>(pieces: seq<Piece<T, E>>, k: nat)
    requires k < |pieces| && Fails(pieces[k])
    requires forall i :: 0 <= i < k ==> !Fails(pieces[i])
    ensures ConcatRun(pieces).delivered == AllItems(pieces[..k + 1])
    ensures ConcatRun(pieces).error == if pieces[k].IteratorError? then Some(pieces[k].err) else pieces[k].failure
  {
    if k == 0 {
      assert pieces[..1][1..] == [];
    } else {
      ConcatStopsAtFirstFailure(pieces[1..], k - 1);
      assert pieces[1..][..k] == pieces[..k + 1][1..];
    }
  }

  /** The concat of `ofValue(1)`, `ofValue(2)`, an error, then `ofValue(3)` delivers exactly 1 and 2 and ends CLOSED_WITH_ERROR. */
  lemma ConcatErrorExample<E>(e: E)
    ensures ConcatRun([Segment([1], None), Segment([2], None), Segment([], Some(e)), Segment([3], None)]) ==
            Outcome([1, 2], ClosedWithError, Some(e))
  {
    var pieces := [Segment([1], None), Segment([2], None), Segment([], Some(e)), Segment([3], None)];
    assert ConcatRun(pieces[2..]) == Outcome([], ClosedWithError, Some(e));
    assert ConcatRun(pieces[1..]) == Outcome([2], ClosedWithError, Some(e)) by {
      assert pieces[1..][1..] == pieces[2..];
    }
    assert pieces[1..] == pieces[1..];
  }

  /**
   * `StreamProducerConcat`: the position of its iterator over the pieces and
   * what it has delivered so far.
   */
  class Concat<T, E> {
    const pieces: seq<Piece<T, E>>
    var next: nat
    var delivered: seq<T>
    var status: Status
    var error: Option<E>

    /**
     * While running, what is delivered plus what the remaining pieces will
     * deliver is the whole concat; once finished, the state is the concat's outcome.
     */
    ghost predicate Valid()
      reads this
    {
      && next <= |pieces|
      && (status == Ready ==>
            && error == None
            && delivered + ConcatRun(pieces[next..]).delivered == ConcatRun(pieces).delivered
            && ConcatRun(pieces[next..]).status == ConcatRun(pieces).status
            && ConcatRun(pieces[next..]).error == ConcatRun(pieces).error)
      && (status != Ready ==> Outcome(delivered, status, error) == ConcatRun(pieces))
    }

    constructor (pieces: seq<Piece<T, E>>)
      ensures Valid() && this.pieces == pieces
      ensures next == 0 && delivered == [] && status == Ready
    {
      this.pieces := pieces;
      next := 0;
      delivered := [];
      status := Ready;
      error := None;
      assert pieces[0..] == pieces;
    }

    /**
     * `doNext`: take the next piece; a segment delivers its items and, when it
     * ends normally, its end-of-stream calls `doNext` again; iterator end
     * switches to end-of-stream; a failure switches to `ClosingWithError`.
     */
    method DoNext()
      requires Valid() && status == Ready
      modifies this
      ensures Valid()
      ensures status == Ready ==> next == old(next) + 1 && next <= |pieces| && !Fails(pieces[old(next)])
      ensures status == Ready ==> delivered == old(delivered) + PieceItems(pieces[old(next)])
      ensures status != Ready ==> Outcome(delivered, status, error) == ConcatRun(pieces)
    {
      if next == |pieces| {
        ConcatAtEnd(pieces[next..], delivered, ConcatRun(pieces));
        status := EndOfStream;
        return;
      }
      var p := pieces[next];
      ConcatStep(pieces[next..], delivered, ConcatRun(pieces));
      assert pieces[next..][1..] == pieces[next + 1..];
      next := next + 1;
      match p {
        case IteratorError(e) =>
          status := ClosedWithError;
          error := Some(e);
        case Segment(items, failure) =>
          delivered := delivered + items;
          if failure.Some? {
            status := ClosedWithError;
            error := failure;
          }
      }
    }
  }
}
