/**
 * The status lattice of a stream endpoint and the contract every producer
 * honours: suspend/resume, end-of-stream, close, close-with-error, the error
 * it carries, the completion listeners it notifies, and the one-partner
 * binding made by `streamTo`.
 */
module StreamStatus {
  import opened Base

  /** The five statuses of a stream endpoint. */
  datatype Status = Ready | Suspended | EndOfStream | Closed | ClosedWithError

  /** The byte code of each status: READY = 0 .. CLOSED_WITH_ERROR = 4. */
  function Code(s: Status): (b: int)
    ensures 0 <= b <= 4
    ensures s == Ready <==> b == 0
    ensures s == ClosedWithError <==> b == 4
  {
    match s
    case Ready => 0
    case Suspended => 1
    case EndOfStream => 2
    case Closed => 3
    case ClosedWithError => 4
  }

  /** The status a byte code denotes, if any. */
  function FromCode(b: int): (r: Option<Status>)
    ensures r.Some? <==> 0 <= b <= 4
    ensures r.Some? ==> Code(r.value) == b
  {
    if b == 0 then Some(Ready)
    else if b == 1 then Some(Suspended)
    else if b == 2 then Some(EndOfStream)
    else if b == 3 then Some(Closed)
    else if b == 4 then Some(ClosedWithError)
    else None
  }

  /** Decoding the code of a status gives the status back, so distinct statuses have distinct codes. */
  lemma CodeRoundTrip(s: Status)
    ensures FromCode(Code(s)) == Some(s)
  {
  }

  /** "Terminated or terminating" is the code comparison `status >= END_OF_STREAM`. */
  function IsTerminating(s: Status): (t: bool)
    ensures t <==> s == EndOfStream || s == Closed || s == ClosedWithError
  {
    Code(s) >= Code(EndOfStream)
  }

  /** The two final statuses: closed by the consumer, normally or with an error. */
  predicate IsClosed(s: Status) {
    s == Closed || s == ClosedWithError
  }

  /** What may happen to a producer endpoint. */
  datatype Event<E> =
    | Suspend
    | Resume
    | SendEndOfStream
    | Close
    | CloseWithError(err: E)
    | AddCompletionCallback(id: nat)

  /**
   * A producer endpoint: its status, the error it was closed with (the
   * nullable `getError`), the completion callbacks registered so far, and the
   * callbacks notified so far.
   */
  datatype Endpoint<E> = Endpoint(status: Status, error: Option<E>, listeners: seq<nat>, notified: seq<nat>)

  function Fresh<E>(): Endpoint<E> {
    Endpoint(Ready, None, [], [])
  }

  /** The reaction of the endpoint to one event. */
  function Apply<E>(ep: Endpoint<E>, ev: Event<E>): (r: Endpoint<E>)
    ensures IsClosed(ep.status) ==> r.status == ep.status && r.error == ep.error && r.notified == ep.notified
    ensures IsTerminating(ep.status) ==> Code(r.status) >= Code(ep.status)
    ensures r.listeners == ep.listeners + (if ev.AddCompletionCallback? then [ev.id] else [])
  {
    match ev
    case Suspend => if ep.status == Ready then ep.(status := Suspended) else ep
    case Resume => if ep.status == Suspended then ep.(status := Ready) else ep
    case SendEndOfStream => if IsTerminating(ep.status) then ep else ep.(status := EndOfStream)
    case Close => if IsClosed(ep.status) then ep else ep.(status := Closed, notified := ep.listeners)
    case CloseWithError(e) =>
      if IsClosed(ep.status) then ep else ep.(status := ClosedWithError, error := Some(e), notified := ep.listeners)
    case AddCompletionCallback(id) => ep.(listeners := ep.listeners + [id])
  }

  /** The endpoint after a sequence of events, starting fresh. */
  function Run<E>(evs: seq<Event<E>>): Endpoint<E> {
    if evs == [] then Fresh() else Apply(Run(evs[..|evs| - 1]), evs[|evs| - 1])
  }

  /** The ids of the completion callbacks registered by `evs`, in order. */
  function Registered<E>(evs: seq<Event<E>>): seq<nat> {
    if evs == [] then []
    else Registered(evs[..|evs| - 1]) + (if evs[|evs| - 1].AddCompletionCallback? then [evs[|evs| - 1].id] else [])
  }

  /** The error is present exactly when the endpoint was closed with an error, and nobody is notified before closing. */
  ghost predicate Valid<E>(ep: Endpoint<E>) {
    && (ep.error.Some? <==> ep.status == ClosedWithError)
    && (!IsClosed(ep.status) ==> ep.notified == [])
  }

  /** Every reachable endpoint keeps the listeners in registration order and is valid. */
  lemma {:induction false} RunValid<E>(evs: seq<Event<E>>)
    ensures Run(evs).listeners == Registered(evs)
    ensures Valid(Run(evs))
  {
    if evs != [] {
      RunValid(evs[..|evs| - 1]);
    }
  }

  /** Once closed, the status, the error and the notified callbacks never change again. */
  lemma {:induction false} ClosedIsFinal<E>(evs: seq<Event<E>>, k: nat)
    requires k <= |evs|
    requires IsClosed(Run(evs[..k]).status)
    ensures Run(evs).status == Run(evs[..k]).status
    ensures Run(evs).error == Run(evs[..k]).error
    ensures Run(evs).notified == Run(evs[..k]).notified
  {
    if k < |evs| {
      assert evs[..|evs| - 1][..k] == evs[..k];
      ClosedIsFinal(evs[..|evs| - 1], k);
      assert evs[..|evs|] == evs;
    } else {
      assert evs[..k] == evs;
    }
  }

  /**
   * The first close of an endpoint notifies exactly the callbacks registered
   * before it, each once, and fixes the status and the error for good: a
   * close-with-error leaves CLOSED_WITH_ERROR and its exception, a plain close
   * leaves CLOSED and no error.
   */
  lemma CloseNotifiesRegistered<E>(evs: seq<Event<E>>, k: nat)
    requires k < |evs|
    requires evs[k].Close? || evs[k].CloseWithError?
    requires !IsClosed(Run(evs[..k]).status)
    ensures Run(evs).notified == Registered(evs[..k])
    ensures Run(evs).status == if evs[k].Close? then Closed else ClosedWithError
    ensures Run(evs).error == if evs[k].Close? then None else Some(evs[k].err)
  {
    RunValid(evs[..k]);
    assert evs[..k + 1][..k] == evs[..k];
    ClosedIsFinal(evs, k + 1);
  }

  /** Once terminating, the status code never decreases again: a stream can only go on towards CLOSED. */
  lemma {:induction false} TerminatingIsMonotone<E>(evs: seq<Event<E>>, k: nat)
    requires k <= |evs|
    requires IsTerminating(Run(evs[..k]).status)
    ensures IsTerminating(Run(evs).status)
    ensures Code(Run(evs).status) >= Code(Run(evs[..k]).status)
  {
    if k < |evs| {
      assert evs[..|evs| - 1][..k] == evs[..k];
      TerminatingIsMonotone(evs[..|evs| - 1], k);
      assert evs[..|evs|] == evs;
    } else {
      assert evs[..k] == evs;
    }
  }

  /**
   * Which producer streams to which consumer: `downstream[p]` is the consumer
   * of producer p, `upstream[c]` the producer of consumer c.
   */
  datatype Topology = Topology(downstream: map<nat, nat>, upstream: map<nat, nat>)

  /** The two maps describe the same links, so every endpoint has at most one partner. */
  ghost predicate Consistent(t: Topology) {
    && (forall p :: p in t.downstream ==> t.downstream[p] in t.upstream && t.upstream[t.downstream[p]] == p)
    && (forall c :: c in t.upstream ==> t.upstream[c] in t.downstream && t.downstream[t.upstream[c]] == c)
  }

  /**
   * `p.streamTo(c)`: p is detached from its previous consumer, c from its
   * previous producer, and the two are linked.
   */
  function StreamTo(t: Topology, p: nat, c: nat): (r: Topology)
    ensures p in r.downstream && r.downstream[p] == c
    ensures c in r.upstream && r.upstream[c] == p
    ensures forall q :: q in r.downstream && q != p ==> q in t.downstream && r.downstream[q] == t.downstream[q]
    ensures Consistent(t) ==> Consistent(r)
  {
    var up := if p in t.downstream then t.upstream - {t.downstream[p]} else t.upstream;
    var down := if c in t.upstream then t.downstream - {t.upstream[c]} else t.downstream;
    Topology(down[p := c], up[c := p])
  }

  /** After `p.streamTo(c)`, p's old consumer and c's old producer have no partner left. */
  lemma StreamToDetaches(t: Topology, p: nat, c: nat)
    requires Consistent(t)
    ensures p in t.downstream && t.downstream[p] != c ==> t.downstream[p] !in StreamTo(t, p, c).upstream
    ensures c in t.upstream && t.upstream[c] != p ==> t.upstream[c] !in StreamTo(t, p, c).downstream
  {
  }
}
