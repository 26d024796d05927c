/**
 * A completion callback with a timeout: it forwards the first of completion,
 * failure or timeout to the wrapped callback, and nothing after that. The
 * timer task is a scheduled runnable; cancelling the wrapped callback
 * cancels the wrapper and the timer.
 */
module CompletionTimeouts {

  /** What the wrapped callback receives. */
  datatype Notification<E> = Completed | Failed(error: E) | TimedOut

  /**
   * What can happen to the wrapper: `onComplete`, `onException`, the timer
   * task running, and the wrapped callback being cancelled.
   */
  datatype Event<E> = Complete | Exception(error: E) | TimerRuns | CallbackCancelled

  /**
   * The timer's cancelled and complete marks, the wrapper's own cancelled
   * mark, and every notification passed to the wrapped callback, in order.
   */
  datatype State<E> = State(timerCancelled: bool, timerComplete: bool, cancelled: bool, delivered: seq<Notification<E>>)

  /** Just constructed: the timer is scheduled, nothing is cancelled or delivered. */
  function Initial<E>(): State<E> {
    State(false, false, false, [])
  }

  /** No more notifications can pass: the timer was cancelled or has run. */
  predicate Settled<E>(s: State<E>) {
    s.timerCancelled || s.timerComplete
  }

  /**
   * One event. `onComplete` and `onException` forward only while the timer
   * is neither cancelled nor complete, then cancel it; the event loop runs
   * the timer task once and only if it was not cancelled, and the task
   * cancels the wrapper and reports a timeout; the cancel notifier cancels
   * the wrapper and the timer.
   */
  function Step<E>(s: State<E>, ev: Event<E>): (r: State<E>)
    ensures Settled(s) ==> r.delivered == s.delivered
    ensures ev != CallbackCancelled ==> Settled(r)
    ensures |r.delivered| <= |s.delivered| + 1
  {
    match ev
    case Complete =>
      if !s.timerCancelled && !s.timerComplete then s.(delivered := s.delivered + [Completed], timerCancelled := true) else s
    case Exception(e) =>
      if !s.timerCancelled && !s.timerComplete then s.(delivered := s.delivered + [Failed(e)], timerCancelled := true) else s
    case TimerRuns =>
      if !s.timerCancelled && !s.timerComplete then s.(timerComplete := true, cancelled := true, delivered := s.delivered + [TimedOut]) else s
    case CallbackCancelled =>
      s.(cancelled := true, timerCancelled := true)
  }

  function Run<E>(s: State<E>, events: seq<Event<E>>): State<E>
    decreases |events|
  {
    if events == [] then s else Run(Step(s, events[0]), events[1..])
  }

  /** The one notification the first event causes, if any. */
  function FirstOutcome<E>(events: seq<Event<E>>): seq<Notification<E>> {
    if events == [] then []
    else match events[0]
      case Complete => [Completed]
      case Exception(e) => [Failed(e)]
      case TimerRuns => [TimedOut]
      case CallbackCancelled => []
  }

  /** Once settled, nothing more reaches the wrapped callback. */
  lemma {:induction false} SettledStays<E>(s: State<E>, events: seq<Event<E>>)
    requires Settled(s)
    ensures Run(s, events).delivered == s.delivered
    ensures Settled(Run(s, events))
    decreases |events|
  {
    if events != [] {
      SettledStays(Step(s, events[0]), events[1..]);
    }
  }

  /**
   * Whatever happens, the wrapped callback receives at most one
   * notification: the one for the first event, which is nothing when the
   * first event is its own cancellation.
   */
  lemma AtMostOneNotification<E>(events: seq<Event<E>>)
    ensures Run(Initial(), events).delivered == FirstOutcome(events)
    ensures |Run(Initial(), events).delivered| <= 1
  {
    if events != [] {
      SettledStays(Step(Initial(), events[0]), events[1..]);
    }
  }

  /** A timeout marks the wrapper cancelled, and a cancelled callback cancels the wrapper and its timer. */
  lemma CancellationMarks<E>(s: State<E>)
    ensures !Settled(s) ==> Step(s, TimerRuns).cancelled && Step(s, TimerRuns).delivered == s.delivered + [TimedOut]
    ensures Step(s, CallbackCancelled).cancelled && Step(s, CallbackCancelled).timerCancelled
    ensures Step(s, CallbackCancelled).delivered == s.delivered
  {
  }

  class CompletionCallbackWithTimeout<E> {
    var timerCancelled: bool
    var timerComplete: bool
    var cancelled: bool
    /** The notifications passed to the wrapped callback. */
    var delivered: seq<Notification<E>>

    function Current(): State<E>
      reads this
    {
      State(timerCancelled, timerComplete, cancelled, delivered)
    }

    constructor ()
      ensures Current() == Initial()
    {
      timerCancelled := false;
      timerComplete := false;
      cancelled := false;
      delivered := [];
    }

    /** `onComplete`. */
    method OnComplete()
      modifies this
      ensures Current() == Step(old(Current()), Complete)
    {
      if !timerCancelled && !timerComplete {
        delivered := delivered + [Completed];
        timerCancelled := true;
      }
    }

    /** `onException`. */
    method OnException(error: E)
      modifies this
      ensures Current() == Step(old(Current()), Exception(error))
    {
      if !timerCancelled && !timerComplete {
        delivered := delivered + [Failed(error)];
        timerCancelled := true;
      }
    }

    /** The event loop's run of the timer task, which it skips once the task is cancelled or has run. */
    method RunTimer()
      modifies this
      ensures Current() == Step(old(Current()), TimerRuns)
    {
      if !timerCancelled && !timerComplete {
        timerComplete := true;
        cancelled := true;
        delivered := delivered + [TimedOut];
      }
    }

    /** The cancel notifier registered on the wrapped callback. */
    method OnCancel()
      modifies this
      ensures Current() == Step(old(Current()), CallbackCancelled)
    {
      cancelled := true;
      timerCancelled := true;
    }
  }
}
