/**
 * The asynchronous-response protocol of the standalone RESTEasy request
 * (VertxExecutionContext and its inner VertxHttpAsyncResponse), stated on
 * values. Every guarded operation of the two classes is one step function
 * from the state before the call to the state after it and the value the
 * call returns; the classes in module Standalone are proved to follow these
 * steps, and module ProtocolProperties proves what the steps guarantee.
 *
 * The collaborators the code cannot see are abstract:
 *  - vertxFlush (VertxHttpResponse.finish) and RESTEasy's internalResume
 *    append one Outcome to the ghost record `flushes`;
 *  - the Vert.x timer calls are recorded in `timerCalls`; the answer of
 *    cancelTimer, the id setTimer hands out and the boolean internalResume
 *    returns are inputs of the step.
 */
module AsyncProtocol {

  datatype Option<+T> = None | Some(value: T)

  /** The entity handed to resume(Object); its content is opaque here. */
  datatype Entity = Entity(body: string)

  /** The Throwable handed to resume(Throwable). */
  datatype Failure = ServiceUnavailableException | ApplicationException(message: string)

  /** The Retry-After header of cancel(int) (seconds) and cancel(Date). */
  datatype RetryAfter = Seconds(seconds: int) | Date(epochMillis: int)

  /** What one flush of the response writes. */
  datatype Outcome =
    | Finished                                      // complete(): what the handler already wrote
    | Delivered(entity: Entity)                     // resume(Object)
    | Raised(failure: Failure)                      // resume(Throwable)
    | ServiceUnavailable(retryAfter: Option<RetryAfter>)  // the cancel variants: status 503

  /** One call into the Vert.x timer facility. */
  datatype TimerCall = CancelTimer(id: int) | SetTimer(delayMillis: int, id: int)

  /**
   * The state shared by the execution context (wasSuspended, done, cancelled)
   * and its async response (timerId), with the ghost record of every flush
   * and every timer call made so far.
   */
  datatype State = State(
    wasSuspended: bool,
    done: bool,
    cancelled: bool,
    timerId: int,
    flushes: seq<Outcome>,
    timerCalls: seq<TimerCall>)

  /** The value timerID holds while no timer has been set. */
  const NoTimer: int := -1

  /** The state of a freshly constructed execution context. */
  const Initial: State := State(false, false, false, NoTimer, [], [])

  /** The message of the IllegalStateException a second suspend throws. */
  const AlreadySuspended: string := "Request already suspended"

  /**
   * A call application code (or a timeout handler) can make. The boolean and
   * id parameters are the answers of the foreign code the call reaches.
   */
  datatype Call =
    | Suspend(timeMillis: int)
    | ContextComplete
    | Complete
    | ResumeEntity(entity: Entity, internalResumeResult: bool)
    | ResumeFailure(failure: Failure, internalResumeResult: bool)
    | Cancel(retryAfter: Option<RetryAfter>, internalResumeResult: bool)
    | SetTimeout(delayMillis: int, cancelTimerResult: bool, scheduledId: nat)

  /**
   * The user's TimeoutHandler, given as the calls it makes on this request
   * and whether it then lets an exception escape (its own, or the
   * IllegalStateException of a suspend it does not catch).
   */
  datatype TimeoutHandler = TimeoutHandler(calls: seq<Call>, throws: bool)

  /** Something that happens to a request: a call, or a timer firing handleTimeout. */
  datatype Event = Invoke(call: Call) | TimerFired(handler: Option<TimeoutHandler>)

  /** What a call returns: nothing, a boolean, the async response, or a thrown IllegalStateException. */
  datatype Reply = NoValue | Returned(value: bool) | AsyncResponseHandle | IllegalState(message: string)

  datatype Step = Step(next: State, reply: Reply)

  /** The request is still waiting for its response: VertxHttpAsyncResponse.isSuspended(). */
  predicate Pending(s: State) {
    !s.done && !s.cancelled
  }

  /** From s to t only the ghost records may have grown, and the timer is untouched. */
  predicate TimerUntouched(s: State, t: State) {
    t.timerId == s.timerId && t.timerCalls == s.timerCalls
  }

  /** VertxExecutionContext.suspend(time, unit): single use, and the time is ignored. */
  function SuspendStep(s: State): (r: Step)
    ensures r.next.wasSuspended
    ensures r.next.(wasSuspended := s.wasSuspended) == s
    ensures r.reply.IllegalState? <==> s.wasSuspended
    ensures r.reply.IllegalState? ==> r.reply.message == AlreadySuspended
    ensures !r.reply.IllegalState? ==> r.reply == AsyncResponseHandle
  {
    if s.wasSuspended then Step(s, IllegalState(AlreadySuspended))
    else Step(s.(wasSuspended := true), AsyncResponseHandle)
  }

  /** VertxHttpAsyncResponse.complete(). */
  function CompleteStep(s: State): (r: State)
    ensures TimerUntouched(s, r) && r.wasSuspended == s.wasSuspended && r.cancelled == s.cancelled
    ensures Pending(s) ==> r.done && r.flushes == s.flushes + [Finished]
    ensures !Pending(s) ==> r == s
  {
    if s.done then s
    else if s.cancelled then s
    else s.(done := true, flushes := s.flushes + [Finished])
  }

  /** VertxExecutionContext.complete(): forwards to the async response only once suspended. */
  function ContextCompleteStep(s: State): (r: State)
    ensures TimerUntouched(s, r) && r.wasSuspended == s.wasSuspended && r.cancelled == s.cancelled
    ensures r.flushes != s.flushes <==> s.wasSuspended && Pending(s)
    ensures r.flushes != s.flushes ==> r.done && r.flushes == s.flushes + [Finished]
    ensures r.flushes == s.flushes ==> r == s
  {
    if s.wasSuspended then CompleteStep(s) else s
  }

  /** resume(Object) and resume(Throwable), delivering `outcome` through internalResume. */
  function ResumeStep(s: State, outcome: Outcome, internalResumeResult: bool): (r: Step)
    ensures TimerUntouched(s, r.next) && r.next.wasSuspended == s.wasSuspended && r.next.cancelled == s.cancelled
    ensures r.reply == Returned(Pending(s) && internalResumeResult)
    ensures Pending(s) ==> r.next.done && r.next.flushes == s.flushes + [outcome]
    ensures !Pending(s) ==> r.next == s
  {
    if s.done then Step(s, Returned(false))
    else if s.cancelled then Step(s, Returned(false))
    else Step(s.(done := true, flushes := s.flushes + [outcome]), Returned(internalResumeResult))
  }

  /** cancel(), cancel(int) and cancel(Date): a 503 with an optional Retry-After header. */
  function CancelStep(s: State, retryAfter: Option<RetryAfter>, internalResumeResult: bool): (r: Step)
    ensures TimerUntouched(s, r.next) && r.next.wasSuspended == s.wasSuspended
    ensures r.reply == Returned(if Pending(s) then internalResumeResult else s.cancelled)
    ensures Pending(s) ==> r.next.done && r.next.cancelled
                           && r.next.flushes == s.flushes + [ServiceUnavailable(retryAfter)]
    ensures !Pending(s) ==> r.next == s
  {
    if s.cancelled then Step(s, Returned(true))
    else if s.done then Step(s, Returned(false))
    else
      Step(s.(done := true, cancelled := true, flushes := s.flushes + [ServiceUnavailable(retryAfter)]),
           Returned(internalResumeResult))
  }

  /**
   * setTimeout(time, unit). cancelTimer is asked only when a timer is armed
   * (timerID > -1); setTimer hands out `scheduledId`.
   */
  function SetTimeoutStep(s: State, delayMillis: int, cancelTimerResult: bool, scheduledId: nat): (r: Step)
    ensures r.next.(timerId := s.timerId, timerCalls := s.timerCalls) == s
    ensures r.reply == Returned(Pending(s) && (s.timerId <= NoTimer || cancelTimerResult))
    ensures r.reply.value ==> r.next.timerId == scheduledId && |r.next.timerCalls| > 0
                              && r.next.timerCalls[|r.next.timerCalls| - 1] == SetTimer(delayMillis, scheduledId)
    ensures !r.reply.value ==> r.next.timerId == s.timerId
    ensures !Pending(s) ==> r.next == s
  {
    if s.done || s.cancelled then Step(s, Returned(false))
    else if s.timerId > NoTimer && !cancelTimerResult then
      Step(s.(timerCalls := s.timerCalls + [CancelTimer(s.timerId)]), Returned(false))
    else
      var disarmed := if s.timerId > NoTimer then [CancelTimer(s.timerId)] else [];
      Step(s.(timerId := scheduledId,
              timerCalls := s.timerCalls + disarmed + [SetTimer(delayMillis, scheduledId)]),
           Returned(true))
  }

  /** One call, as the corresponding method performs it: at most one flush, none once done. */
  function Apply(s: State, c: Call): (r: Step)
    ensures s.flushes <= r.next.flushes && |r.next.flushes| <= |s.flushes| + 1
    ensures s.done ==> r.next.done && r.next.cancelled == s.cancelled && r.next.flushes == s.flushes
  {
    match c
    case Suspend(_) => SuspendStep(s)
    case ContextComplete => Step(ContextCompleteStep(s), NoValue)
    case Complete => Step(CompleteStep(s), NoValue)
    case ResumeEntity(e, r) => ResumeStep(s, Delivered(e), r)
    case ResumeFailure(f, r) => ResumeStep(s, Raised(f), r)
    case Cancel(retry, r) => CancelStep(s, retry, r)
    case SetTimeout(d, ok, id) => SetTimeoutStep(s, d, ok, id)
  }

  /** A sequence of calls made one after another: the flush record only grows, and not once done. */
  function Run(s: State, calls: seq<Call>): (r: State)
    ensures s.flushes <= r.flushes
    ensures s.done ==> r.done && r.cancelled == s.cancelled && r.flushes == s.flushes
    decreases |calls|
  {
    if calls == [] then s
    else Apply(Run(s, calls[..|calls| - 1]), calls[|calls| - 1]).next
  }

  /** The state after the timeout handler (if one is set) has made its calls. */
  function AfterHandler(s: State, handler: Option<TimeoutHandler>): State {
    if handler.Some? then Run(s, handler.value.calls) else s
  }

  /** Whether handleTimeout ends with the handler's exception propagating out of it. */
  predicate HandlerThrows(handler: Option<TimeoutHandler>) {
    handler.Some? && handler.value.throws
  }

  /**
   * handleTimeout(): run the handler; if it throws, the exception leaves
   * handleTimeout and nothing else happens. Otherwise, unless the request is
   * done, resume it with a ServiceUnavailableException. The boolean that
   * resume returns is discarded, so the answer of internalResume does not
   * matter.
   */
  function TimeoutStep(s: State, handler: Option<TimeoutHandler>): (r: State)
    ensures HandlerThrows(handler) ==> r == AfterHandler(s, handler)
    ensures !HandlerThrows(handler) ==> !Pending(r)
    ensures s.flushes <= r.flushes
    ensures s.done ==> r.done && r.cancelled == s.cancelled && r.flushes == s.flushes
  {
    var t := AfterHandler(s, handler);
    if HandlerThrows(handler) then t
    else if t.done then t
    else ResumeStep(t, Raised(ServiceUnavailableException), true).next
  }

  function EventStep(s: State, e: Event): (r: State)
    ensures s.flushes <= r.flushes
    ensures s.done ==> r.done && r.cancelled == s.cancelled && r.flushes == s.flushes
  {
    match e
    case Invoke(c) => Apply(s, c).next
    case TimerFired(h) => TimeoutStep(s, h)
  }

  /** Any history of calls and timer firings: flushes are never undone, and none is added once done. */
  function Trace(s: State, events: seq<Event>): (r: State)
    ensures s.flushes <= r.flushes
    ensures s.done ==> r.done && r.cancelled == s.cancelled && r.flushes == s.flushes
    decreases |events|
  {
    if events == [] then s
    else EventStep(Trace(s, events[..|events| - 1]), events[|events| - 1])
  }
}
