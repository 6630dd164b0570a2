/**
 * The standalone RESTEasy request of the Vert.x integration: its lazily
 * allocated attribute bag, and its execution context with the inner async
 * response. Each method is taken as one atomic step and is proved to change
 * the state exactly as the matching step function of AsyncProtocol says;
 * ProtocolProperties proves what those steps guarantee. The async response's
 * complete, resume, cancel and setTimeout hold responseLock for that step; the
 * context's suspend and complete, and handleTimeout, take no lock, so their
 * atomicity is an assumption of the model.
 */
module Standalone {
  import opened AsyncProtocol
  import opened ProtocolProperties

  /** What suspend returns: the async response, or the IllegalStateException it throws. */
  datatype SuspendResult =
    | Suspended(response: VertxHttpAsyncResponse)
    | IllegalStateException(message: string)

  class VertxHttpRequest<V> {
    /** The attribute map; None until the first setAttribute allocates it. */
    var attributes: Option<map<string, V>>
    const executionContext: VertxExecutionContext

    constructor ()
      ensures attributes == None
      ensures fresh(executionContext) && executionContext.Valid()
      ensures fresh(executionContext.asyncResponse)
      ensures executionContext.Model() == Initial
    {
      attributes := None;
      executionContext := new VertxExecutionContext();
    }

    /** getAttribute: the stored value, or None (null) for a missing key or an unallocated bag. */
    function GetAttribute(name: string): (r: Option<V>)
      reads this
      ensures attributes.None? ==> r == None
      ensures attributes.Some? ==> (r.Some? <==> name in attributes.value)
      ensures r.Some? ==> attributes.Some? && r.value == attributes.value[name]
    {
      match attributes
      case None => None
      case Some(m) => if name in m then Some(m[name]) else None
    }

    /** getAttributeNames: exactly the names getAttribute finds; empty while unallocated. */
    function GetAttributeNames(): (names: set<string>)
      reads this
      ensures forall name :: name in names <==> GetAttribute(name).Some?
      ensures attributes.None? ==> names == {}
    {
      match attributes
      case None => {}
      case Some(m) => m.Keys
    }

    /** setAttribute: allocates the map on first use, then stores the value under the name. */
    method SetAttribute(name: string, value: V)
      modifies this`attributes
      ensures attributes == Some((if old(attributes).None? then map[] else old(attributes).value)[name := value])
      ensures GetAttribute(name) == Some(value)
      ensures forall other :: other != name ==> GetAttribute(other) == old(GetAttribute(other))
    {
      if attributes.None? {
        attributes := Some(map[]);
      }
      attributes := Some(attributes.value[name := value]);
    }

    /** removeAttribute: drops the name; an unallocated bag stays unallocated. */
    method RemoveAttribute(name: string)
      modifies this`attributes
      ensures old(attributes).None? ==> attributes == None
      ensures old(attributes).Some? ==> attributes == Some(old(attributes).value - {name})
      ensures GetAttribute(name) == None
      ensures forall other :: other != name ==> GetAttribute(other) == old(GetAttribute(other))
    {
      if attributes.Some? {
        attributes := Some(attributes.value - {name});
      }
    }
  }

  /** VertxExecutionContext: the suspend flags, shared with its inner async response. */
  class VertxExecutionContext {
    var done: bool
    var cancelled: bool
    var wasSuspended: bool
    var asyncResponse: VertxHttpAsyncResponse?

    ghost predicate Valid()
      reads this, asyncResponse
    {
      asyncResponse != null && asyncResponse.outer == this && asyncResponse.Valid()
    }

    ghost function Model(): State
      reads this, asyncResponse
      requires Valid()
    {
      asyncResponse.Model()
    }

    constructor ()
      ensures Valid() && fresh(asyncResponse)
      ensures Model() == Initial
    {
      done, cancelled, wasSuspended := false, false, false;
      asyncResponse := null;
      new;
      asyncResponse := new VertxHttpAsyncResponse(this);
    }

    /** isSuspended of the execution context: whether suspend has ever succeeded. */
    function IsSuspended(): (r: bool)
      reads this, asyncResponse
      requires Valid()
      ensures r == Model().wasSuspended
    {
      wasSuspended
    }

    /**
     * suspend(), suspend(millis) and suspend(time, unit) (the first two
     * delegate to the last): the time is ignored and no timer is armed.
     */
    method Suspend(timeMillis: int) returns (r: SuspendResult)
      requires Valid()
      modifies this`wasSuspended
      ensures Valid() && wasSuspended
      ensures SuspendStep(old(Model())) ==
              Step(Model(), if r.Suspended? then AsyncResponseHandle else IllegalState(r.message))
      ensures r.Suspended? ==> r.response == asyncResponse
    {
      if wasSuspended {
        return IllegalStateException(AlreadySuspended);
      }
      wasSuspended := true;
      return Suspended(asyncResponse);
    }

    /** complete(): forwards to the async response only once suspended. */
    method Complete()
      requires Valid()
      modifies this, asyncResponse
      ensures Valid() && asyncResponse == old(asyncResponse)
      ensures Model() == ContextCompleteStep(old(Model()))
    {
      if wasSuspended && asyncResponse != null {
        asyncResponse.Complete();
      }
    }
  }

  /**
   * VertxHttpAsyncResponse: the inner class reads and writes the flags of
   * its execution context (`outer`) and owns the timer id. `flushes` and
   * `timerCalls` record what vertxFlush and the Vert.x timer were asked to do.
   */
  class VertxHttpAsyncResponse {
    const outer: VertxExecutionContext
    var timerId: int
    ghost var flushes: seq<Outcome>
    ghost var timerCalls: seq<TimerCall>

    ghost function Model(): State
      reads this, outer
    {
      State(outer.wasSuspended, outer.done, outer.cancelled, timerId, flushes, timerCalls)
    }

    ghost predicate Valid()
      reads this, outer
    {
      outer.asyncResponse == this && Inv(Model())
    }

    constructor (outer: VertxExecutionContext)
      ensures this.outer == outer
      ensures timerId == NoTimer && flushes == [] && timerCalls == []
    {
      this.outer := outer;
      timerId := NoTimer;
      flushes := [];
      timerCalls := [];
    }

    /** isSuspended of the async response: no response has been flushed yet. */
    function IsSuspended(): (r: bool)
      reads this, outer
      requires Valid()
      ensures r <==> flushes == []
      ensures r <==> Pending(Model())
    {
      !outer.done && !outer.cancelled
    }

    /** isCancelled: the one flush was the 503 of a cancel. */
    function IsCancelled(): (r: bool)
      reads this, outer
      requires Valid()
      ensures r <==> |flushes| == 1 && flushes[0].ServiceUnavailable?
    {
      outer.cancelled
    }

    /** isDone: the response has been flushed, exactly once. */
    function IsDone(): (r: bool)
      reads this, outer
      requires Valid()
      ensures r <==> |flushes| == 1
    {
      outer.done
    }

    /** vertxFlush: VertxHttpResponse.finish() writes the response; recorded, not performed. */
    ghost method VertxFlush(outcome: Outcome)
      modifies this`flushes
      ensures flushes == old(flushes) + [outcome]
    {
      flushes := flushes + [outcome];
    }

    /** RESTEasy's internalResume: hands `outcome` over and flushes once; its answer is an input. */
    method InternalResume(outcome: Outcome, internalResumeResult: bool) returns (r: bool)
      modifies this`flushes
      ensures flushes == old(flushes) + [outcome] && r == internalResumeResult
    {
      VertxFlush(outcome);
      r := internalResumeResult;
    }

    /** complete(). */
    method Complete()
      requires Valid()
      modifies this, outer
      ensures Valid()
      ensures Model() == CompleteStep(old(Model()))
    {
      if outer.done {
        return;
      }
      if outer.cancelled {
        return;
      }
      outer.done := true;
      VertxFlush(Finished);
    }

    /** resume(Object). */
    method Resume(entity: Entity, internalResumeResult: bool) returns (r: bool)
      requires Valid()
      modifies this, outer
      ensures Valid()
      ensures Step(Model(), Returned(r)) == ResumeStep(old(Model()), Delivered(entity), internalResumeResult)
    {
      if outer.done {
        return false;
      }
      if outer.cancelled {
        return false;
      }
      outer.done := true;
      r := InternalResume(Delivered(entity), internalResumeResult);
    }

    /** resume(Throwable). */
    method ResumeFailure(ex: Failure, internalResumeResult: bool) returns (r: bool)
      requires Valid()
      modifies this, outer
      ensures Valid()
      ensures Step(Model(), Returned(r)) == ResumeStep(old(Model()), Raised(ex), internalResumeResult)
    {
      if outer.done {
        return false;
      }
      if outer.cancelled {
        return false;
      }
      outer.done := true;
      r := InternalResume(Raised(ex), internalResumeResult);
    }

    /** The body the three cancel methods share: a 503 carrying `retryAfter`. */
    method CancelWith(retryAfter: Option<RetryAfter>, internalResumeResult: bool) returns (r: bool)
      requires Valid()
      modifies this, outer
      ensures Valid()
      ensures Step(Model(), Returned(r)) == CancelStep(old(Model()), retryAfter, internalResumeResult)
    {
      if outer.cancelled {
        return true;
      }
      if outer.done {
        return false;
      }
      outer.done := true;
      outer.cancelled := true;
      r := InternalResume(ServiceUnavailable(retryAfter), internalResumeResult);
    }

    /** cancel(). */
    method Cancel(internalResumeResult: bool) returns (r: bool)
      requires Valid()
      modifies this, outer
      ensures Valid()
      ensures Step(Model(), Returned(r)) == CancelStep(old(Model()), None, internalResumeResult)
    {
      r := CancelWith(None, internalResumeResult);
    }

    /** cancel(int retryAfter): Retry-After in seconds. */
    method CancelRetryAfterSeconds(retryAfter: int, internalResumeResult: bool) returns (r: bool)
      requires Valid()
      modifies this, outer
      ensures Valid()
      ensures Step(Model(), Returned(r)) ==
              CancelStep(old(Model()), Some(Seconds(retryAfter)), internalResumeResult)
    {
      r := CancelWith(Some(Seconds(retryAfter)), internalResumeResult);
    }

    /** cancel(Date retryAfter): Retry-After as a date, in milliseconds since the epoch. */
    method CancelRetryAfterDate(retryAfterMillis: int, internalResumeResult: bool) returns (r: bool)
      requires Valid()
      modifies this, outer
      ensures Valid()
      ensures Step(Model(), Returned(r)) ==
              CancelStep(old(Model()), Some(Date(retryAfterMillis)), internalResumeResult)
    {
      r := CancelWith(Some(Date(retryAfterMillis)), internalResumeResult);
    }

    /**
     * setTimeout(time, unit), with the delay already in milliseconds.
     * cancelTimerResult is what cancelTimer answers, scheduledId what setTimer
     * hands out.
     */
    method SetTimeout(delayMillis: int, cancelTimerResult: bool, scheduledId: nat) returns (r: bool)
      requires Valid()
      modifies this, outer
      ensures Valid()
      ensures Step(Model(), Returned(r)) ==
              SetTimeoutStep(old(Model()), delayMillis, cancelTimerResult, scheduledId)
    {
      if outer.done || outer.cancelled {
        return false;
      }
      if timerId > NoTimer {
        timerCalls := timerCalls + [CancelTimer(timerId)];
        if !cancelTimerResult {
          return false;
        }
      }
      timerCalls := timerCalls + [SetTimer(delayMillis, scheduledId)];
      timerId := scheduledId;
      return true;
    }

    /** One call made by application code or by a timeout handler. */
    method Perform(c: Call) returns (reply: Reply)
      requires Valid()
      modifies this, outer
      ensures Valid()
      ensures Step(Model(), reply) == Apply(old(Model()), c)
    {
      match c
      case Suspend(time) =>
        var result := outer.Suspend(time);
        reply := if result.Suspended? then AsyncResponseHandle else IllegalState(result.message);
      case ContextComplete =>
        outer.Complete();
        reply := NoValue;
      case Complete =>
        Complete();
        reply := NoValue;
      case ResumeEntity(e, ok) =>
        var b := Resume(e, ok);
        reply := Returned(b);
      case ResumeFailure(f, ok) =>
        var b := ResumeFailure(f, ok);
        reply := Returned(b);
      case Cancel(retry, ok) =>
        var b := CancelWith(retry, ok);
        reply := Returned(b);
      case SetTimeout(d, ok, id) =>
        var b := SetTimeout(d, ok, id);
        reply := Returned(b);
    }

    /**
     * handleTimeout(), run when the timer fires: the user's timeout handler
     * (given as the calls it makes) runs first. If it throws, the exception
     * leaves handleTimeout (`escaped`) and the fallback is skipped. Otherwise,
     * if the request is still not done it is resumed with a
     * ServiceUnavailableException, so it is done, with exactly one flush,
     * afterwards.
     */
    method HandleTimeout(handler: Option<TimeoutHandler>) returns (escaped: bool)
      requires Valid()
      modifies this, outer
      ensures Valid()
      ensures Model() == TimeoutStep(old(Model()), handler)
      ensures escaped == HandlerThrows(handler)
      ensures !escaped ==> outer.done && |flushes| == 1
    {
      if handler.Some? {
        var calls := handler.value.calls;
        var i := 0;
        while i < |calls|
          invariant 0 <= i <= |calls|
          invariant Valid()
          invariant Model() == Run(old(Model()), calls[..i])
        {
          var _ := Perform(calls[i]);
          assert calls[..i + 1][..i] == calls[..i];
          i := i + 1;
        }
        assert calls[..|calls|] == calls;
        if handler.value.throws {
          TimeoutGuaranteesProgress(old(Model()), handler);
          return true;
        }
      }
      escaped := false;
      if !outer.done {
        // the value resume returns is discarded
        var _ := ResumeFailure(ServiceUnavailableException, true);
      }
      TimeoutGuaranteesProgress(old(Model()), handler);
    }
  }
}
