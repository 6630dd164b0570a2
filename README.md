# Asynchronous responses of the standalone RESTEasy request (Quarkus, Vert.x)

This project models, in Dafny, the core of `VertxHttpRequest`, the request
object the Quarkus standalone RESTEasy integration builds for every HTTP
request it serves on Vert.x:

- the **asynchronous-response state machine** of its nested classes
  `VertxExecutionContext` and `VertxHttpAsyncResponse`: `suspend`, `complete`,
  `resume(entity)`, `resume(Throwable)`, `cancel()`, `cancel(int)`,
  `cancel(Date)`, `setTimeout`, `handleTimeout` and the `isSuspended` /
  `isDone` / `isCancelled` getters, over the flags `wasSuspended`, `done`,
  `cancelled` and the timer handle `timerID`;
- the **lazily allocated attribute bag**: `getAttribute`, `setAttribute`,
  `removeAttribute`, `getAttributeNames`.

## Layout

- `async_protocol.dfy` (module `AsyncProtocol`): the state of one request as a
  value (`State`) and one step function per guarded operation (`SuspendStep`,
  `ContextCompleteStep`, `CompleteStep`, `ResumeStep`, `CancelStep`,
  `SetTimeoutStep`, `TimeoutStep`), each with a contract giving its reply and
  its new state, with `Apply` (any one call), `Run` (a sequence of calls) and
  `Trace` (a history of calls and timer firings).
- `protocol_properties.dfy` (module `ProtocolProperties`): the invariant
  `Inv` (cancelled implies done; at most one flush; done exactly when flushed;
  cancelled exactly when that flush was the 503 of a cancel), monotonicity
  (`Extends`), "nothing happens once done" (`Settled`) and the rules of each
  operation, proved for single calls and for any history.
- `vertx_http_request.dfy` (module `Standalone`): the classes
  `VertxHttpRequest<V>`, `VertxExecutionContext` and `VertxHttpAsyncResponse`.
  As in the Java inner class, the async response reads and writes the flags of
  its execution context (`outer`) and owns `timerId`. Every guarded method is
  taken as one atomic step, proved to change `Model()` exactly as the matching step
  function says, and keeps `Valid()` (which includes `Inv`).

The collaborators the code calls but does not contain are abstract:
`vertxFlush` and RESTEasy's `internalResume` append one `Outcome` (`Finished`,
`Delivered(entity)`, `Raised(failure)` or `ServiceUnavailable(retryAfter)`)
to the ghost record `flushes`; the Vert.x timer calls are recorded in the
ghost `timerCalls`; what `cancelTimer` answers, the id `setTimer` hands out
and the boolean `internalResume` returns are parameters of the methods. A
user timeout handler is given as the list of calls it makes on the request
and whether it then lets an exception escape (`TimeoutHandler`).

The model follows the code where a cleaner reading of the protocol would
differ: `suspend(time, unit)` ignores its time and arms no timer; nothing
disarms `timerID` on resume or cancel, so a stale timer still fires later: it
flushes nothing and touches no response flag and no timer, but it still runs
the user's handler, whose calls may change `wasSuspended`
(`StaleTimeoutIsHarmless`); `setTimeout` does not look at `wasSuspended`, so
on a freshly constructed request it arms a timer whether or not suspend was
called (`SetTimeoutIgnoresSuspension`); resume and cancel only look at `done` and
`cancelled`, not at `wasSuspended`; and `handleTimeout` checks only `done`
after the handler, so a handler that merely re-arms the timeout does not keep
the request suspended (`TimeoutOverridesRearm`), while a handler that throws
(for instance the IllegalStateException of a second suspend) skips the
fallback resume, so a request its calls did not finish stays pending
(`ThrowingHandlerLeavesPending`), while one they resumed or cancelled keeps
that response (`TimeoutGuaranteesProgress`).

## Model

| member | source | states |
|---|---|---|
| AsyncProtocol.SuspendStep | extensions/resteasy/runtime/src/main/java/io/quarkus/resteasy/runtime/standalone/VertxHttpRequest.java:207-213 | sets wasSuspended and changes nothing else; throws IllegalStateException("Request already suspended") exactly when already suspended, otherwise returns the async response |
| AsyncProtocol.CompleteStep | extensions/resteasy/runtime/src/main/java/io/quarkus/resteasy/runtime/standalone/VertxHttpRequest.java:242-252 | on a pending request sets done and flushes Finished once; once done or cancelled changes nothing; never touches the timer or cancelled |
| AsyncProtocol.ContextCompleteStep | extensions/resteasy/runtime/src/main/java/io/quarkus/resteasy/runtime/standalone/VertxHttpRequest.java:215-219 | flushes (Finished, setting done) exactly when suspended and pending; otherwise changes nothing |
| AsyncProtocol.ResumeStep | extensions/resteasy/runtime/src/main/java/io/quarkus/resteasy/runtime/standalone/VertxHttpRequest.java:254-276 | returns true only when pending and internalResume answers true; on a pending request sets done and flushes the outcome once; otherwise changes nothing; timer and cancelled untouched |
| AsyncProtocol.CancelStep | extensions/resteasy/runtime/src/main/java/io/quarkus/resteasy/runtime/standalone/VertxHttpRequest.java:278-331 | on a pending request sets done and cancelled, flushes one 503 with the given Retry-After and returns internalResume's answer; otherwise changes nothing and returns whether already cancelled |
| AsyncProtocol.SetTimeoutStep | extensions/resteasy/runtime/src/main/java/io/quarkus/resteasy/runtime/standalone/VertxHttpRequest.java:348-359 | true exactly when pending and (no timer armed or cancelTimer succeeded), and then timerID is the new id and the last timer call is its setTimer; otherwise timerID unchanged; flags and flushes never change |
| AsyncProtocol.Apply | extensions/resteasy/runtime/src/main/java/io/quarkus/resteasy/runtime/standalone/VertxHttpRequest.java:207-358 | any one call keeps every earlier flush, adds at most one, and adds none and keeps done and cancelled once done |
| AsyncProtocol.Run | extensions/resteasy/runtime/src/main/java/io/quarkus/resteasy/runtime/standalone/VertxHttpRequest.java:207-358 | a sequence of calls keeps every earlier flush and adds none once done |
| AsyncProtocol.TimeoutStep | extensions/resteasy/runtime/src/main/java/io/quarkus/resteasy/runtime/standalone/VertxHttpRequest.java:361-368 | if the handler throws, the state is what its calls left; otherwise the request ends done or cancelled; earlier flushes are kept and none is added once done |
| AsyncProtocol.EventStep | extensions/resteasy/runtime/src/main/java/io/quarkus/resteasy/runtime/standalone/VertxHttpRequest.java:207-368 | a call or a timer firing keeps every earlier flush and adds none once done |
| AsyncProtocol.Trace | extensions/resteasy/runtime/src/main/java/io/quarkus/resteasy/runtime/standalone/VertxHttpRequest.java:207-368 | any history keeps every earlier flush and adds none once done |
| Standalone.VertxHttpRequest.constructor | extensions/resteasy/runtime/src/main/java/io/quarkus/resteasy/runtime/standalone/VertxHttpRequest.java:52-66 | a new request has no attribute map and a fresh, valid execution context in the initial state |
| Standalone.VertxHttpRequest.GetAttribute | extensions/resteasy/runtime/src/main/java/io/quarkus/resteasy/runtime/standalone/VertxHttpRequest.java:106-109 | null (None) while the bag is unallocated or the name is absent, otherwise the stored value |
| Standalone.VertxHttpRequest.GetAttributeNames | extensions/resteasy/runtime/src/main/java/io/quarkus/resteasy/runtime/standalone/VertxHttpRequest.java:78-99 | exactly the names getAttribute finds a value for; empty while unallocated |
| Standalone.VertxHttpRequest.SetAttribute | extensions/resteasy/runtime/src/main/java/io/quarkus/resteasy/runtime/standalone/VertxHttpRequest.java:111-117 | allocates the map on first use; afterwards getAttribute(name) is the value and every other name reads as before |
| Standalone.VertxHttpRequest.RemoveAttribute | extensions/resteasy/runtime/src/main/java/io/quarkus/resteasy/runtime/standalone/VertxHttpRequest.java:119-124 | afterwards getAttribute(name) is null, other names unchanged; an unallocated bag stays unallocated |
| Standalone.VertxExecutionContext.constructor | extensions/resteasy/runtime/src/main/java/io/quarkus/resteasy/runtime/standalone/VertxHttpRequest.java:178-184 | creates its async response, linked back to it; all flags false, no timer, nothing flushed |
| Standalone.VertxExecutionContext.IsSuspended | extensions/resteasy/runtime/src/main/java/io/quarkus/resteasy/runtime/standalone/VertxHttpRequest.java:186-189 | reports whether suspend has ever succeeded (wasSuspended), not whether the response is still pending |
| Standalone.VertxExecutionContext.Suspend | extensions/resteasy/runtime/src/main/java/io/quarkus/resteasy/runtime/standalone/VertxHttpRequest.java:196-213 | first call sets wasSuspended and returns the async response; any later call throws IllegalStateException("Request already suspended"); no timer is armed |
| Standalone.VertxExecutionContext.Complete | extensions/resteasy/runtime/src/main/java/io/quarkus/resteasy/runtime/standalone/VertxHttpRequest.java:215-219 | does nothing unless suspended, then acts as the async response's complete |
| Standalone.VertxHttpAsyncResponse.constructor | extensions/resteasy/runtime/src/main/java/io/quarkus/resteasy/runtime/standalone/VertxHttpRequest.java:226-235 | timerID starts at -1 (no timer); nothing flushed |
| Standalone.VertxHttpAsyncResponse.IsSuspended | extensions/resteasy/runtime/src/main/java/io/quarkus/resteasy/runtime/standalone/VertxHttpRequest.java:333-336 | true exactly when neither done nor cancelled, which is exactly when nothing has been flushed |
| Standalone.VertxHttpAsyncResponse.IsCancelled | extensions/resteasy/runtime/src/main/java/io/quarkus/resteasy/runtime/standalone/VertxHttpRequest.java:338-341 | true exactly when the one flush was the 503 of a cancel |
| Standalone.VertxHttpAsyncResponse.IsDone | extensions/resteasy/runtime/src/main/java/io/quarkus/resteasy/runtime/standalone/VertxHttpRequest.java:343-346 | true exactly when the response has been flushed, once |
| Standalone.VertxHttpAsyncResponse.VertxFlush | extensions/resteasy/runtime/src/main/java/io/quarkus/resteasy/runtime/standalone/VertxHttpRequest.java:309-315 | one flush of the given outcome is recorded |
| Standalone.VertxHttpAsyncResponse.InternalResume | extensions/resteasy/runtime/src/main/java/io/quarkus/resteasy/runtime/standalone/VertxHttpRequest.java:262 | hands the outcome over, flushing once, and returns what internalResume answers |
| Standalone.VertxHttpAsyncResponse.Complete | extensions/resteasy/runtime/src/main/java/io/quarkus/resteasy/runtime/standalone/VertxHttpRequest.java:242-252 | no change once done or cancelled; otherwise sets done and flushes once, keeping the invariant |
| Standalone.VertxHttpAsyncResponse.Resume | extensions/resteasy/runtime/src/main/java/io/quarkus/resteasy/runtime/standalone/VertxHttpRequest.java:254-264 | false and no change once done or cancelled; otherwise sets done, flushes the entity once and returns internalResume's answer |
| Standalone.VertxHttpAsyncResponse.ResumeFailure | extensions/resteasy/runtime/src/main/java/io/quarkus/resteasy/runtime/standalone/VertxHttpRequest.java:266-276 | as Resume, flushing the Throwable |
| Standalone.VertxHttpAsyncResponse.CancelWith | extensions/resteasy/runtime/src/main/java/io/quarkus/resteasy/runtime/standalone/VertxHttpRequest.java:278-331 | true and no change if cancelled; false and no change if done; otherwise sets done and cancelled and flushes one 503 |
| Standalone.VertxHttpAsyncResponse.Cancel | extensions/resteasy/runtime/src/main/java/io/quarkus/resteasy/runtime/standalone/VertxHttpRequest.java:278-291 | the cancel rules, with a 503 carrying no Retry-After |
| Standalone.VertxHttpAsyncResponse.CancelRetryAfterSeconds | extensions/resteasy/runtime/src/main/java/io/quarkus/resteasy/runtime/standalone/VertxHttpRequest.java:293-307 | the cancel rules, with a Retry-After of the given seconds |
| Standalone.VertxHttpAsyncResponse.CancelRetryAfterDate | extensions/resteasy/runtime/src/main/java/io/quarkus/resteasy/runtime/standalone/VertxHttpRequest.java:317-331 | the cancel rules, with a Retry-After of the given date |
| Standalone.VertxHttpAsyncResponse.SetTimeout | extensions/resteasy/runtime/src/main/java/io/quarkus/resteasy/runtime/standalone/VertxHttpRequest.java:348-359 | false and no change once done or cancelled; false with timerID kept if an armed timer cannot be cancelled; otherwise the new timer replaces it and true |
| Standalone.VertxHttpAsyncResponse.Perform | extensions/resteasy/runtime/src/main/java/io/quarkus/resteasy/runtime/standalone/VertxHttpRequest.java:362-363 | a call made by a timeout handler changes the state as that operation's step says |
| Standalone.VertxHttpAsyncResponse.HandleTimeout | extensions/resteasy/runtime/src/main/java/io/quarkus/resteasy/runtime/standalone/VertxHttpRequest.java:361-368 | runs the handler's calls; reports whether the handler's exception escaped, and then skips the fallback; otherwise resumes with ServiceUnavailableException unless done, so that done holds with exactly one flush |
| ProtocolProperties.InitialInv | extensions/resteasy/runtime/src/main/java/io/quarkus/resteasy/runtime/standalone/VertxHttpRequest.java:173-175 | the freshly constructed state satisfies the flag invariant |
| ProtocolProperties.PendingIffNothingFlushed | extensions/resteasy/runtime/src/main/java/io/quarkus/resteasy/runtime/standalone/VertxHttpRequest.java:333-336 | under the invariant, !done && !cancelled holds exactly when nothing has been flushed |
| ProtocolProperties.ApplyPreservesInv | extensions/resteasy/runtime/src/main/java/io/quarkus/resteasy/runtime/standalone/VertxHttpRequest.java:207-358 | every single call keeps: cancelled implies done, at most one flush, done iff flushed, cancelled iff that flush was a cancel's 503 |
| ProtocolProperties.RunPreservesInv | extensions/resteasy/runtime/src/main/java/io/quarkus/resteasy/runtime/standalone/VertxHttpRequest.java:207-358 | any sequence of calls keeps the invariant |
| ProtocolProperties.TimeoutPreservesInv | extensions/resteasy/runtime/src/main/java/io/quarkus/resteasy/runtime/standalone/VertxHttpRequest.java:361-368 | handleTimeout, whatever its handler does, keeps the invariant |
| ProtocolProperties.TracePreservesInv | extensions/resteasy/runtime/src/main/java/io/quarkus/resteasy/runtime/standalone/VertxHttpRequest.java:207-368 | any history of calls and timer firings keeps the invariant |
| ProtocolProperties.AtMostOneFlush | extensions/resteasy/runtime/src/main/java/io/quarkus/resteasy/runtime/standalone/VertxHttpRequest.java:242-331 | over any history from construction: at most one flush, done iff flushed, cancelled implies done |
| ProtocolProperties.ApplyExtends | extensions/resteasy/runtime/src/main/java/io/quarkus/resteasy/runtime/standalone/VertxHttpRequest.java:207-358 | no single call turns wasSuspended, done or cancelled back to false or undoes a flush or a timer call |
| ProtocolProperties.RunExtends | extensions/resteasy/runtime/src/main/java/io/quarkus/resteasy/runtime/standalone/VertxHttpRequest.java:207-358 | the same over any sequence of calls |
| ProtocolProperties.TimeoutExtends | extensions/resteasy/runtime/src/main/java/io/quarkus/resteasy/runtime/standalone/VertxHttpRequest.java:361-368 | the same for handleTimeout |
| ProtocolProperties.TraceExtends | extensions/resteasy/runtime/src/main/java/io/quarkus/resteasy/runtime/standalone/VertxHttpRequest.java:207-368 | the same over any history: the flags are monotone |
| ProtocolProperties.DoneIsFinal | extensions/resteasy/runtime/src/main/java/io/quarkus/resteasy/runtime/standalone/VertxHttpRequest.java:242-358 | once done, a call changes no flag of the response, no timer and flushes nothing |
| ProtocolProperties.RunAfterDone | extensions/resteasy/runtime/src/main/java/io/quarkus/resteasy/runtime/standalone/VertxHttpRequest.java:242-358 | the same over any sequence of calls |
| ProtocolProperties.StaleTimeoutIsHarmless | extensions/resteasy/runtime/src/main/java/io/quarkus/resteasy/runtime/standalone/VertxHttpRequest.java:361-368 | a timer firing after the request is done (nothing disarmed it) flushes nothing and changes neither done, cancelled nor the timer; the handler still runs and may set wasSuspended |
| ProtocolProperties.NothingAfterDone | extensions/resteasy/runtime/src/main/java/io/quarkus/resteasy/runtime/standalone/VertxHttpRequest.java:242-368 | once done is set, no later call or timer firing produces a second flush or touches the timer |
| ProtocolProperties.SuspendIsSingleUse | extensions/resteasy/runtime/src/main/java/io/quarkus/resteasy/runtime/standalone/VertxHttpRequest.java:207-213 | suspend returns the handle iff not yet suspended, leaves wasSuspended true and the timer untouched, and a second suspend always throws |
| ProtocolProperties.TerminatingCallWins | extensions/resteasy/runtime/src/main/java/io/quarkus/resteasy/runtime/standalone/VertxHttpRequest.java:242-331 | on a pending request, complete/resume/cancel set done (and cancelled exactly for a cancel), flush their outcome once, leave the timer, and return internalResume's answer |
| ProtocolProperties.TerminatingCallLoses | extensions/resteasy/runtime/src/main/java/io/quarkus/resteasy/runtime/standalone/VertxHttpRequest.java:242-331 | once done or cancelled, complete/resume/cancel change nothing; resume returns false, cancel returns true iff already cancelled |
| ProtocolProperties.ContextCompleteNeedsSuspend | extensions/resteasy/runtime/src/main/java/io/quarkus/resteasy/runtime/standalone/VertxHttpRequest.java:215-219 | the execution context's complete is a no-op unless suspended, and then equals the async response's complete |
| ProtocolProperties.RaceHasOneWinner | extensions/resteasy/runtime/src/main/java/io/quarkus/resteasy/runtime/standalone/VertxHttpRequest.java:242-331 | of two terminating calls on a pending request the first flushes, the second changes nothing and reports false (true only for cancel after cancel) |
| ProtocolProperties.SetTimeoutIgnoresSuspension | extensions/resteasy/runtime/src/main/java/io/quarkus/resteasy/runtime/standalone/VertxHttpRequest.java:349-358 | on a freshly constructed request, suspended or not, setTimeout arms a timer and returns true |
| ProtocolProperties.TimeoutGuaranteesProgress | extensions/resteasy/runtime/src/main/java/io/quarkus/resteasy/runtime/standalone/VertxHttpRequest.java:361-368 | unless the handler throws, after handleTimeout done holds with exactly one flush: nothing is added if the handler finished the request, otherwise the flush is the ServiceUnavailableException; if it throws, the state is what its calls left |
| ProtocolProperties.ThrowingHandlerLeavesPending | extensions/resteasy/runtime/src/main/java/io/quarkus/resteasy/runtime/standalone/VertxHttpRequest.java:361-368 | a handler calling suspend on a suspended request gets the IllegalStateException; if it lets it escape, the fallback is skipped and the request stays pending with nothing flushed |
| ProtocolProperties.TimeoutOverridesRearm | extensions/resteasy/runtime/src/main/java/io/quarkus/resteasy/runtime/standalone/VertxHttpRequest.java:349-368 | a handler that only calls setTimeout does not keep the request suspended: it is resumed with ServiceUnavailableException, and the new timer stays armed |
| ProtocolProperties.FirstTerminatingCallDecides | extensions/resteasy/runtime/src/main/java/io/quarkus/resteasy/runtime/standalone/VertxHttpRequest.java:242-368 | after the first terminating call on a pending request, whatever happens next, its outcome is the only flush |
| ProtocolProperties.TimeoutWithoutResume | extensions/resteasy/runtime/src/main/java/io/quarkus/resteasy/runtime/standalone/VertxHttpRequest.java:349-368 | suspend, setTimeout(100 ms), timer fires with no handler: one ServiceUnavailableException flush, and the context still reports suspended |
| ProtocolProperties.ResumeBeforeTimeout | extensions/resteasy/runtime/src/main/java/io/quarkus/resteasy/runtime/standalone/VertxHttpRequest.java:254-368 | suspend, setTimeout, resume(entity), timer fires: the entity is the one flush and a later cancel returns false |

## Left out

- `vertxFlush` / `VertxHttpResponse.finish()`: the socket write and the IOException it wraps in a RuntimeException are I/O; the model only records that a flush of a given outcome happened.
- `internalResume` and the RESTEasy base classes `AbstractAsynchronousResponse` / `AbstractExecutionContext`: library code not part of this model. Their delivery of the entity, the mapping of an exception to a response, and the asynchronous completion callback are collapsed into one recorded flush; the boolean they return is an input of the call.
- The Vert.x timer (`context.owner().setTimer` / `cancelTimer`) and real time: foreign calls. `cancelTimer`'s answer and `setTimer`'s non-negative id are inputs; no callback is scheduled, and a timer firing is an event of a history (`TimerFired`), not tied to the delay. Vert.x's refusal of a delay under 1 ms (an IllegalArgumentException thrown by `setTimer` after `cancelTimer` has already run, leaving `timerID` on the cancelled id) is not modelled: any delay arms a timer. The id `setTimer` hands out is not required to differ from the one already armed.
- `TimeUnit` conversion in `suspend(time, unit)` and `setTimeout(time, unit)`: the delay is taken in milliseconds; `unit.toMillis` saturation is not modelled.
- `synchronized`, `volatile` and races between threads: concurrency. Every method is taken as one atomic step. Only `complete`, `resume`, `cancel` and `setTimeout` of the async response hold `responseLock`; `VertxExecutionContext.suspend` and `complete` take no lock, so two concurrent suspends could both pass the `wasSuspended` check, and `handleTimeout` reads `done` outside the lock; the model does not capture those interleavings.
- The user `TimeoutHandler` (set through the RESTEasy base class): modelled only as the list of calls it makes on this request and whether an exception then escapes it; an exception in the middle of its calls is the same as a shorter list that then throws.
- `cancel((Date) null)`: the Retry-After date is an integer here, so there is no null date; what JAX-RS does with a null header value is not part of this model.
- `Response.status(SERVICE_UNAVAILABLE).header(RETRY_AFTER, …)`: JAX-RS values, represented by the `ServiceUnavailable(retryAfter)` outcome; a `Date` is represented by its milliseconds since the epoch.
- Header, URI, method, input-stream and remote-host getters and setters, `getResponse`, `getAsyncContext`, `getAsyncResponse`, `initialRequestThreadFinished` (empty), `forward` (throws NotImplementedYetException) and `wasForwarded` (false): plumbing with no state of the protocol.
- `suspend()` and `suspend(millis)`: they delegate to `suspend(time, unit)` and are represented by the one `Suspend` method.
- Standalone.VertxHttpRequest.GetAttributeNames: returns the set of names; the live, ordered `Enumeration` over the map's key set (and what happens if the map changes while it is enumerated) is not modelled.
- Null attribute values: the value type `V` is generic, so a caller that stores null picks a `V` that includes it; `getAttribute` then cannot tell a stored null from a missing name, as in the code.
- Null attribute names: the `HashMap` accepts a null key, so `setAttribute(null, v)` and `getAttribute(null)` work in the code; a name here is a `string`, which cannot be null, so that case is not modelled.
