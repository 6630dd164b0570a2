/**
 * What the asynchronous-response protocol guarantees: the flag invariant,
 * monotonicity of the flags and of the flush record, "nothing happens once
 * done", at most one flush over any history, and the per-operation rules of
 * suspend, complete, resume, cancel, setTimeout and handleTimeout.
 */
module ProtocolProperties {
  import opened AsyncProtocol

  /**
   * The invariant every operation keeps: cancelled implies done, at most one
   * flush has happened, done holds exactly when it has, and cancelled holds
   * exactly when that flush was the 503 of a cancel.
   */
  ghost predicate Inv(s: State) {
    && (s.cancelled ==> s.done)
    && |s.flushes| <= 1
    && (s.done <==> |s.flushes| == 1)
    && (s.cancelled <==> s.done && s.flushes[0].ServiceUnavailable?)
  }

  /** b is a later state than a: no flag went back to false and the records only grew. */
  ghost predicate Extends(a: State, b: State) {
    && (a.wasSuspended ==> b.wasSuspended)
    && (a.done ==> b.done)
    && (a.cancelled ==> b.cancelled)
    && a.flushes <= b.flushes
    && a.timerCalls <= b.timerCalls
  }

  /** Nothing on the response side changed from a to b: no flag, no timer, no flush. */
  ghost predicate Settled(a: State, b: State) {
    && b.done == a.done
    && b.cancelled == a.cancelled
    && b.timerId == a.timerId
    && b.flushes == a.flushes
    && b.timerCalls == a.timerCalls
  }

  /** The calls that try to finish the request. */
  predicate Terminating(c: Call) {
    c.Complete? || c.ResumeEntity? || c.ResumeFailure? || c.Cancel?
  }

  /** The flush a terminating call performs when it is the one that finishes the request. */
  function OutcomeOf(c: Call): Outcome
    requires Terminating(c)
  {
    match c
    case Complete => Finished
    case ResumeEntity(e, _) => Delivered(e)
    case ResumeFailure(f, _) => Raised(f)
    case Cancel(retry, _) => ServiceUnavailable(retry)
  }

  // ---------------------------------------------------------------------
  // The invariant

  lemma InitialInv()
    ensures Inv(Initial)
  {
  }

  /** Under the invariant, the request is pending exactly when nothing has been flushed. */
  lemma PendingIffNothingFlushed(s: State)
    requires Inv(s)
    ensures Pending(s) <==> s.flushes == []
  {
  }

  lemma ApplyPreservesInv(s: State, c: Call)
    requires Inv(s)
    ensures Inv(Apply(s, c).next)
  {
  }

  lemma {:induction false} RunPreservesInv(s: State, calls: seq<Call>)
    requires Inv(s)
    ensures Inv(Run(s, calls))
    decreases |calls|
  {
    if calls != [] {
      var init := calls[..|calls| - 1];
      RunPreservesInv(s, init);
      ApplyPreservesInv(Run(s, init), calls[|calls| - 1]);
    }
  }

  lemma TimeoutPreservesInv(s: State, handler: Option<TimeoutHandler>)
    requires Inv(s)
    ensures Inv(TimeoutStep(s, handler))
  {
    if handler.Some? {
      RunPreservesInv(s, handler.value.calls);
    }
  }

  lemma {:induction false} TracePreservesInv(s: State, events: seq<Event>)
    requires Inv(s)
    ensures Inv(Trace(s, events))
    decreases |events|
  {
    if events != [] {
      var init := events[..|events| - 1];
      TracePreservesInv(s, init);
      var t := Trace(s, init);
      match events[|events| - 1]
      case Invoke(c) => ApplyPreservesInv(t, c);
      case TimerFired(h) => TimeoutPreservesInv(t, h);
    }
  }

  /**
   * Over any history of calls and timer firings from construction, the
   * response is flushed at most once, done holds exactly when it has been,
   * and cancelled implies done.
   */
  lemma AtMostOneFlush(events: seq<Event>)
    ensures var t := Trace(Initial, events);
      && |t.flushes| <= 1
      && (t.done <==> |t.flushes| == 1)
      && (t.cancelled ==> t.done)
  {
    TracePreservesInv(Initial, events);
  }

  // ---------------------------------------------------------------------
  // Monotonicity

  lemma ApplyExtends(s: State, c: Call)
    ensures Extends(s, Apply(s, c).next)
  {
  }

  lemma ExtendsTransitive(a: State, b: State, c: State)
    requires Extends(a, b) && Extends(b, c)
    ensures Extends(a, c)
  {
  }

  lemma {:induction false} RunExtends(s: State, calls: seq<Call>)
    ensures Extends(s, Run(s, calls))
    decreases |calls|
  {
    if calls != [] {
      var init := calls[..|calls| - 1];
      RunExtends(s, init);
      ApplyExtends(Run(s, init), calls[|calls| - 1]);
      ExtendsTransitive(s, Run(s, init), Run(s, calls));
    }
  }

  lemma TimeoutExtends(s: State, handler: Option<TimeoutHandler>)
    ensures Extends(s, TimeoutStep(s, handler))
  {
    var t := AfterHandler(s, handler);
    if handler.Some? {
      RunExtends(s, handler.value.calls);
    }
    if !t.done {
      ExtendsTransitive(s, t, TimeoutStep(s, handler));
    }
  }

  /**
   * Over any history, wasSuspended, done and cancelled never go from true
   * back to false, and no flush or timer call is ever undone.
   */
  lemma {:induction false} TraceExtends(s: State, events: seq<Event>)
    ensures Extends(s, Trace(s, events))
    decreases |events|
  {
    if events != [] {
      var init := events[..|events| - 1];
      TraceExtends(s, init);
      var t := Trace(s, init);
      match events[|events| - 1] {
        case Invoke(c) => ApplyExtends(t, c);
        case TimerFired(h) => TimeoutExtends(t, h);
      }
      ExtendsTransitive(s, t, Trace(s, events));
    }
  }

  // ---------------------------------------------------------------------
  // Nothing happens once done

  lemma DoneIsFinal(s: State, c: Call)
    requires s.done
    ensures Settled(s, Apply(s, c).next)
  {
  }

  lemma {:induction false} RunAfterDone(s: State, calls: seq<Call>)
    requires s.done
    ensures Settled(s, Run(s, calls))
    decreases |calls|
  {
    if calls != [] {
      var init := calls[..|calls| - 1];
      RunAfterDone(s, init);
      DoneIsFinal(Run(s, init), calls[|calls| - 1]);
    }
  }

  /**
   * A timer that fires after the request is done (nothing disarms it) flushes
   * nothing and touches no response flag and no timer; the handler still
   * runs, and a suspend it makes can still set wasSuspended.
   */
  lemma StaleTimeoutIsHarmless(s: State, handler: Option<TimeoutHandler>)
    requires s.done
    ensures Settled(s, TimeoutStep(s, handler))
  {
    if handler.Some? {
      RunAfterDone(s, handler.value.calls);
    }
  }

  /** Once done is set, no later call or timer firing flushes again or touches the timer. */
  lemma {:induction false} NothingAfterDone(s: State, events: seq<Event>)
    requires s.done
    ensures Settled(s, Trace(s, events))
    decreases |events|
  {
    if events != [] {
      var init := events[..|events| - 1];
      NothingAfterDone(s, init);
      var t := Trace(s, init);
      match events[|events| - 1]
      case Invoke(c) => DoneIsFinal(t, c);
      case TimerFired(h) => StaleTimeoutIsHarmless(t, h);
    }
  }

  // ---------------------------------------------------------------------
  // The rules of each operation

  /** suspend succeeds once; every later suspend throws, and suspend never arms a timer. */
  lemma SuspendIsSingleUse(s: State, time1: int, time2: int)
    ensures Apply(s, Suspend(time1)).reply ==
            (if s.wasSuspended then IllegalState(AlreadySuspended) else AsyncResponseHandle)
    ensures Apply(s, Suspend(time1)).next == s.(wasSuspended := true)
    ensures Apply(Apply(s, Suspend(time1)).next, Suspend(time2)).reply == IllegalState(AlreadySuspended)
  {
  }

  /**
   * complete, resume and cancel on a pending request: done is set, cancelled
   * exactly for a cancel, one flush of the call's outcome, timer untouched;
   * resume and cancel return what internalResume returns.
   */
  lemma TerminatingCallWins(s: State, c: Call)
    requires Terminating(c) && Pending(s)
    ensures var t := Apply(s, c);
      && t.next == s.(done := true, cancelled := c.Cancel?, flushes := s.flushes + [OutcomeOf(c)])
      && t.reply == (if c.Complete? then NoValue else Returned(c.internalResumeResult))
  {
  }

  /**
   * complete, resume and cancel once done or cancelled: no change at all;
   * resume returns false, cancel returns true exactly when already cancelled.
   */
  lemma TerminatingCallLoses(s: State, c: Call)
    requires Terminating(c) && !Pending(s)
    ensures Apply(s, c).next == s
    ensures Apply(s, c).reply == (if c.Complete? then NoValue else Returned(c.Cancel? && s.cancelled))
  {
  }

  /** The execution context's complete() forwards to the async response only once suspended. */
  lemma ContextCompleteNeedsSuspend(s: State)
    ensures !s.wasSuspended ==> Apply(s, ContextComplete).next == s
    ensures s.wasSuspended ==> Apply(s, ContextComplete) == Apply(s, Complete)
  {
  }

  /**
   * Two terminating calls racing for a pending request: the first one wins
   * and flushes; the second changes nothing and reports failure, except that
   * a cancel after a cancel reports true.
   */
  lemma RaceHasOneWinner(s: State, a: Call, b: Call)
    requires Inv(s) && Pending(s) && Terminating(a) && Terminating(b)
    ensures var first := Apply(s, a);
      var second := Apply(first.next, b);
      && second.next == first.next
      && second.next.flushes == [OutcomeOf(a)]
      && second.reply == (if b.Complete? then NoValue else Returned(a.Cancel? && b.Cancel?))
  {
    PendingIffNothingFlushed(s);
  }

  /**
   * setTimeout does not look at wasSuspended: on a freshly constructed
   * request it arms the timer and returns true whether or not suspend has
   * been called.
   */
  lemma SetTimeoutIgnoresSuspension(suspended: bool, delayMillis: int, cancelTimerResult: bool, scheduledId: nat)
    ensures var s := Initial.(wasSuspended := suspended);
      Apply(s, SetTimeout(delayMillis, cancelTimerResult, scheduledId)) ==
      Step(s.(timerId := scheduledId, timerCalls := [SetTimer(delayMillis, scheduledId)]), Returned(true))
  {
  }

  /**
   * Unless the handler throws, handleTimeout leaves the request done with
   * exactly one flush: if the handler finished it, nothing more happens;
   * otherwise the only flush is the ServiceUnavailableException. If the
   * handler throws, the state is whatever the handler's calls left.
   */
  lemma TimeoutGuaranteesProgress(s: State, handler: Option<TimeoutHandler>)
    requires Inv(s)
    ensures var t := TimeoutStep(s, handler);
      && (HandlerThrows(handler) ==> t == AfterHandler(s, handler))
      && (!HandlerThrows(handler) ==>
            && t.done
            && |t.flushes| == 1
            && (AfterHandler(s, handler).done ==> t == AfterHandler(s, handler))
            && (!AfterHandler(s, handler).done ==> t.flushes == [Raised(ServiceUnavailableException)]))
  {
    if handler.Some? {
      RunPreservesInv(s, handler.value.calls);
    }
    TimeoutPreservesInv(s, handler);
  }

  /**
   * A handler that calls suspend again gets the IllegalStateException; if it
   * lets that escape, handleTimeout is cut short before its fallback resume,
   * and the request stays suspended with nothing flushed.
   */
  lemma ThrowingHandlerLeavesPending(s: State, timeMillis: int)
    requires Inv(s) && s.wasSuspended && Pending(s)
    ensures Apply(s, Suspend(timeMillis)).reply == IllegalState(AlreadySuspended)
    ensures var t := TimeoutStep(s, Some(TimeoutHandler([Suspend(timeMillis)], true)));
      && t == s
      && Pending(t)
      && t.flushes == []
  {
    var calls := [Suspend(timeMillis)];
    assert calls[..0] == [];
    assert Run(s, calls) == Apply(s, calls[0]).next;
    PendingIffNothingFlushed(s);
  }

  /**
   * A handler that only re-arms the timeout does not keep the request
   * suspended: the fallback resumes it right after, and the timer the handler
   * armed (if cancelTimer let it) stays armed on a finished request.
   */
  lemma TimeoutOverridesRearm(s: State, delayMillis: int, cancelTimerResult: bool, scheduledId: nat)
    requires Inv(s) && Pending(s)
    ensures var t := TimeoutStep(s, Some(TimeoutHandler([SetTimeout(delayMillis, cancelTimerResult, scheduledId)], false)));
      && t.done
      && t.flushes == [Raised(ServiceUnavailableException)]
      && (s.timerId <= NoTimer || cancelTimerResult ==> t.timerId == scheduledId)
  {
    var calls := [SetTimeout(delayMillis, cancelTimerResult, scheduledId)];
    assert calls[..0] == [];
    assert Run(s, calls) == Apply(s, calls[0]).next;
    PendingIffNothingFlushed(s);
  }

  // ---------------------------------------------------------------------
  // Histories

  /**
   * The first terminating call on a pending request decides the response:
   * whatever happens afterwards (other resumes, cancels, timer firings),
   * the only flush is that call's outcome.
   */
  lemma FirstTerminatingCallDecides(s: State, c: Call, events: seq<Event>)
    requires Inv(s) && Pending(s) && Terminating(c)
    ensures Trace(Apply(s, c).next, events).flushes == [OutcomeOf(c)]
    ensures Trace(Apply(s, c).next, events).done
  {
    PendingIffNothingFlushed(s);
    NothingAfterDone(Apply(s, c).next, events);
  }

  /**
   * A request suspended, given a 100 ms timeout and never resumed: when the
   * timer fires without a handler, the one flush is the
   * ServiceUnavailableException, and the execution context still reports
   * itself suspended.
   */
  lemma TimeoutWithoutResume()
    ensures var t := Trace(Initial, [Invoke(Suspend(100)), Invoke(SetTimeout(100, true, 0)), TimerFired(None)]);
      t.flushes == [Raised(ServiceUnavailableException)] && t.wasSuspended && t.done && !t.cancelled
  {
    var events := [Invoke(Suspend(100)), Invoke(SetTimeout(100, true, 0)), TimerFired(None)];
    var suspended := Initial.(wasSuspended := true);
    var armed := suspended.(timerId := 0, timerCalls := [SetTimer(100, 0)]);
    assert Trace(Initial, events[..1]) == suspended by {
      assert events[..1][..0] == [];
    }
    assert Trace(Initial, events[..2]) == armed by {
      assert events[..2][..1] == events[..1];
    }
    assert Trace(Initial, events) == armed.(done := true, flushes := [Raised(ServiceUnavailableException)]);
  }

  /**
   * The same request resumed with an entity before the timer fires: the
   * entity is the one flush, and a cancel afterwards returns false.
   */
  lemma ResumeBeforeTimeout(ok: Entity)
    ensures var t := Trace(Initial, [Invoke(Suspend(100)), Invoke(SetTimeout(100, true, 0)),
                                     Invoke(ResumeEntity(ok, true)), TimerFired(None)]);
      t.flushes == [Delivered(ok)] && Apply(t, Cancel(None, true)).reply == Returned(false)
  {
    var prefix := [Invoke(Suspend(100)), Invoke(SetTimeout(100, true, 0)), Invoke(ResumeEntity(ok, true))];
    var events := prefix + [TimerFired(None)];
    var suspended := Initial.(wasSuspended := true);
    var armed := suspended.(timerId := 0, timerCalls := [SetTimer(100, 0)]);
    var resumed := armed.(done := true, flushes := [Delivered(ok)]);
    assert Trace(Initial, prefix[..1]) == suspended by {
      assert prefix[..1][..0] == [];
    }
    assert Trace(Initial, prefix[..2]) == armed by {
      assert prefix[..2][..1] == prefix[..1];
    }
    assert Trace(Initial, prefix) == resumed by {
      assert prefix[..2] == prefix[..|prefix| - 1];
    }
    assert Trace(Initial, events) == resumed by {
      assert events[..|events| - 1] == prefix;
    }
    assert events == [Invoke(Suspend(100)), Invoke(SetTimeout(100, true, 0)),
                      Invoke(ResumeEntity(ok, true)), TimerFired(None)];
  }
}
