/** `RunnableLambda.invoke` and its private `withTimeout`: how one call of the
    wrapped function settles, with and without a timeout.

    Time is abstract. A call of the wrapped function either settles
    synchronously (it returns a value or throws before handing control back)
    or returns a promise that settles a given number of milliseconds later.
    The race between that promise and the timer is written as the sequence of
    events the event loop delivers, and the promise's state after each one. */
module RunnableLambda {
  import opened Types
  import Decimal

  /** How one call `func(input)` settles. */
  datatype Call = Sync(result: Result<Value>) | Async(result: Result<Value>, after: nat)

  /** `config?.timeout` is truthy: present and not 0. A negative timeout is
      truthy too. */
  predicate TimeoutSet(config: Config)
  {
    config.timeout.Some? && config.timeout.value != 0
  }

  /** Node's `setTimeout` runs a callback whose delay is below 1 or above
      2^31 - 1 after 1 ms. */
  const MaxTimerDelay := 2147483647

  function TimerDelay(timeoutMs: int): nat
  {
    if 1 <= timeoutMs <= MaxTimerDelay then timeoutMs else 1
  }

  const TimeoutPrefix := "Function execution timed out after "

  /** The error the timer rejects with. */
  function TimeoutError(timeoutMs: int): Error
  {
    Error(TimeoutPrefix + Decimal.IntToString(timeoutMs) + "ms")
  }

  /** The timeout error carries the configured duration: different durations
      give different messages. */
  lemma TimeoutErrorInjective(a: int, b: int)
    ensures TimeoutError(a) == TimeoutError(b) ==> a == b
  {
    if TimeoutError(a) == TimeoutError(b) {
      var m := TimeoutError(a).message;
      assert Decimal.IntToString(a) == m[|TimeoutPrefix|..|m| - 2];
      assert Decimal.IntToString(b) == m[|TimeoutPrefix|..|m| - 2];
      Decimal.ParseIntToString(a);
      Decimal.ParseIntToString(b);
    }
  }

  /** The wrapped call settles before the timer fires. A synchronous call
      settles within the current turn, before any timer. When the promise and
      the timer are due at the same millisecond the model lets the timer win,
      so `TimedResult` and `Invoke` give the timeout error for a tie. */
  predicate FinishesFirst(call: Call, timeoutMs: int)
  {
    call.Sync? || call.after < TimerDelay(timeoutMs)
  }

  /** What a timed invocation is meant to settle with: the call's own result
      when it finishes first, the timeout error otherwise. */
  function TimedResult(call: Call, timeoutMs: int): Result<Value>
  {
    if FinishesFirst(call, timeoutMs) then call.result else Err(TimeoutError(timeoutMs))
  }

  /** What happens inside `withTimeout`, in event-loop order:
      `Arm` is `setTimeout`; `Throw` is `func` throwing synchronously inside
      the promise executor; `Done` is the `.then`/`.catch` handler of
      `Promise.resolve(func(input))`; `TimerDue` is the moment the timer's
      delay has elapsed (its callback runs only if it was not cleared). */
  datatype Event = Arm | Throw(error: Error) | Done(result: Result<Value>) | TimerDue

  /** The state of the timer and of the returned promise.
      `pendingAtSettle` records whether the timer was still pending at the
      moment the promise settled. */
  datatype Race = Race(timerPending: bool, outcome: Option<Result<Value>>, pendingAtSettle: bool)

  const Unsettled := Race(false, None, false)

  /** `resolve` / `reject`: only the first call has an effect. */
  function Settle(s: Race, r: Result<Value>): Race
  {
    if s.outcome.None? then s.(outcome := Some(r), pendingAtSettle := s.timerPending) else s
  }

  /** One event. With `guarded` false the executor is as written: a
      synchronous throw rejects the promise without clearing the timer. With
      `guarded` true the executor clears the timer first, as the handlers do. */
  function Step(s: Race, ev: Event, timeoutMs: int, guarded: bool): Race
  {
    match ev
    case Arm => s.(timerPending := true)
    case Throw(e) => if guarded then Settle(s.(timerPending := false), Err(e)) else Settle(s, Err(e))
    case Done(r) => Settle(s.(timerPending := false), r)
    case TimerDue =>
      if s.timerPending then Settle(s.(timerPending := false), Err(TimeoutError(timeoutMs))) else s
  }

  /** The states after each event. */
  function Run(s: Race, events: seq<Event>, timeoutMs: int, guarded: bool): (trace: seq<Race>)
    ensures |trace| == |events|
    decreases |events|
  {
    if events == [] then []
    else
      var next := Step(s, events[0], timeoutMs, guarded);
      [next] + Run(next, events[1..], timeoutMs, guarded)
  }

  /** The events of one timed call, in the order the event loop delivers
      them. A synchronous result is handled in a microtask, before any timer. */
  function Events(call: Call, timeoutMs: int): seq<Event>
  {
    match call
    case Sync(Err(e)) => [Arm, Throw(e), TimerDue]
    case Sync(r) => [Arm, Done(r), TimerDue]
    case Async(r, d) => if d < TimerDelay(timeoutMs) then [Arm, Done(r), TimerDue] else [Arm, TimerDue, Done(r)]
  }

  /** `withTimeout` as the source writes it. */
  function WithTimeoutAsWritten(call: Call, timeoutMs: int): seq<Race>
  {
    Run(Unsettled, Events(call, timeoutMs), timeoutMs, false)
  }

  /** `withTimeout` with the executor's synchronous throw handled like the
      `.catch` handler: clear the timer, then reject. */
  function WithTimeout(call: Call, timeoutMs: int): seq<Race>
  {
    Run(Unsettled, Events(call, timeoutMs), timeoutMs, true)
  }

  /** The trace of three events, one state per event. */
  lemma RunThree(s: Race, e0: Event, e1: Event, e2: Event, timeoutMs: int, guarded: bool)
    ensures var s1 := Step(s, e0, timeoutMs, guarded);
      var s2 := Step(s1, e1, timeoutMs, guarded);
      Run(s, [e0, e1, e2], timeoutMs, guarded) == [s1, s2, Step(s2, e2, timeoutMs, guarded)]
  {
    var s1 := Step(s, e0, timeoutMs, guarded);
    var s2 := Step(s1, e1, timeoutMs, guarded);
    var s3 := Step(s2, e2, timeoutMs, guarded);
    assert [e2][1..] == [];
    assert Run(s2, [e2], timeoutMs, guarded) == [s3];
    assert [e1, e2][1..] == [e2];
    assert Run(s1, [e1, e2], timeoutMs, guarded) == [s2, s3];
    assert [e0, e1, e2][1..] == [e1, e2];
  }

  /** From the first state in which the promise is settled, its outcome
      never changes. */
  predicate SettlesOnce(trace: seq<Race>)
  {
    forall i, j :: 0 <= i <= j < |trace| && trace[i].outcome.Some? ==> trace[j].outcome == trace[i].outcome
  }

  /** A promise settles once, whatever events follow: a settled promise stays
      as it is, and an unsettled one keeps the first outcome it gets. */
  lemma {:induction false} SettledOnce(s: Race, events: seq<Event>, timeoutMs: int, guarded: bool)
    ensures s.outcome.Some? ==>
      forall k :: 0 <= k < |events| ==> Run(s, events, timeoutMs, guarded)[k].outcome == s.outcome
    ensures SettlesOnce(Run(s, events, timeoutMs, guarded))
    decreases |events|
  {
    if events != [] {
      var next := Step(s, events[0], timeoutMs, guarded);
      var trace := Run(s, events, timeoutMs, guarded);
      var rest := Run(next, events[1..], timeoutMs, guarded);
      SettledOnce(next, events[1..], timeoutMs, guarded);
      assert trace == [next] + rest;
      assert trace[0] == next;
      assert s.outcome.Some? ==> next.outcome == s.outcome;
      assert forall k :: 1 <= k < |trace| ==> trace[k] == rest[k - 1];
      forall i, j | 0 <= i <= j < |trace| && trace[i].outcome.Some?
        ensures trace[j].outcome == trace[i].outcome
      {
        if 0 < i {
          assert trace[i] == rest[i - 1];
          assert trace[j] == rest[j - 1];
        } else if 0 < j {
          assert trace[j] == rest[j - 1];
          assert rest[j - 1].outcome == next.outcome;
        }
      }
    }
  }

  /** The timed call settles, exactly once, with the outcome of whichever of
      the call and the timer finished first; the timer is never left pending,
      neither at that moment nor at the end. */
  lemma WithTimeoutSettles(call: Call, timeoutMs: int)
    ensures var trace := WithTimeout(call, timeoutMs);
      && |trace| == 3
      && trace[0].outcome.None? && trace[0].timerPending
      && trace[2].outcome == Some(TimedResult(call, timeoutMs))
      && SettlesOnce(trace)
      && !trace[2].timerPending
      && !trace[2].pendingAtSettle
  {
    var events := Events(call, timeoutMs);
    var trace := WithTimeout(call, timeoutMs);
    SettledOnce(Unsettled, events, timeoutMs, true);
    var s1 := Step(Unsettled, events[0], timeoutMs, true);
    var s2 := Step(s1, events[1], timeoutMs, true);
    var s3 := Step(s2, events[2], timeoutMs, true);
    RunThree(Unsettled, events[0], events[1], events[2], timeoutMs, true);
    assert events == [events[0], events[1], events[2]];
    assert trace == [s1, s2, s3];
  }

  /** The promise `withTimeout`, as the source writes it, returns settles
      with `TimedResult`. */
  function WithTimeoutResult(call: Call, timeoutMs: int): (r: Result<Value>)
    ensures r == TimedResult(call, timeoutMs)
  {
    AsWrittenSameOutcome(call, timeoutMs);
    var trace := WithTimeoutAsWritten(call, timeoutMs);
    match trace[2].outcome
    case Some(r) => r
    case None => assert false; Err(Error(""))
  }

  /** `RunnableLambda.invoke`: without a truthy timeout the call's own
      result, value or error, unchanged; with one, the outcome of the race. */
  function Invoke(func: Value -> Call, input: Value, config: Config): (r: Result<Value>)
    ensures !TimeoutSet(config) ==> r == func(input).result
    ensures TimeoutSet(config) && FinishesFirst(func(input), config.timeout.value) ==> r == func(input).result
    ensures TimeoutSet(config) && !FinishesFirst(func(input), config.timeout.value) ==>
      r == Err(TimeoutError(config.timeout.value))
  {
    if TimeoutSet(config) then WithTimeoutResult(func(input), config.timeout.value) else func(input).result
  }

  /** A failure of the wrapped function is passed on as it is: whenever
      `invoke` fails with something other than the timeout error, the function
      itself failed with that error; and with no timeout every failure of the
      function is `invoke`'s failure. */
  lemma FailureRethrown(func: Value -> Call, input: Value, config: Config)
    ensures var r := Invoke(func, input, config);
      && (r.Err? && !(TimeoutSet(config) && r.error == TimeoutError(config.timeout.value)) ==> func(input).result == r)
      && (!TimeoutSet(config) && func(input).result.Err? ==> r == func(input).result)
  {
  }

  /** As written, the executor's synchronous throw settles the promise with
      the timer still pending: the timer later fires into an already settled
      promise. */
  lemma SyncThrowLeavesTimerPending(e: Error, timeoutMs: int)
    ensures var trace := WithTimeoutAsWritten(Sync(Err(e)), timeoutMs);
      && |trace| == 3
      && trace[1].outcome == Some(Err(e))
      && trace[1].timerPending
      && trace[2].pendingAtSettle
  {
    var events := Events(Sync(Err(e)), timeoutMs);
    var s1 := Step(Unsettled, events[0], timeoutMs, false);
    var s2 := Step(s1, events[1], timeoutMs, false);
    var s3 := Step(s2, events[2], timeoutMs, false);
    RunThree(Unsettled, events[0], events[1], events[2], timeoutMs, false);
    assert events == [events[0], events[1], events[2]];
    assert WithTimeoutAsWritten(Sync(Err(e)), timeoutMs) == [s1, s2, s3];
  }

  /** The guard changes only the timer, never the outcome: the source's
      promise settles exactly as the corrected one does. */
  lemma AsWrittenSameOutcome(call: Call, timeoutMs: int)
    ensures var written := WithTimeoutAsWritten(call, timeoutMs);
      && |written| == 3
      && written[2].outcome == Some(TimedResult(call, timeoutMs))
      && !written[2].timerPending
  {
    var events := Events(call, timeoutMs);
    var s1 := Step(Unsettled, events[0], timeoutMs, false);
    var s2 := Step(s1, events[1], timeoutMs, false);
    var s3 := Step(s2, events[2], timeoutMs, false);
    RunThree(Unsettled, events[0], events[1], events[2], timeoutMs, false);
    assert events == [events[0], events[1], events[2]];
    assert WithTimeoutAsWritten(call, timeoutMs) == [s1, s2, s3];
  }
}
