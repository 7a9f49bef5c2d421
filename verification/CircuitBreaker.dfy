/** The simple circuit breaker, called sequentially. Instants and durations are nanoseconds. */
module CircuitBreaker {
  import opened Wrappers

  datatype State = Closed | Open | HalfOpen

  datatype Breaker = Breaker(state: State, failures: int, lastFailTime: int)

  /** One call: when it is made, when the wrapped function would return, and whether it succeeds. */
  datatype Call = Call(start: int, end: int, ok: bool)

  datatype Outcome = Rejected | Failed | Tripped | Succeeded

  const FRESH := Breaker(Closed, 0, 0)

  function Step(maxFailures: int, timeout: int, b: Breaker, c: Call): (Breaker, Outcome) {
    if b.state == Open && c.start - b.lastFailTime <= timeout then (b, Rejected)
    else
      var state := if b.state == Open then HalfOpen else b.state;
      if c.ok then (Breaker(if state == HalfOpen then Closed else state, 0, b.lastFailTime), Succeeded)
      else if b.failures + 1 >= maxFailures then (Breaker(Open, b.failures + 1, c.end), Tripped)
      else (Breaker(state, b.failures + 1, c.end), Failed)
  }

  class SimpleCircuitBreaker {
    const maxFailures: int
    const timeout: int
    var failures: int
    var lastFailTime: int
    var state: State

    function View(): Breaker
      reads this
    {
      Breaker(state, failures, lastFailTime)
    }

    constructor (maxFailures: int, timeout: int)
      ensures this.maxFailures == maxFailures && this.timeout == timeout && View() == FRESH
    {
      this.maxFailures := maxFailures;
      this.timeout := timeout;
      failures, lastFailTime, state := 0, 0, Closed;
    }

    method Call(c: Call) returns (outcome: Outcome)
      modifies this
      ensures (View(), outcome) == Step(maxFailures, timeout, old(View()), c)
    {
      if state == Open {
        if c.start - lastFailTime > timeout {
          state := HalfOpen;
        } else {
          return Rejected;
        }
      }
      if !c.ok {
        failures := failures + 1;
        lastFailTime := c.end;
        if failures >= maxFailures {
          state := Open;
          return Tripped;
        }
        return Failed;
      }
      if state == HalfOpen {
        state := Closed;
      }
      failures := 0;
      return Succeeded;
    }
  }

  // ----- runs

  function After(maxFailures: int, timeout: int, b: Breaker, calls: seq<Call>): Breaker
    decreases |calls|
  {
    if calls == [] then b else After(maxFailures, timeout, Step(maxFailures, timeout, b, calls[0]).0, calls[1..])
  }

  /** The calls of a run that the breaker lets through, in order. */
  function Executed(maxFailures: int, timeout: int, b: Breaker, calls: seq<Call>): seq<Call>
    decreases |calls|
  {
    if calls == [] then []
    else
      var (b', outcome) := Step(maxFailures, timeout, b, calls[0]);
      (if outcome == Rejected then [] else [calls[0]]) + Executed(maxFailures, timeout, b', calls[1..])
  }

  /** Failures since the last success. */
  function TrailingFailures(calls: seq<Call>): nat {
    if calls == [] || calls[|calls| - 1].ok then 0 else 1 + TrailingFailures(calls[..|calls| - 1])
  }

  function Threshold(maxFailures: int): int {
    MaxInt(maxFailures, 1)
  }

  predicate Settled(maxFailures: int, b: Breaker) {
    b.state != HalfOpen && b.failures >= 0 && (b.state == Closed <==> b.failures < Threshold(maxFailures))
  }

  /** What the executed calls leave behind: the failures to count, and the time of the last one. */
  predicate Reflects(maxFailures: int, b: Breaker, executed: seq<Call>) {
    && Settled(maxFailures, b) && b.failures == TrailingFailures(executed)
    && (b.failures > 0 ==> executed != [] && b.lastFailTime == executed[|executed| - 1].end)
  }

  lemma StepReflects(maxFailures: int, timeout: int, b: Breaker, executed: seq<Call>, c: Call)
    requires Reflects(maxFailures, b, executed)
    ensures var (b', outcome) := Step(maxFailures, timeout, b, c);
      Reflects(maxFailures, b', if outcome == Rejected then executed else executed + [c])
  {
    assert (executed + [c])[..|executed|] == executed;
  }

  lemma {:induction false} RunReflects(maxFailures: int, timeout: int, b: Breaker, before: seq<Call>, calls: seq<Call>)
    requires Reflects(maxFailures, b, before)
    ensures Reflects(maxFailures, After(maxFailures, timeout, b, calls),
                     before + Executed(maxFailures, timeout, b, calls))
    decreases |calls|
  {
    if calls == [] {
      EmptySeq(before);
    } else {
      hide Step, Reflects;
      var (b', outcome) := Step(maxFailures, timeout, b, calls[0]);
      var rest := Executed(maxFailures, timeout, b', calls[1..]);
      StepReflects(maxFailures, timeout, b, before, calls[0]);
      if outcome == Rejected {
        RunReflects(maxFailures, timeout, b', before, calls[1..]);
        EmptySeq(rest);
      } else {
        RunReflects(maxFailures, timeout, b', before + [calls[0]], calls[1..]);
        Assoc(before, [calls[0]], rest);
      }
    }
  }

  lemma FreshReflects(maxFailures: int, timeout: int, calls: seq<Call>)
    ensures Reflects(maxFailures, After(maxFailures, timeout, FRESH, calls),
                     Executed(maxFailures, timeout, FRESH, calls))
  {
    RunReflects(maxFailures, timeout, FRESH, [], calls);
    EmptySeq(Executed(maxFailures, timeout, FRESH, calls));
  }

  /** Between calls of every run, and for every maxFailures, the breaker is never half
      open, it is closed exactly while its failure count is below the threshold, and the
      count is the number of executed failures since the last executed success. */
  lemma StateReflectsHistory(maxFailures: int, timeout: int, calls: seq<Call>)
    ensures var b := After(maxFailures, timeout, FRESH, calls);
      && b.state != HalfOpen
      && (b.state == Closed <==> b.failures < Threshold(maxFailures))
      && b.failures == TrailingFailures(Executed(maxFailures, timeout, FRESH, calls))
  {
    FreshReflects(maxFailures, timeout, calls);
  }

  /** After every run the next call is let through exactly when fewer failures than the
      threshold trail, or more than the timeout has passed since the last of them. One let
      through succeeds exactly when the wrapped function does, and then closes the breaker;
      a failure trips it exactly when it is the threshold's. One turned away changes nothing. */
  lemma NextCall(maxFailures: int, timeout: int, calls: seq<Call>, c: Call)
    ensures var executed := Executed(maxFailures, timeout, FRESH, calls);
      var n := TrailingFailures(executed);
      var b := After(maxFailures, timeout, FRESH, calls);
      var (b', outcome) := Step(maxFailures, timeout, b, c);
      && (n > 0 ==> executed != [])
      && (outcome == Rejected
          <==> n >= Threshold(maxFailures) && c.start - executed[|executed| - 1].end <= timeout)
      && (outcome == Rejected ==> b' == b)
      && (outcome == Succeeded <==> outcome != Rejected && c.ok)
      && (outcome == Succeeded ==> b'.state == Closed && b'.failures == 0)
      && (outcome == Tripped <==> outcome != Rejected && !c.ok && n + 1 >= Threshold(maxFailures))
      && (outcome == Tripped ==> b'.state == Open)
      && (outcome == Failed ==> b'.state == Closed)
  {
    FreshReflects(maxFailures, timeout, calls);
  }

  // ----- how many calls an outage can cost

  predicate InOrder(t: int, calls: seq<Call>)
    decreases |calls|
  {
    calls == [] || (t <= calls[0].start <= calls[0].end && InOrder(calls[0].end, calls[1..]))
  }

  function EndOf(t: int, calls: seq<Call>): int {
    if calls == [] then t else calls[|calls| - 1].end
  }

  predicate AllFail(calls: seq<Call>) {
    forall c :: c in calls ==> !c.ok
  }

  lemma ExecutedStep(maxFailures: int, timeout: int, b: Breaker, t: int, calls: seq<Call>)
    requires calls != [] && InOrder(t, calls) && AllFail(Executed(maxFailures, timeout, b, calls))
    ensures var (b', outcome) := Step(maxFailures, timeout, b, calls[0]);
      var rest := Executed(maxFailures, timeout, b', calls[1..]);
      && AllFail(rest) && (outcome != Rejected ==> !calls[0].ok)
      && |Executed(maxFailures, timeout, b, calls)| == (if outcome == Rejected then 0 else 1) + |rest|
      && EndOf(t, calls) == EndOf(calls[0].end, calls[1..])
      && InOrder(calls[0].end, calls[1..])
  {
    var (b', outcome) := Step(maxFailures, timeout, b, calls[0]);
    var all, rest := Executed(maxFailures, timeout, b, calls), Executed(maxFailures, timeout, b', calls[1..]);
    assert forall c :: c in rest ==> c in all;
    if outcome != Rejected {
      assert all[0] == calls[0];
    }
  }

  lemma {:induction false} TimePasses(t: int, calls: seq<Call>)
    requires InOrder(t, calls)
    ensures t <= EndOf(t, calls)
    decreases |calls|
  {
    if calls != [] {
      TimePasses(calls[0].end, calls[1..]);
    }
  }

  /** An open breaker lets a failing call through only after each full timeout. */
  lemma {:induction false} OpenOutage(maxFailures: int, timeout: int, b: Breaker, t: int, calls: seq<Call>)
    requires Settled(maxFailures, b) && b.state == Open && b.lastFailTime <= t && InOrder(t, calls)
    requires AllFail(Executed(maxFailures, timeout, b, calls))
    ensures var n := |Executed(maxFailures, timeout, b, calls)|;
      n == 0 || n * timeout < EndOf(t, calls) - b.lastFailTime
    decreases |calls|
  {
    if calls != [] {
      ExecutedStep(maxFailures, timeout, b, t, calls);
      var b' := Step(maxFailures, timeout, b, calls[0]).0;
      hide Step, InOrder, AllFail;
      OpenOutage(maxFailures, timeout, b', calls[0].end, calls[1..]);
      TimePasses(calls[0].end, calls[1..]);
      var m := |Executed(maxFailures, timeout, b', calls[1..])|;
      assert (m + 1) * timeout == m * timeout + timeout;
    }
  }

  lemma {:induction false} ClosedOutage(maxFailures: int, timeout: int, b: Breaker, t: int, calls: seq<Call>)
    requires Settled(maxFailures, b) && b.state == Closed && InOrder(t, calls)
    requires AllFail(Executed(maxFailures, timeout, b, calls))
    ensures var extra := |Executed(maxFailures, timeout, b, calls)| - (Threshold(maxFailures) - b.failures);
      extra <= 0 || extra * timeout < EndOf(t, calls) - t
    decreases |calls|
  {
    if calls != [] {
      ExecutedStep(maxFailures, timeout, b, t, calls);
      var b' := Step(maxFailures, timeout, b, calls[0]).0;
      if b'.state == Closed {
        ClosedOutage(maxFailures, timeout, b', calls[0].end, calls[1..]);
      } else {
        OpenOutage(maxFailures, timeout, b', calls[0].end, calls[1..]);
      }
    }
  }

  /** While everything fails, n calls let through by a fresh breaker between the start
      of the run and its end satisfy n <= threshold or (n - threshold) * timeout < length. */
  lemma OutageBound(maxFailures: int, timeout: int, t: int, calls: seq<Call>)
    requires InOrder(t, calls) && AllFail(Executed(maxFailures, timeout, FRESH, calls))
    ensures var extra := |Executed(maxFailures, timeout, FRESH, calls)| - Threshold(maxFailures);
      extra <= 0 || extra * timeout < EndOf(t, calls) - t
  {
    ClosedOutage(maxFailures, timeout, FRESH, t, calls);
  }
}
