/**
 `CircuitBreaker` (src/infrastructure/generation/circuit_breaker.py). The clock is a
 number handed in with every call.
 */
module CircuitBreakers {
  import opened Wrappers

  datatype Limits = Limits(maxFailures: int, openDuration: real)

  datatype Breaker = Breaker(failures: nat, openedAt: Option<real>)

  const FRESH := Breaker(0, None)

  /* ---------- the operations as values ---------- */

  predicate Open(l: Limits, b: Breaker, now: real) {
    b.openedAt.Some? && now - b.openedAt.value < l.openDuration
  }

  /** Asking resets a breaker whose time is over, counters and all. */
  function Asked(l: Limits, b: Breaker, now: real): Breaker {
    if b.openedAt.Some? && !Open(l, b, now) then FRESH else b
  }

  function Failed(l: Limits, b: Breaker, now: real): Breaker {
    Breaker(b.failures + 1,
            if b.failures + 1 >= l.maxFailures && b.openedAt.None? then Some(now) else b.openedAt)
  }

  class CircuitBreaker {
    const name: string
    const limits: Limits
    var failureCount: nat
    var openedAt: Option<real>

    constructor (name: string, limits: Limits)
      ensures this.name == name && this.limits == limits && State() == FRESH
    {
      this.name, this.limits := name, limits;
      failureCount, openedAt := 0, None;
    }

    function State(): Breaker
      reads this
    {
      Breaker(failureCount, openedAt)
    }

    method IsOpen(now: real) returns (open: bool)
      modifies this
      ensures open == Open(limits, old(State()), now) && State() == Asked(limits, old(State()), now)
    {
      if openedAt.None? {
        return false;
      }
      var elapsed := now - openedAt.value;
      if elapsed >= limits.openDuration {
        openedAt, failureCount := None, 0;
        return false;
      }
      return true;
    }

    method RecordSuccess()
      modifies this
      ensures State() == FRESH
    {
      failureCount, openedAt := 0, None;
    }

    method RecordFailure(now: real)
      modifies this
      ensures State() == Failed(limits, old(State()), now)
    {
      failureCount := failureCount + 1;
      if failureCount >= limits.maxFailures && openedAt.None? {
        openedAt := Some(now);
      }
    }
  }

  /* ---------- a run of one breaker ---------- */

  /** One call that reaches the breaker: when it asks, when its attempt is over if it is
      let through, and whether the attempt succeeds. */
  datatype Call = Call(ask: real, done: real, ok: bool)

  function Step(l: Limits, b: Breaker, c: Call): Breaker {
    if Open(l, b, c.ask) then b
    else if c.ok then FRESH
    else Failed(l, Asked(l, b, c.ask), c.done)
  }

  function Run(l: Limits, b: Breaker, calls: seq<Call>): Breaker
    decreases |calls|
  {
    if calls == [] then b else Run(l, Step(l, b, calls[0]), calls[1..])
  }

  predicate InWindow(t: real, from: real, to: real) { from <= t < to }

  /** The attempts that start in the window. */
  function Attempts(l: Limits, b: Breaker, calls: seq<Call>, from: real, to: real): nat
    decreases |calls|
  {
    if calls == [] then 0
    else
      (if !Open(l, b, calls[0].ask) && InWindow(calls[0].ask, from, to) then 1 else 0)
        + Attempts(l, Step(l, b, calls[0]), calls[1..], from, to)
  }

  /** The clock does not run backwards. */
  predicate ClockRuns(calls: seq<Call>) {
    && (forall i :: 0 <= i < |calls| ==> calls[i].ask <= calls[i].done)
    && (forall i, j :: 0 <= i < j < |calls| ==> calls[i].done <= calls[j].ask)
  }

  /** The provider has no success in the window: no attempt both starts and succeeds in
      it. (An attempt that outlasts the window may well succeed afterwards.) */
  predicate NoSuccess(l: Limits, b: Breaker, calls: seq<Call>, from: real, to: real)
    decreases |calls|
  {
    calls == [] ||
    ((InWindow(calls[0].ask, from, to) && calls[0].done < to && !Open(l, b, calls[0].ask) ==> !calls[0].ok)
      && NoSuccess(l, Step(l, b, calls[0]), calls[1..], from, to))
  }

  /** `max(1, max_failures)`: a threshold below one acts as one. */
  function Threshold(l: Limits): nat {
    if l.maxFailures >= 1 then l.maxFailures else 1
  }

  /** Open exactly when the failures have reached the threshold. */
  predicate Consistent(l: Limits, b: Breaker) {
    b.openedAt.Some? <==> b.failures >= Threshold(l)
  }

  lemma StepKeepsConsistent(l: Limits, b: Breaker, c: Call)
    requires Consistent(l, b)
    ensures Consistent(l, Step(l, b, c))
  {
  }

  /** Over every run the breaker is open exactly when its count has reached the
      threshold. */
  lemma {:induction false} RunKeepsConsistent(l: Limits, b: Breaker, calls: seq<Call>)
    requires Consistent(l, b)
    ensures Consistent(l, Run(l, b, calls))
    decreases |calls|
  {
    if calls != [] {
      StepKeepsConsistent(l, b, calls[0]);
      RunKeepsConsistent(l, Step(l, b, calls[0]), calls[1..]);
    }
  }

  /** `n` attempts of the window have been made: while closed they are among the failures
      counted, and once open the breaker was opened inside the window. */
  predicate Counted(l: Limits, b: Breaker, n: nat, from: real) {
    && Consistent(l, b) && n <= Threshold(l)
    && (b.openedAt.None? ==> n <= b.failures)
    && (b.openedAt.Some? && n > 0 ==> b.openedAt.value >= from)
  }

  lemma StepCounts(l: Limits, b: Breaker, c: Call, n: nat, from: real)
    requires Counted(l, b, n, from) && from <= c.ask <= c.done && c.ask < from + l.openDuration
    requires Open(l, b, c.ask) || !c.ok
    ensures var tried := if Open(l, b, c.ask) then n else n + 1;
            Counted(l, Step(l, b, c), tried, from)
  {
  }

  lemma {:induction false} WindowFrom(l: Limits, b: Breaker, calls: seq<Call>, n: nat, from: real)
    requires Counted(l, b, n, from) && ClockRuns(calls)
    requires forall i :: 0 <= i < |calls| ==> calls[i].ask >= from
    requires NoSuccess(l, b, calls, from, from + l.openDuration)
    ensures n + Attempts(l, b, calls, from, from + l.openDuration) <= Threshold(l)
    decreases |calls|
  {
    var to := from + l.openDuration;
    if calls != [] {
      var c, rest := calls[0], calls[1..];
      assert forall i :: 0 <= i < |rest| ==> rest[i] == calls[i + 1];
      if c.ask < to && c.done >= to {
        NoneLater(l, Step(l, b, c), rest, from, to);
      } else if c.ask < to {
        StepCounts(l, b, c, n, from);
        WindowFrom(l, Step(l, b, c), rest, if Open(l, b, c.ask) then n else n + 1, from);
      } else {
        NoneLater(l, Step(l, b, c), rest, from, to);
      }
    }
  }

  lemma {:induction false} NoneLater(l: Limits, b: Breaker, calls: seq<Call>, from: real, to: real)
    requires forall i :: 0 <= i < |calls| ==> calls[i].ask >= to
    ensures Attempts(l, b, calls, from, to) == 0
    decreases |calls|
  {
    if calls != [] {
      NoneLater(l, Step(l, b, calls[0]), calls[1..], from, to);
    }
  }

  /** In any half-open window as long as the open time, with no success in it, a breaker
      lets at most `max_failures` attempts through. */
  lemma {:induction false} WindowBound(l: Limits, b: Breaker, calls: seq<Call>, from: real)
    requires Consistent(l, b) && ClockRuns(calls)
    requires NoSuccess(l, b, calls, from, from + l.openDuration)
    ensures Attempts(l, b, calls, from, from + l.openDuration) <= Threshold(l)
    decreases |calls|
  {
    if calls != [] {
      var c, rest := calls[0], calls[1..];
      assert forall i :: 0 <= i < |rest| ==> rest[i] == calls[i + 1];
      if c.ask < from {
        StepKeepsConsistent(l, b, c);
        WindowBound(l, Step(l, b, c), rest, from);
      } else {
        WindowFrom(l, b, calls, 0, from);
      }
    }
  }

  /** The end of `n` windows in a row. */
  function WindowsEnd(l: Limits, from: real, n: nat): real {
    if n == 0 then from else WindowsEnd(l, from, n - 1) + l.openDuration
  }

  /** So over `n` such windows in a row it lets at most `n` times as many through. */
  lemma {:induction false} WindowsBound(l: Limits, b: Breaker, calls: seq<Call>, from: real, n: nat)
    requires Consistent(l, b) && ClockRuns(calls) && l.openDuration > 0.0
    requires NoSuccess(l, b, calls, from, WindowsEnd(l, from, n))
    ensures WindowsEnd(l, from, n) >= from
    ensures Attempts(l, b, calls, from, WindowsEnd(l, from, n)) <= n * Threshold(l)
  {
    if n == 0 {
      EmptyWindow(l, b, calls, from, from);
    } else {
      var mid := WindowsEnd(l, from, n - 1);
      WindowsGrow(l, from, n - 1);
      Cut(l, b, calls, from, mid, WindowsEnd(l, from, n));
      WindowsBound(l, b, calls, from, n - 1);
      WindowBound(l, b, calls, mid);
      assert n * Threshold(l) == (n - 1) * Threshold(l) + Threshold(l);
    }
  }

  lemma {:induction false} WindowsGrow(l: Limits, from: real, n: nat)
    requires l.openDuration > 0.0
    ensures WindowsEnd(l, from, n) >= from
  {
    if n > 0 {
      WindowsGrow(l, from, n - 1);
    }
  }

  lemma {:induction false} EmptyWindow(l: Limits, b: Breaker, calls: seq<Call>, from: real, to: real)
    requires to <= from
    ensures Attempts(l, b, calls, from, to) == 0
    decreases |calls|
  {
    if calls != [] {
      EmptyWindow(l, Step(l, b, calls[0]), calls[1..], from, to);
    }
  }

  lemma {:induction false} Cut(l: Limits, b: Breaker, calls: seq<Call>, from: real, mid: real, to: real)
    requires from <= mid <= to && NoSuccess(l, b, calls, from, to)
    ensures NoSuccess(l, b, calls, from, mid) && NoSuccess(l, b, calls, mid, to)
    ensures Attempts(l, b, calls, from, to) == Attempts(l, b, calls, from, mid) + Attempts(l, b, calls, mid, to)
    decreases |calls|
  {
    if calls != [] {
      Cut(l, Step(l, b, calls[0]), calls[1..], from, mid, to);
    }
  }

  /* ---------- after the open time ---------- */

  predicate TimeIsOver(l: Limits, b: Breaker, now: real) {
    b.openedAt.Some? && now - b.openedAt.value >= l.openDuration
  }

  /** Failures that stay below the threshold add up, and the one that reaches it opens the
      breaker at its own time. */
  lemma {:induction false} FailuresAddUp(l: Limits, failures: nat, calls: seq<Call>)
    requires forall i :: 0 <= i < |calls| ==> !calls[i].ok
    requires calls != [] && failures + |calls| <= Threshold(l)
    ensures Run(l, Breaker(failures, None), calls) ==
            Breaker(failures + |calls|,
                    if failures + |calls| == Threshold(l) then Some(calls[|calls| - 1].done) else None)
    decreases |calls|
  {
    var next := Failed(l, Breaker(failures, None), calls[0].done);
    if |calls| == 1 {
      assert calls[1..] == [];
    } else {
      assert next == Breaker(failures + 1, None);
      FailuresAddUp(l, failures + 1, calls[1..]);
    }
  }

  /** The breaker is not half-open after the open time but as new: attempts that fail one
      after the other are all let through until there are as many as the threshold, and
      they open the breaker exactly when there are. */
  lemma CooldownTakesTheFullNumber(l: Limits, b: Breaker, calls: seq<Call>)
    requires calls != [] && TimeIsOver(l, b, calls[0].ask)
    requires |calls| <= Threshold(l) && forall i :: 0 <= i < |calls| ==> !calls[i].ok
    ensures forall i :: 0 <= i < |calls| ==> !Open(l, Run(l, b, calls[..i]), calls[i].ask)
    ensures Run(l, b, calls).failures == |calls|
    ensures Run(l, b, calls).openedAt ==
            if |calls| == Threshold(l) then Some(calls[|calls| - 1].done) else None
  {
    RunFromFresh(l, b, calls);
    FailuresAddUp(l, 0, calls);
    forall i | 0 <= i < |calls| ensures !Open(l, Run(l, b, calls[..i]), calls[i].ask) {
      if i > 0 {
        RunFromFresh(l, b, calls[..i]);
        FailuresAddUp(l, 0, calls[..i]);
      }
    }
  }

  lemma RunFromFresh(l: Limits, b: Breaker, calls: seq<Call>)
    requires calls != [] && TimeIsOver(l, b, calls[0].ask)
    ensures Run(l, b, calls) == Run(l, FRESH, calls)
  {
  }

  /** So the documented single probe is what happens exactly for a threshold of at most
      one: only then does one failed attempt after the open time open the breaker, for
      another open time. */
  lemma OneProbeExactlyWhen(l: Limits, b: Breaker, now: real, done: real, later: real)
    requires TimeIsOver(l, b, now)
    ensures !Open(l, b, now)
    ensures Open(l, Failed(l, Asked(l, b, now), done), later) <==>
            l.maxFailures <= 1 && later - done < l.openDuration
  {
  }

  /** Where the documentation fails: with a threshold of two the second attempt after the
      open time is let through although the first one failed. */
  lemma SecondProbeIsLetThrough()
    ensures var l := Limits(2, 60.0);
            var b := Breaker(2, Some(0.0));
            TimeIsOver(l, b, 60.0) && !Open(l, Failed(l, Asked(l, b, 60.0), 61.0), 62.0)
  {
  }

  /** A success starts the count over, whatever failed before: from then on it takes the full
      number of failures again. */
  lemma SuccessStartsOver(l: Limits, b: Breaker, success: Call, calls: seq<Call>)
    requires !Open(l, b, success.ask) && success.ok
    requires calls != [] && |calls| <= Threshold(l) && forall i :: 0 <= i < |calls| ==> !calls[i].ok
    ensures Run(l, b, [success] + calls).failures == |calls|
    ensures Run(l, b, [success] + calls).openedAt ==
            if |calls| == Threshold(l) then Some(calls[|calls| - 1].done) else None
  {
    assert ([success] + calls)[1..] == calls;
    FailuresAddUp(l, 0, calls);
  }
}
