/** Rate gates on monotonic time, and the gate of the path probes. */
module RateGate {
  import opened Models

  /** Whether an attempt is allowed now. */
  predicate Due(last: Option<real>, now: real, interval: real) {
    last.None? || now - last.value >= interval
  }

  datatype Outcome = Skipped | Completed | Raised

  /** PathProbeCollector: the attempt is noted before the probes run, so a failing probe counts too. */
  class PathProbeCollector {
    const interval: real
    var lastAttempt: Option<real>

    constructor (minimumInterval: real)
      ensures interval == (if minimumInterval > 300.0 then minimumInterval else 300.0) && lastAttempt == None
    {
      interval := if minimumInterval > 300.0 then minimumInterval else 300.0;
      lastAttempt := None;
    }

    method Collect(now: real, probesRaise: bool) returns (outcome: Outcome)
      modifies this
      ensures outcome.Skipped? <==> !Due(old(lastAttempt), now, interval)
      ensures outcome.Raised? <==> Due(old(lastAttempt), now, interval) && probesRaise
      ensures lastAttempt == if Due(old(lastAttempt), now, interval) then Some(now) else old(lastAttempt)
    {
      if lastAttempt.Some? && now - lastAttempt.value < interval {
        return Skipped;
      }
      lastAttempt := Some(now);
      outcome := if probesRaise then Raised else Completed;
    }

    /** A whole run of calls. */
    method CollectAll(times: seq<real>, raises: seq<bool>) returns (attempts: seq<real>)
      requires |raises| == |times| && lastAttempt == None
      modifies this
      ensures attempts == Attempts(times, interval)
    {
      attempts := [];
      for i := 0 to |times|
        invariant attempts == Attempts(times[..i], interval)
        invariant lastAttempt == LastOf(attempts)
      {
        assert times[..i + 1][..|times[..i + 1]| - 1] == times[..i];
        var outcome := Collect(times[i], raises[i]);
        if !outcome.Skipped? {
          attempts := attempts + [times[i]];
        }
      }
      assert times[..|times|] == times;
    }
  }

  function LastOf(attempts: seq<real>): Option<real> {
    if attempts == [] then None else Some(attempts[|attempts| - 1])
  }

  /** The times, among all calls, at which an attempt is made. */
  function Attempts(times: seq<real>, interval: real): seq<real> {
    if times == [] then
      []
    else
      var before, now := Attempts(times[..|times| - 1], interval), times[|times| - 1];
      before + if Due(LastOf(before), now, interval) then [now] else []
  }

  predicate Spaced(attempts: seq<real>, interval: real) {
    forall i | 0 < i < |attempts| :: attempts[i] - attempts[i - 1] >= interval
  }

  lemma {:induction false} AttemptsAreSpaced(times: seq<real>, interval: real)
    ensures Spaced(Attempts(times, interval), interval)
  {
    if times == [] {
    } else {
      AttemptsAreSpaced(times[..|times| - 1], interval);
    }
  }

  /** An attempt is made as soon as the interval has passed: after any call the newest one is younger than that. */
  lemma {:induction false} NoNeedlessWait(times: seq<real>, interval: real)
    requires times != [] && interval > 0.0
    ensures var attempts, now := Attempts(times, interval), times[|times| - 1];
            attempts != [] && now - attempts[|attempts| - 1] < interval
  {
  }

  /** Every call is an attempt if and only if none came before it or the newest is the interval away. */
  lemma {:induction false} AttemptIffDue(times: seq<real>, interval: real)
    requires times != []
    ensures var before, now := Attempts(times[..|times| - 1], interval), times[|times| - 1];
            && (before == [] || now - before[|before| - 1] >= interval <==>
                Attempts(times, interval) == before + [now])
            && (before != [] && now - before[|before| - 1] < interval <==> Attempts(times, interval) == before)
  {
    var before, now := Attempts(times[..|times| - 1], interval), times[|times| - 1];
    assert |before + [now]| == |before| + 1;
  }

  function CountIn(attempts: seq<real>, from: real, to: real): nat {
    if attempts == [] then 0
    else CountIn(attempts[..|attempts| - 1], from, to) + if from <= attempts[|attempts| - 1] <= to then 1 else 0
  }

  /** The length of n intervals laid end to end. */
  function Intervals(n: nat, interval: real): real {
    if n == 0 then 0.0 else Intervals(n - 1, interval) + interval
  }

  lemma {:induction false} IntervalsIsProduct(n: nat, interval: real)
    ensures Intervals(n, interval) == n as real * interval
  {
    if n == 0 {
    } else {
      IntervalsIsProduct(n - 1, interval);
      assert n as real == (n - 1) as real + 1.0;
      assert n as real * interval == (n - 1) as real * interval + interval;
    }
  }

  /** Counted attempts push the newest of them that far into the window. */
  lemma {:induction false} CountedAttemptsSpread(attempts: seq<real>, interval: real, from: real, to: real)
    returns (newest: real)
    requires Spaced(attempts, interval) && interval > 0.0 && CountIn(attempts, from, to) > 0
    ensures from <= newest <= to && newest <= attempts[|attempts| - 1]
    ensures newest - from >= Intervals(CountIn(attempts, from, to) - 1, interval)
  {
    var front, last := attempts[..|attempts| - 1], attempts[|attempts| - 1];
    if CountIn(front, from, to) == 0 {
      newest := last;
    } else {
      var before := CountedAttemptsSpread(front, interval, from, to);
      assert last - attempts[|attempts| - 2] >= interval;
      if from <= last <= to {
        newest := last;
      } else {
        newest := before;
      }
    }
  }

  lemma QuotientFloor(count: int, span: real, interval: real)
    requires interval > 0.0 && count as real * interval <= span
    ensures count <= (span / interval).Floor
  {
    var quotient := span / interval;
    assert quotient * interval == span;
    assert (quotient - count as real) * interval >= 0.0;
    assert quotient >= count as real;
  }

  /** Any window holds at most one attempt more than the whole intervals that fit into it,
      whatever the call times and whether or not attempts raise. */
  lemma WindowBound(times: seq<real>, interval: real, from: real, to: real)
    requires interval > 0.0 && from <= to
    ensures CountIn(Attempts(times, interval), from, to) <= 1 + ((to - from) / interval).Floor
  {
    var attempts := Attempts(times, interval);
    AttemptsAreSpaced(times, interval);
    if CountIn(attempts, from, to) > 0 {
      var newest := CountedAttemptsSpread(attempts, interval, from, to);
      IntervalsIsProduct(CountIn(attempts, from, to) - 1, interval);
      QuotientFloor(CountIn(attempts, from, to) - 1, to - from, interval);
    } else {
      QuotientFloor(0, to - from, interval);
    }
  }
}
