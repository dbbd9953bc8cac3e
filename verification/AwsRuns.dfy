/** LightsailCollector over whole runs: what it caches, how often it polls, and what the store then shows. */
module AwsRuns {
  import opened Models
  import opened Ledger
  import opened Schedule
  import opened Lightsail
  import opened MetricStores
  import opened AwsProjection
  import RateGate

  // ---------- one cycle of the adapter ----------

  /** The AWS part of one cycle: switched off, or a call of the adapter with the two clocks and what the
      control plane would come to. */
  datatype Poll = Off(now: Timestamp) | Call(monotonic: real, now: Timestamp, attempt: Attempt)

  /** What the cycle would record if it could not repeat an earlier snapshot. */
  function SnapshotOf(config: Config, freshFor: real, poll: Poll): Snapshot {
    match poll
    case Off(now) => Bare(now, Disabled, "telemetry disabled")
    case Call(_, now, attempt) => FreshSnapshot(config, freshFor, now, attempt)
  }

  /** LightsailCollector: between polls it repeats its last snapshot. */
  class LightsailCollector {
    const config: Config
    const interval: real
    const freshFor: real
    var lastAttempt: Option<real>
    var lastSnapshot: Option<Snapshot>

    constructor (config: Config, interval: real, freshFor: real)
      ensures this.config == config && this.interval == interval && this.freshFor == freshFor
      ensures lastAttempt == None && lastSnapshot == None
    {
      this.config, this.interval, this.freshFor := config, interval, freshFor;
      lastAttempt, lastSnapshot := None, None;
    }

    predicate CacheIsFresh(monotonic: real)
      reads this
    {
      lastSnapshot.Some? && lastAttempt.Some? && monotonic - lastAttempt.value < interval
    }

    /** One call; nothing comes back from an attempt that raises, and the cache keeps what it had. */
    method Collect(monotonic: real, now: Timestamp, attempt: Attempt) returns (snapshot: Option<Snapshot>)
      modifies this
      ensures old(CacheIsFresh(monotonic)) ==> snapshot == old(lastSnapshot) && lastAttempt == old(lastAttempt)
      ensures !old(CacheIsFresh(monotonic)) ==>
                && lastAttempt == Some(monotonic)
                && snapshot == if attempt.Raised? then None else Some(FreshSnapshot(config, freshFor, now, attempt))
      ensures lastSnapshot == if snapshot.Some? then snapshot else old(lastSnapshot)
    {
      if CacheIsFresh(monotonic) {
        return lastSnapshot;
      }
      lastAttempt := Some(monotonic);
      match attempt {
        case Raised =>
          return None;
        case NoClient =>
          var details := map["reason" := Text("client_unavailable"), "fresh_for_seconds" := Scalar.Number(freshFor)];
          var health := HealthObservation(now, "aws", Unavailable, "telemetry unavailable", details);
          snapshot := Some(Snapshot(now, GaugeIf(now, PLAN, config.allowance), health));
        case Answered(answers) =>
          var verdict := Evaluate(config, answers);
          var details := map["metric_window" := Text("current_month_utc"),
              "fresh_for_seconds" := Scalar.Number(freshFor)];
          var health := HealthObservation(now, "aws", verdict.state, "telemetry collected", details);
          snapshot := Some(Snapshot(now, GaugesOf(now, verdict.figures), health));
      }
      lastSnapshot := snapshot;
    }

    /** The AWS part of a cycle: what is recorded, and whether the control plane was polled for it. */
    method Observe(poll: Poll) returns (snapshot: Snapshot, polled: bool)
      modifies this
      ensures polled <==> poll.Call? && !old(CacheIsFresh(poll.monotonic))
      ensures snapshot == if poll.Call? && !polled then old(lastSnapshot).value else SnapshotOf(config, freshFor, poll)
      ensures poll.Off? ==> snapshot.gauges == [] && snapshot.health.state == Disabled && snapshot.at == poll.now
      ensures polled && poll.attempt.Raised? ==> snapshot.gauges == [] && snapshot.health.state == Unavailable
      ensures polled && poll.attempt.NoClient? ==>
                && snapshot.health.state == Unavailable
                && snapshot.gauges == if config.allowance.None? then []
                   else [GaugeObservation(poll.now, "aws", "transfer_plan_allocation_bytes",
                                          config.allowance.value as real, map[])]
      ensures polled ==> snapshot.at == poll.now
      ensures lastAttempt == if polled then Some(poll.monotonic) else old(lastAttempt)
      ensures lastSnapshot == if polled && !poll.attempt.Raised? then Some(snapshot) else old(lastSnapshot)
    {
      match poll {
        case Off(now) =>
          snapshot, polled := Bare(now, Disabled, "telemetry disabled"), false;
        case Call(monotonic, now, attempt) =>
          polled := !CacheIsFresh(monotonic);
          var collected := Collect(monotonic, now, attempt);
          snapshot := if collected.Some? then collected.value else Bare(now, Unavailable, "telemetry failed");
      }
    }

    /** A whole run of cycles: every snapshot is one the adapter took at this or an earlier call, and
        from the first call on that stores one, polls are the attempts of the gate. */
    method ObserveAll(polls: seq<Poll>) returns (snapshots: seq<Snapshot>, attempts: seq<real>, ghost origins: seq<nat>)
      requires lastAttempt == None && lastSnapshot == None
      modifies this
      ensures |snapshots| == |polls| && PolledBy(config, freshFor, polls, snapshots, origins)
      ensures forall i | 0 <= i < |origins| :: origins[i] <= i
      ensures forall i | 0 <= i < |snapshots| :: Proper(snapshots[i]) && FromAdapter(snapshots[i], config, freshFor)
      ensures PollsApart(polls) ==> DistinctPolls(snapshots)
      ensures FirstCallStores(polls) ==> attempts == RateGate.Attempts(CallTimes(polls), interval)
    {
      hide FreshSnapshot, Proper, FromAdapter, DistinctPolls, PollsApart, FirstCallStores, RateGate.Attempts,
          CallTimes, SnapshotOf;
      snapshots, attempts, origins := [], [], [];
      ghost var last := 0;
      NoCalls(interval);
      for n := 0 to |polls|
        invariant |snapshots| == n && PolledBy(config, freshFor, polls, snapshots, origins)
        invariant forall i | 0 <= i < |origins| :: origins[i] <= i
        invariant lastSnapshot.Some? ==> last < n && lastSnapshot.value == SnapshotOf(config, freshFor, polls[last])
        invariant FirstCallStores(polls) ==>
                    && attempts == RateGate.Attempts(CallTimes(polls[..n]), interval)
                    && lastAttempt == RateGate.LastOf(attempts) && (lastAttempt.Some? ==> lastSnapshot.Some?)
      {
        NextCall(polls, n, interval);
        ghost var origin := if polls[n].Call? && CacheIsFresh(polls[n].monotonic) then last else n;
        var snapshot, polled := Observe(polls[n]);
        if polled {
          attempts := attempts + [polls[n].monotonic];
          if !polls[n].attempt.Raised? {
            last := n;
          }
        }
        snapshots, origins := snapshots + [snapshot], origins + [origin];
      }
      assert polls[..|polls|] == polls;
      PolledSnapshots(config, freshFor, polls, snapshots, origins);
    }
  }

  // ---------- the gate ----------

  /** The monotonic times of the calls. */
  function CallTimes(polls: seq<Poll>): seq<real> {
    if polls == [] then []
    else CallTimes(polls[..|polls| - 1]) + if polls[|polls| - 1].Call? then [polls[|polls| - 1].monotonic] else []
  }

  /** The first call of the run, if there is one, does not raise: a snapshot is stored for the gate to rest on. */
  predicate FirstCallStores(polls: seq<Poll>) {
    forall i | 0 <= i < |polls| && polls[i].Call? && (forall j | 0 <= j < i :: polls[j].Off?) ::
        !polls[i].attempt.Raised?
  }

  lemma {:induction false} NoCallNoTime(polls: seq<Poll>)
    ensures CallTimes(polls) == [] <==> forall i | 0 <= i < |polls| :: polls[i].Off?
  {
    if polls == [] {
    } else {
      NoCallNoTime(polls[..|polls| - 1]);
    }
  }

  lemma NoCalls(interval: real)
    ensures RateGate.Attempts(CallTimes([]), interval) == []
  {
  }

  /** The first time is always an attempt. */
  lemma {:induction false} SomeAttempt(times: seq<real>, interval: real)
    ensures times != [] ==> RateGate.Attempts(times, interval) != []
  {
    if times == [] {
    } else {
      SomeAttempt(times[..|times| - 1], interval);
    }
  }

  lemma AttemptsSnoc(times: seq<real>, time: real, interval: real)
    ensures var before := RateGate.Attempts(times, interval);
            RateGate.Attempts(times + [time], interval) ==
            before + if RateGate.Due(RateGate.LastOf(before), time, interval) then [time] else []
  {
    assert (times + [time])[..|times|] == times;
  }

  lemma CallTimesStep(polls: seq<Poll>, n: nat)
    requires n < |polls|
    ensures CallTimes(polls[..n + 1]) == CallTimes(polls[..n]) + if polls[n].Call? then [polls[n].monotonic] else []
  {
    assert polls[..n + 1][..n] == polls[..n];
  }

  /** The first call of all stores a snapshot. */
  lemma FirstCall(polls: seq<Poll>, n: nat)
    requires n < |polls| && FirstCallStores(polls) && polls[n].Call? && CallTimes(polls[..n]) == []
    ensures !polls[n].attempt.Raised?
  {
    NoCallNoTime(polls[..n]);
    assert forall j | 0 <= j < n :: polls[..n][j] == polls[j];
  }

  /** One more cycle: its call is an attempt when it is due, and the first call of all stores a snapshot. */
  lemma NextCall(polls: seq<Poll>, n: nat, interval: real)
    requires n < |polls|
    ensures var before := RateGate.Attempts(CallTimes(polls[..n]), interval);
            RateGate.Attempts(CallTimes(polls[..n + 1]), interval) ==
            before + if polls[n].Call? && RateGate.Due(RateGate.LastOf(before), polls[n].monotonic, interval)
                     then [polls[n].monotonic] else []
    ensures FirstCallStores(polls) && polls[n].Call? && RateGate.Attempts(CallTimes(polls[..n]), interval) == [] ==>
              !polls[n].attempt.Raised?
  {
    hide RateGate.Attempts, CallTimes, RateGate.Due, RateGate.LastOf, FirstCallStores;
    var times := CallTimes(polls[..n]);
    CallTimesStep(polls, n);
    SomeAttempt(times, interval);
    if polls[n].Call? {
      AttemptsSnoc(times, polls[n].monotonic, interval);
      if FirstCallStores(polls) && times == [] {
        FirstCall(polls, n);
      }
    } else {
      assert times + [] == times;
    }
  }

  // ---------- snapshots of a run ----------

  /** Every snapshot was taken at the call it originates from. */
  predicate PolledBy(config: Config, freshFor: real, polls: seq<Poll>, snapshots: seq<Snapshot>, origins: seq<nat>) {
    && |origins| == |snapshots|
    && forall i | 0 <= i < |snapshots| ::
         origins[i] < |polls| && snapshots[i] == SnapshotOf(config, freshFor, polls[origins[i]])
  }

  /** Any two cycles are at least a millisecond apart. */
  predicate PollsApart(polls: seq<Poll>) {
    forall i, j | 0 <= i < |polls| && 0 <= j < |polls| && i != j :: Abs(polls[i].now - polls[j].now) >= 0.001
  }

  /** What a run of the adapter returns: proper snapshots of its own, no two of them too close. */
  lemma PolledSnapshots(config: Config, freshFor: real, polls: seq<Poll>, snapshots: seq<Snapshot>, origins: seq<nat>)
    requires PolledBy(config, freshFor, polls, snapshots, origins)
    ensures forall i | 0 <= i < |snapshots| :: Proper(snapshots[i]) && FromAdapter(snapshots[i], config, freshFor)
    ensures PollsApart(polls) ==> DistinctPolls(snapshots)
  {
    forall i | 0 <= i < |snapshots|
      ensures Proper(snapshots[i]) && FromAdapter(snapshots[i], config, freshFor)
      ensures snapshots[i].at == polls[origins[i]].now
    {
      SnapshotIsOwn(config, freshFor, polls[origins[i]]);
    }
    hide FreshSnapshot, Proper, FromAdapter, SnapshotOf, Abs;
    if PollsApart(polls) {
      forall i, j | 0 <= i < |snapshots| && 0 <= j < |snapshots|
        ensures snapshots[i] == snapshots[j] || Abs(snapshots[i].at - snapshots[j].at) >= 0.001
      {
        assert origins[i] != origins[j] ==> Abs(polls[origins[i]].now - polls[origins[j]].now) >= 0.001;
      }
    }
  }

  lemma SnapshotIsOwn(config: Config, freshFor: real, poll: Poll)
    ensures var s := SnapshotOf(config, freshFor, poll);
            s.at == poll.now && Proper(s) && FromAdapter(s, config, freshFor)
  {
    if poll.Call? {
      FreshSnapshotIsProper(config, freshFor, poll.now, poll.attempt);
    }
  }

  // ---------- adapter and store together ----------

  /** One cycle: its AWS part, perhaps a retention pass, and what the other collectors found. */
  datatype Cycle = Cycle(poll: Poll, pass: Option<(real, Days)>, others: Batch)

  function Polls(cycles: seq<Cycle>): seq<Poll> {
    seq(|cycles|, i requires 0 <= i < |cycles| => cycles[i].poll)
  }

  predicate WithoutAws(batch: Batch) {
    AwsGauges(batch.gauges) == [] && AwsHealth(batch.health) == []
  }

  function WithSnapshot(batch: Batch, s: Snapshot): Batch {
    Batch(batch.gauges + s.gauges, batch.counters, batch.health + [s.health])
  }

  lemma {:induction false} OnlyAwsGauges(gauges: seq<GaugeObservation>)
    requires forall i | 0 <= i < |gauges| :: gauges[i].source == "aws"
    ensures AwsGauges(gauges) == gauges
  {
    if gauges == [] {
    } else {
      OnlyAwsGauges(gauges[..|gauges| - 1]);
    }
  }

  lemma SnapshotIsCarried(batch: Batch, s: Snapshot)
    requires WithoutAws(batch) && Proper(s)
    ensures Carries(WithSnapshot(batch, s), s)
  {
    OnlyAwsGauges(s.gauges);
    AwsGaugesConcat(batch.gauges, s.gauges);
    AwsHealthConcat(batch.health, [s.health]);
    assert [s.health][..0] == [];
    assert AwsHealth([s.health]) == AwsHealth([]) + [s.health];
  }

  lemma OneMoreEvent(events: seq<Event>, snapshots: seq<Snapshot>, event: Event, s: Snapshot)
    requires SnapshotRun(events, snapshots)
    requires event.Record? ==> Proper(s) && Carries(event.batch, s)
    ensures SnapshotRun(events + [event], snapshots + [s])
  {
    hide Proper, Carries;
    var all, held := events + [event], snapshots + [s];
    assert forall i | 0 <= i < |events| :: all[i] == events[i] && held[i] == snapshots[i];
    assert all[|events|] == event && held[|events|] == s;
  }

  /** What a life has done so far: its run of the ledger, the snapshot of every event, which of them this
      adapter took and where, and which call the cache holds. */
  datatype Trace = Trace(events: seq<Event>, snapshots: seq<Snapshot>, taken: seq<Snapshot>, origins: seq<nat>,
      cached: nat)

  ghost predicate Traced(trace: Trace, earlier: seq<Snapshot>, config: Config, freshFor: real, polls: seq<Poll>) {
    && SnapshotRun(trace.events, trace.snapshots)
    && trace.snapshots == earlier + trace.taken
    && PolledBy(config, freshFor, polls, trace.taken, trace.origins)
  }

  function OneMore(trace: Trace, event: Event, s: Snapshot, origin: nat): Trace {
    trace.(events := trace.events + [event], snapshots := trace.snapshots + [s], taken := trace.taken + [s],
           origins := trace.origins + [origin])
  }

  lemma TraceOneMore(trace: Trace, earlier: seq<Snapshot>, config: Config, freshFor: real, polls: seq<Poll>,
                     event: Event, s: Snapshot, origin: nat)
    requires Traced(trace, earlier, config, freshFor, polls)
    requires origin < |polls| && s == SnapshotOf(config, freshFor, polls[origin])
    requires event.Record? ==> Proper(s) && Carries(event.batch, s)
    ensures Traced(OneMore(trace, event, s, origin), earlier, config, freshFor, polls)
    ensures Run(OneMore(trace, event, s, origin).events) == Apply(Run(trace.events), event)
  {
    hide SnapshotRun, SnapshotOf, Run, Apply, Proper, Carries;
    OneMoreEvent(trace.events, trace.snapshots, event, s);
    LastEvent(trace.events, event);
  }

  /** The cache holds what the cached call took. */
  ghost predicate CacheHolds(adapter: LightsailCollector, polls: seq<Poll>, trace: Trace, n: nat)
    requires n <= |polls|
    reads adapter
  {
    adapter.lastSnapshot.Some? ==>
      && trace.cached < n
      && adapter.lastSnapshot.value == SnapshotOf(adapter.config, adapter.freshFor, polls[trace.cached])
  }

  /** The store's part of a cycle: the pass when there is one, and one batch with the snapshot. */
  method StoreCycle(store: MetricStore, cycle: Cycle, snapshot: Snapshot, ghost origin: nat, ghost config: Config,
                    ghost freshFor: real, ghost polls: seq<Poll>, ghost earlier: seq<Snapshot>, ghost before: Trace)
    returns (ghost trace: Trace)
    requires WithoutAws(cycle.others) && origin < |polls| && snapshot == SnapshotOf(config, freshFor, polls[origin])
    requires Traced(before, earlier, config, freshFor, polls) && store.View() == Run(before.events)
    modifies store
    ensures Traced(trace, earlier, config, freshFor, polls) && store.View() == Run(trace.events)
    ensures before.events <= trace.events && trace.cached == before.cached
  {
    hide Run, Traced, SnapshotOf, Commit, Retained, Carries, Proper, WithoutAws, FromAdapter;
    trace := before;
    SnapshotIsOwn(config, freshFor, polls[origin]);
    if cycle.pass.Some? {
      var outcome := store.ApplyRetention(cycle.pass.value.0, cycle.pass.value.1.raw, cycle.pass.value.1.rollup);
      ghost var pass := Retain(cycle.pass.value.0, cycle.pass.value.1);
      TraceOneMore(trace, earlier, config, freshFor, polls, pass, snapshot, origin);
      trace := OneMore(trace, pass, snapshot, origin);
    }
    var batch := WithSnapshot(cycle.others, snapshot);
    var outcome := store.RecordBatch(batch);
    SnapshotIsCarried(cycle.others, snapshot);
    TraceOneMore(trace, earlier, config, freshFor, polls, Record(batch), snapshot, origin);
    trace := OneMore(trace, Record(batch), snapshot, origin);
  }

  /** One cycle of the daemon. */
  method LiveCycle(adapter: LightsailCollector, store: MetricStore, cycle: Cycle, ghost polls: seq<Poll>, ghost n: nat,
                   ghost earlier: seq<Snapshot>, ghost before: Trace) returns (ghost trace: Trace)
    requires n < |polls| && polls[n] == cycle.poll && WithoutAws(cycle.others)
    requires Traced(before, earlier, adapter.config, adapter.freshFor, polls) && CacheHolds(adapter, polls, before, n)
    requires store.View() == Run(before.events)
    modifies adapter, store
    ensures Traced(trace, earlier, adapter.config, adapter.freshFor, polls) && CacheHolds(adapter, polls, trace, n + 1)
    ensures store.View() == Run(trace.events) && before.events <= trace.events
  {
    hide Run, Traced, SnapshotOf, WithoutAws;
    trace := before;
    ghost var origin := if cycle.poll.Call? && adapter.CacheIsFresh(cycle.poll.monotonic) then trace.cached else n;
    var snapshot, polled := adapter.Observe(cycle.poll);
    if polled && !cycle.poll.attempt.Raised? {
      trace := trace.(cached := n);
      SameTrace(before, n, earlier, adapter.config, adapter.freshFor, polls);
    }
    trace := StoreCycle(store, cycle, snapshot, origin, adapter.config, adapter.freshFor, polls, earlier, trace);
  }

  lemma SameTrace(trace: Trace, cached: nat, earlier: seq<Snapshot>, config: Config, freshFor: real, polls: seq<Poll>)
    requires Traced(trace, earlier, config, freshFor, polls)
    ensures Traced(trace.(cached := cached), earlier, config, freshFor, polls)
  {
  }

  ghost predicate AllFromAdapter(snapshots: seq<Snapshot>, config: Config, freshFor: real) {
    forall i | 0 <= i < |snapshots| :: FromAdapter(snapshots[i], config, freshFor)
  }

  lemma StartOfTrace(before: seq<Event>, earlier: seq<Snapshot>, config: Config, freshFor: real, polls: seq<Poll>)
    requires SnapshotRun(before, earlier)
    ensures Traced(Trace(before, earlier, [], [], 0), earlier, config, freshFor, polls)
  {
  }

  /** What a trace says of its snapshots. */
  lemma TracedSnapshots(trace: Trace, earlier: seq<Snapshot>, config: Config, freshFor: real, polls: seq<Poll>)
    requires Traced(trace, earlier, config, freshFor, polls) && AllFromAdapter(earlier, config, freshFor)
    ensures SnapshotRun(trace.events, trace.snapshots) && earlier <= trace.snapshots
    ensures AllFromAdapter(trace.snapshots, config, freshFor)
    ensures earlier == [] && PollsApart(polls) ==> DistinctPolls(trace.snapshots)
  {
    hide SnapshotRun, FromAdapter, Proper, PollsApart, DistinctPolls, PolledBy;
    PolledSnapshots(config, freshFor, polls, trace.taken, trace.origins);
    assert earlier == [] ==> trace.snapshots == trace.taken;
  }

  lemma ShownIsSum(events: seq<Event>, snapshots: seq<Snapshot>, now: real, monthOf: real -> int, config: Config,
                   freshFor: real)
    requires SnapshotRun(events, snapshots) && DistinctPolls(snapshots) && AllFromAdapter(snapshots, config, freshFor)
    ensures Projected(Run(events), USED, now, monthOf) ==
            UsedBytes(Projected(Run(events), NETWORK_IN, now, monthOf),
                      Projected(Run(events), NETWORK_OUT, now, monthOf))
  {
    hide SnapshotRun, DistinctPolls, FromAdapter, Projected, UsedBytes, Run;
    TransferShownIsSum(events, snapshots, now, monthOf, config, freshFor);
  }

  /** A whole life of a newly started adapter and its store, which holds the run of an earlier life or
      nothing. The hypotheses of the theorems about the dashboard hold of it: what it returns comes from
      the adapter, and snapshots are distinct when its cycles are apart. So the transfer shown at its end,
      at any time and in any calendar, is the saturated sum of the two directions shown. */
  method Live(adapter: LightsailCollector, store: MetricStore, cycles: seq<Cycle>, ghost now: real,
              ghost monthOf: real -> int, ghost before: seq<Event>, ghost earlier: seq<Snapshot>)
    returns (ghost events: seq<Event>, ghost snapshots: seq<Snapshot>)
    requires adapter.lastSnapshot == None && store.View() == Run(before)
    requires SnapshotRun(before, earlier) && AllFromAdapter(earlier, adapter.config, adapter.freshFor)
    requires forall i | 0 <= i < |cycles| :: WithoutAws(cycles[i].others)
    modifies adapter, store
    ensures store.View() == Run(events) && before <= events && earlier <= snapshots
    ensures SnapshotRun(events, snapshots) && AllFromAdapter(snapshots, adapter.config, adapter.freshFor)
    ensures earlier == [] && PollsApart(Polls(cycles)) ==> DistinctPolls(snapshots)
    ensures DistinctPolls(snapshots) ==>
              Projected(store.View(), USED, now, monthOf) ==
              UsedBytes(Projected(store.View(), NETWORK_IN, now, monthOf),
                        Projected(store.View(), NETWORK_OUT, now, monthOf))
  {
    hide Run, Traced, SnapshotRun, SnapshotOf, AllFromAdapter, DistinctPolls, PollsApart, Projected, UsedBytes,
        WithoutAws;
    ghost var polls := Polls(cycles);
    ghost var trace := Trace(before, earlier, [], [], 0);
    StartOfTrace(before, earlier, adapter.config, adapter.freshFor, polls);
    for n := 0 to |cycles|
      invariant Traced(trace, earlier, adapter.config, adapter.freshFor, polls) && CacheHolds(adapter, polls, trace, n)
      invariant store.View() == Run(trace.events) && before <= trace.events
    {
      trace := LiveCycle(adapter, store, cycles[n], polls, n, earlier, trace);
    }
    events, snapshots := trace.events, trace.snapshots;
    TracedSnapshots(trace, earlier, adapter.config, adapter.freshFor, polls);
    if DistinctPolls(snapshots) {
      ShownIsSum(events, snapshots, now, monthOf, adapter.config, adapter.freshFor);
    }
  }
}
