/** The daemon: every cycle may run a retention pass, gated on monotonic time, and then commits
    everything it collected as one batch. A whole life of the daemon is a run of the ledger. */
module Collector {
  import opened Models
  import opened Ledger
  import opened Schedule
  import opened RateGate
  import opened MetricStores
  import opened Readings

  /** How a retention pass would go: the checkpoint that follows it can still fail once it has taken effect. */
  datatype PassFate = Passes | FailsBefore | FailsAfter

  /** What one cycle meets: the two clocks, how a retention pass would go, and the batch collected. */
  datatype Tick = Tick(monotonic: real, wall: Timestamp, pass: PassFate, batch: Batch)

  /** The health record of a retention attempt, with the counts of the pass when there was one. */
  function AttemptHealth(tick: Tick, days: Days, counts: Counts): HealthObservation {
    var settings := map["raw_retention_days" := Number(days.raw as real),
        "rollup_retention_days" := Number(days.rollup as real)];
    if !tick.pass.Passes? then
      HealthObservation(tick.wall, "retention", Unavailable, "telemetry retention failed", settings)
    else
      HealthObservation(tick.wall, "retention", Healthy, "telemetry retention applied", settings + map[
        "counter_rows_compacted" := Number(counts.compacted as real),
        "gauge_rows_pruned" := Number(counts.gaugesPruned as real),
        "counter_rows_pruned" := Number(counts.rowsPruned as real),
        "health_rows_pruned" := Number(counts.healthPruned as real),
        "rollup_rows_pruned" := Number(counts.rollupsPruned as real)])
  }

  /** What the cycle commits, in one batch. */
  function CycleBatch(t: Tables, tick: Tick, due: bool, days: Days): Batch {
    if due
    then tick.batch.(health := tick.batch.health + [AttemptHealth(tick, days, CountsOf(t, tick.wall, days))])
    else tick.batch
  }

  predicate Detail(health: HealthObservation, name: string, n: int) {
    name in health.details && health.details[name] == Number(n as real)
  }

  predicate Settings(health: HealthObservation, days: Days) {
    Detail(health, "raw_retention_days", days.raw) && Detail(health, "rollup_retention_days", days.rollup)
  }

  /** The counts of a pass, by the names of the details. */
  predicate Reported(health: HealthObservation, counts: Counts) {
    && Detail(health, "counter_rows_compacted", counts.compacted)
    && Detail(health, "gauge_rows_pruned", counts.gaugesPruned)
    && Detail(health, "counter_rows_pruned", counts.rowsPruned)
    && Detail(health, "health_rows_pruned", counts.healthPruned)
    && Detail(health, "rollup_rows_pruned", counts.rollupsPruned)
  }

  /** What the health record of an attempt says of the pass: the settings always, and when the pass
      succeeded how many records it compacted and pruned. */
  ghost predicate AttemptReported(t: Tables, tick: Tick, days: Days, health: HealthObservation) {
    && health.at == tick.wall && health.component == "retention"
    && (health.state == Healthy <==> tick.pass == Passes) && (health.state == Unavailable <==> tick.pass != Passes)
    && Settings(health, days)
    && if tick.pass == Passes then
         exists counts :: Reported(health, counts)
           && CountedInTime(t, Retained(t, tick.wall, days), counts, tick.wall - (days.rollup * 86400) as real,
                            tick.wall - (days.raw * 86400) as real)
       else
         health.details.Keys == {"raw_retention_days", "rollup_retention_days"}
  }

  const DETAILS: seq<string> := ["raw_retention_days", "rollup_retention_days", "counter_rows_compacted",
                                 "gauge_rows_pruned", "counter_rows_pruned", "health_rows_pruned",
                                 "rollup_rows_pruned"]

  lemma DetailNames()
    ensures |DETAILS| == 7 && forall i, j | 0 <= i < j < 7 :: DETAILS[i] != DETAILS[j]
  {
    assert |"raw_retention_days"| == 18 && |"rollup_retention_days"| == 21 && |"counter_rows_compacted"| == 22;
    assert |"gauge_rows_pruned"| == 17 && |"counter_rows_pruned"| == 19;
    assert "health_rows_pruned"[0] == 'h' && "raw_retention_days"[0] == 'r' && "rollup_rows_pruned"[0] == 'r';
    assert |"health_rows_pruned"| == |"rollup_rows_pruned"| == 18;
    assert "rollup_rows_pruned"[1] == 'o' && "raw_retention_days"[1] == 'a';
  }

  /** A dictionary of seven different keys holds each of its values. */
  lemma SevenDetails(k: seq<string>, v: seq<Scalar>)
    requires |k| == |v| == 7 && forall i, j | 0 <= i < j < 7 :: k[i] != k[j]
    ensures var details := map[k[0] := v[0], k[1] := v[1]]
                           + map[k[2] := v[2], k[3] := v[3], k[4] := v[4], k[5] := v[5], k[6] := v[6]];
            && k[0] in details && k[1] in details && k[2] in details && k[3] in details && k[4] in details
            && k[5] in details && k[6] in details
            && details[k[0]] == v[0] && details[k[1]] == v[1] && details[k[2]] == v[2] && details[k[3]] == v[3]
            && details[k[4]] == v[4] && details[k[5]] == v[5] && details[k[6]] == v[6]
  {
  }

  lemma PassReported(tick: Tick, days: Days, c: Counts)
    requires tick.pass == Passes
    ensures Settings(AttemptHealth(tick, days, c), days) && Reported(AttemptHealth(tick, days, c), c)
  {
    DetailNames();
    SevenDetails(DETAILS, [Number(days.raw as real), Number(days.rollup as real), Number(c.compacted as real),
                           Number(c.gaugesPruned as real), Number(c.rowsPruned as real),
                           Number(c.healthPruned as real), Number(c.rollupsPruned as real)]);
  }

  lemma FailureReported(tick: Tick, days: Days, c: Counts)
    requires tick.pass != Passes
    ensures Settings(AttemptHealth(tick, days, c), days)
    ensures AttemptHealth(tick, days, c).details.Keys == {"raw_retention_days", "rollup_retention_days"}
  {
    assert |"raw_retention_days"| != |"rollup_retention_days"|;
  }

  lemma AttemptIsReported(t: Tables, tick: Tick, days: Days)
    ensures AttemptReported(t, tick, days, AttemptHealth(tick, days, CountsOf(t, tick.wall, days)))
  {
    CountsInTime(t, tick.wall, days);
    hide Retained, CountsOf, CountedInTime, Reported, Settings;
    var counts := CountsOf(t, tick.wall, days);
    if tick.pass == Passes {
      PassReported(tick, days, counts);
      assert Reported(AttemptHealth(tick, days, counts), counts);
    } else {
      FailureReported(tick, days, counts);
    }
  }

  /** A cycle commits what was collected, and with a due attempt its report besides. */
  lemma CycleIsReported(t: Tables, tick: Tick, due: bool, days: Days)
    ensures CycleBatch(t, tick, due, days).gauges == tick.batch.gauges
    ensures CycleBatch(t, tick, due, days).counters == tick.batch.counters
    ensures !due ==> CycleBatch(t, tick, due, days).health == tick.batch.health
    ensures due ==>
              var health := CycleBatch(t, tick, due, days).health;
              && |health| == |tick.batch.health| + 1 && health[..|tick.batch.health|] == tick.batch.health
              && AttemptReported(t, tick, days, health[|tick.batch.health|])
  {
    AttemptIsReported(t, tick, days);
    hide AttemptReported, AttemptHealth, CountsOf;
  }

  function Times(ticks: seq<Tick>): seq<real> {
    seq(|ticks|, i requires 0 <= i < |ticks| => ticks[i].monotonic)
  }

  /** What a cycle does to the ledger. */
  function CycleEvents(t: Tables, tick: Tick, due: bool, days: Days): seq<Event> {
    (if due && !tick.pass.FailsBefore? then [Retain(tick.wall, days)] else [])
    + [Record(CycleBatch(t, tick, due, days))]
  }

  /** The run of the ledger after a whole life of the daemon, which opened the database of an earlier run. */
  function Life(before: seq<Event>, ticks: seq<Tick>, interval: real, days: Days): (events: seq<Event>)
    ensures before <= events
  {
    if ticks == [] then
      before
    else
      var front, last := ticks[..|ticks| - 1], ticks[|ticks| - 1];
      var past := Life(before, front, interval, days);
      past + CycleEvents(Run(past), last, Due(LastOf(Attempts(Times(front), interval)), last.monotonic, interval), days)
  }

  /** What a cycle leaves in the tables. */
  function AfterCycle(t: Tables, tick: Tick, due: bool, days: Days): Tables {
    Apply(if due && !tick.pass.FailsBefore? then Retained(t, tick.wall, days) else t,
          Record(CycleBatch(t, tick, due, days)))
  }

  /** The newest records of the tables are those of a batch. */
  predicate EndsWith(t: Tables, batch: Batch) {
    && |batch.gauges| <= |t.gauges| && batch.gauges == t.gauges[|t.gauges| - |batch.gauges|..]
    && |batch.health| <= |t.health| && batch.health == t.health[|t.health| - |batch.health|..]
    && |batch.counters| <= |t.rows|
    && forall i | 0 <= i < |batch.counters| ::
         var row := t.rows[|t.rows| - |batch.counters| + i];
         row.series == batch.counters[i].series && row.at == batch.counters[i].at && row.raw == batch.counters[i].value
  }

  lemma CommittedEndsWith(t: Tables, batch: Batch)
    requires Commit(t, batch).Done?
    ensures EndsWith(Commit(t, batch).value.tables, batch)
  {
    hide Commit, PriorOf, Acceptable, Tells, Replies, Stand;
    BatchTells(t, batch);
    var after := Commit(t, batch).value.tables;
    assert |after.rows| - |batch.counters| == |t.rows|;
    forall i | 0 <= i < |batch.counters|
      ensures var row := after.rows[|after.rows| - |batch.counters| + i];
              row.series == batch.counters[i].series && row.at == batch.counters[i].at
              && row.raw == batch.counters[i].value
    {
      RowKeepsReading(PriorOf(t.cursors, batch.counters, i), batch.counters[i], after.rows[|t.rows| + i]);
    }
  }

  /** Whatever a cycle collected is stored after it, however old it is: its pass comes first. */
  lemma CollectedIsStored(t: Tables, tick: Tick, due: bool, days: Days)
    requires Commit(t, tick.batch).Done?
    ensures EndsWith(AfterCycle(t, tick, due, days), CycleBatch(t, tick, due, days))
  {
    hide EndsWith, Merge, Prune, Since, AttemptHealth, CountsOf, RecordAll;
    var before := if due && !tick.pass.FailsBefore? then Retained(t, tick.wall, days) else t;
    CommittedEndsWith(before, CycleBatch(t, tick, due, days));
  }

  lemma CycleApplied(past: seq<Event>, tick: Tick, due: bool, days: Days)
    ensures Run(past + CycleEvents(Run(past), tick, due, days)) == AfterCycle(Run(past), tick, due, days)
  {
    hide Run, Apply, Retained, CycleBatch;
    var pass := if due && !tick.pass.FailsBefore? then [Retain(tick.wall, days)] else [];
    var batch := Record(CycleBatch(Run(past), tick, due, days));
    assert past + CycleEvents(Run(past), tick, due, days) == (past + pass) + [batch];
    LastEvent(past + pass, batch);
    if due && !tick.pass.FailsBefore? {
      LastPass(past, tick.wall, days);
    } else {
      assert past + pass == past;
    }
  }

  /** One more cycle in the life of a daemon. */
  lemma NextCycle(before: seq<Event>, ticks: seq<Tick>, i: nat, interval: real, days: Days)
    requires i < |ticks|
    ensures var due := Due(LastOf(Attempts(Times(ticks[..i]), interval)), ticks[i].monotonic, interval);
            && Run(Life(before, ticks[..i + 1], interval, days))
               == AfterCycle(Run(Life(before, ticks[..i], interval, days)), ticks[i], due, days)
            && Attempts(Times(ticks[..i + 1]), interval) == Attempts(Times(ticks[..i]), interval)
               + if due then [ticks[i].monotonic] else []
  {
    hide AfterCycle, CycleEvents, Due, Run;
    var due := Due(LastOf(Attempts(Times(ticks[..i]), interval)), ticks[i].monotonic, interval);
    assert ticks[..i + 1][..|ticks[..i + 1]| - 1] == ticks[..i];
    assert Times(ticks[..i + 1])[..|ticks[..i + 1]| - 1] == Times(ticks[..i]);
    CycleApplied(Life(before, ticks[..i], interval, days), ticks[i], due, days);
  }

  class Collector {
    const store: MetricStore
    const interval: real
    const days: Days
    var lastRetentionAttempt: Option<real>

    constructor (store: MetricStore, interval: real, days: Days)
      ensures this.store == store && this.interval == interval && this.days == days && lastRetentionAttempt == None
    {
      this.store, this.interval, this.days, lastRetentionAttempt := store, interval, days, None;
    }

    /** One cycle. An attempt is noted before the pass, so a failing pass waits like any other. */
    method CollectOnce(tick: Tick) returns (attempted: bool)
      modifies this, store
      ensures attempted == Due(old(lastRetentionAttempt), tick.monotonic, interval)
      ensures lastRetentionAttempt == if attempted then Some(tick.monotonic) else old(lastRetentionAttempt)
      ensures store.View() == AfterCycle(old(store.View()), tick, attempted, days)
    {
      hide Commit, Retained, CountsOf;
      attempted := false;
      var batch := tick.batch;
      if lastRetentionAttempt.None? || tick.monotonic - lastRetentionAttempt.value >= interval {
        attempted := true;
        lastRetentionAttempt := Some(tick.monotonic);
        var counts := Counts(0, 0, 0, 0, 0);
        if !tick.pass.FailsBefore? {
          var outcome := store.ApplyRetention(tick.wall, days.raw, days.rollup);
          counts := outcome.counts;
        }
        batch := batch.(health := batch.health + [AttemptHealth(tick, days, counts)]);
      }
      var outcome := store.RecordBatch(batch);
    }

    /** A whole life, on the database of any earlier run; a daemon that was restarted starts anew. */
    method Live(ghost before: seq<Event>, ticks: seq<Tick>) returns (attempts: seq<real>)
      requires store.View() == Run(before) && lastRetentionAttempt == None
      modifies this, store
      ensures attempts == Attempts(Times(ticks), interval)
      ensures store.View() == Run(Life(before, ticks, interval, days))
    {
      hide AfterCycle;
      attempts := [];
      for i := 0 to |ticks|
        invariant attempts == Attempts(Times(ticks[..i]), interval)
        invariant lastRetentionAttempt == LastOf(attempts)
        invariant store.View() == Run(Life(before, ticks[..i], interval, days))
      {
        NextCycle(before, ticks, i, interval, days);
        var attempted := CollectOnce(ticks[i]);
        if attempted {
          attempts := attempts + [ticks[i].monotonic];
        }
      }
      assert ticks[..|ticks|] == ticks;
    }
  }

  /** A pass that was not there before the daemon started. */
  predicate PassOfTick(event: Event, ticks: seq<Tick>, days: Days) {
    event.Retain? ==> event.days == days && exists j :: 0 <= j < |ticks| && ticks[j].wall == event.now
  }

  lemma CyclePassIsTick(t: Tables, ticks: seq<Tick>, due: bool, days: Days, i: nat)
    requires ticks != [] && i < |CycleEvents(t, ticks[|ticks| - 1], due, days)|
    ensures PassOfTick(CycleEvents(t, ticks[|ticks| - 1], due, days)[i], ticks, days)
  {
    hide CycleBatch;
  }

  lemma OneMoreTick(event: Event, ticks: seq<Tick>, days: Days)
    requires ticks != [] && PassOfTick(event, ticks[..|ticks| - 1], days)
    ensures PassOfTick(event, ticks, days)
  {
    if event.Retain? {
      var j :| 0 <= j < |ticks| - 1 && ticks[..|ticks| - 1][j].wall == event.now;
      assert ticks[j].wall == event.now;
    }
  }

  predicate PassesOfTicks(events: seq<Event>, from: nat, ticks: seq<Tick>, days: Days) {
    forall i | from <= i < |events| :: PassOfTick(events[i], ticks, days)
  }

  lemma OneMoreCycle(past: seq<Event>, cycle: seq<Event>, from: nat, ticks: seq<Tick>, days: Days)
    requires ticks != [] && from <= |past|
    requires PassesOfTicks(past, from, ticks[..|ticks| - 1], days) && PassesOfTicks(cycle, 0, ticks, days)
    ensures PassesOfTicks(past + cycle, from, ticks, days)
  {
    hide PassOfTick;
    var events := past + cycle;
    forall i | from <= i < |events| ensures PassOfTick(events[i], ticks, days) {
      if i < |past| {
        assert PassOfTick(past[i], ticks[..|ticks| - 1], days);
        OneMoreTick(past[i], ticks, days);
      } else {
        assert events[i] == cycle[i - |past|];
      }
    }
  }

  lemma {:induction false} LifePassesAreTicks(before: seq<Event>, ticks: seq<Tick>, interval: real, days: Days)
    ensures PassesOfTicks(Life(before, ticks, interval, days), |before|, ticks, days)
  {
    if ticks == [] {
    } else {
      var front, last := ticks[..|ticks| - 1], ticks[|ticks| - 1];
      var past := Life(before, front, interval, days);
      var due := Due(LastOf(Attempts(Times(front), interval)), last.monotonic, interval);
      var cycle := CycleEvents(Run(past), last, due, days);
      assert Life(before, ticks, interval, days) == past + cycle;
      hide Life, Run, CycleEvents, Due, Attempts, Times, PassOfTick;
      LifePassesAreTicks(before, front, interval, days);
      forall i | 0 <= i < |cycle| ensures PassOfTick(cycle[i], ticks, days) {
        CyclePassIsTick(Run(past), ticks, due, days, i);
      }
      OneMoreCycle(past, cycle, |before|, ticks, days);
    }
  }

  /** A daemon with fixed settings whose wall clock has not run ahead of `now` is ready for a final pass
      if the run before it was: everything proved of such runs holds of its database. */
  lemma LifeEndsInFinalPass(before: seq<Event>, ticks: seq<Tick>, interval: real, days: Days, now: real)
    requires FinalPass(before, now, days)
    requires forall j | 0 <= j < |ticks| :: ticks[j].wall <= now
    ensures FinalPass(Life(before, ticks, interval, days), now, days)
  {
    LifePassesAreTicks(before, ticks, interval, days);
    var events := Life(before, ticks, interval, days);
    forall i | 0 <= i < |events| && events[i].Retain?
      ensures RawCutoff(events[i].now, events[i].days) <= RawCutoff(now, days)
      ensures RollupCutoff(events[i].now, events[i].days) <= RollupCutoff(now, days)
    {
      if i < |before| {
        assert events[i] == before[i];
      } else {
        assert PassOfTick(events[i], ticks, days);
      }
    }
  }
}
