/** From Lightsail polls to the dashboard: snapshots are cached, recorded, pruned and read back,
    and the figures shown are those of one poll, the one the newest health record belongs to. */
module AwsProjection {
  import opened Models
  import opened Ledger
  import opened Retention
  import opened Lightsail

  // ---------- snapshots ----------

  datatype Snapshot = Snapshot(at: Timestamp, gauges: seq<GaugeObservation>, health: HealthObservation)

  const NETWORK_IN: Name := "network_in_month_bytes"
  const NETWORK_OUT: Name := "network_out_month_bytes"
  const USED: Name := "transfer_used_month_bytes"
  const PLAN: Name := "transfer_plan_allocation_bytes"

  function GaugeIf(at: Timestamp, name: Name, value: Option<int>): seq<GaugeObservation> {
    if value.Some? then [GaugeObservation(at, "aws", name, value.value as real, map[])] else []
  }

  function GaugesOf(at: Timestamp, figures: Figures): seq<GaugeObservation> {
    GaugeIf(at, NETWORK_IN, figures.networkIn) + GaugeIf(at, NETWORK_OUT, figures.networkOut)
    + GaugeIf(at, USED, figures.used) + GaugeIf(at, PLAN, figures.plan)
  }

  function StateOf(config: Config, answers: Answers): HealthState {
    if NotRunning(answers.instance) || !AnyReadWorked(answers) then Unavailable
    else if AllIsWell(config, answers) then Healthy
    else Degraded
  }

  /** A bare health record: no poll, no figures. */
  function Bare(at: Timestamp, state: HealthState, message: string): Snapshot {
    Snapshot(at, [], HealthObservation(at, "aws", state, message, map[]))
  }

  /** What one attempt at the control plane came to; an attempt that raises leaves a bare health record. */
  datatype Attempt = NoClient | Answered(answers: Answers) | Raised

  function FreshSnapshot(config: Config, freshFor: real, at: Timestamp, attempt: Attempt): Snapshot {
    match attempt
    case Raised => Bare(at, Unavailable, "telemetry failed")
    case NoClient =>
      Snapshot(at, GaugeIf(at, PLAN, config.allowance),
               HealthObservation(at, "aws", Unavailable, "telemetry unavailable",
                                 map["reason" := Text("client_unavailable"),
                                     "fresh_for_seconds" := Scalar.Number(freshFor)]))
    case Answered(answers) =>
      Snapshot(at, GaugesOf(at, FiguresOf(config, answers)),
               HealthObservation(at, "aws", StateOf(config, answers), "telemetry collected",
                                 map["metric_window" := Text("current_month_utc"),
                                     "fresh_for_seconds" := Scalar.Number(freshFor)]))
  }

  // ---------- what the dashboard shows ----------

  /** The newest stored gauge of a source and name. */
  function LatestGauge(gauges: seq<GaugeObservation>, source: string, name: string): Option<GaugeObservation> {
    if gauges == [] then
      None
    else
      var last := gauges[|gauges| - 1];
      if last.source == source && last.name == name then Some(last)
      else LatestGauge(gauges[..|gauges| - 1], source, name)
  }

  /** The newest stored health record of a component. */
  function LatestHealth(health: seq<HealthObservation>, component: string): Option<HealthObservation> {
    if health == [] then
      None
    else
      var last := health[|health| - 1];
      if last.component == component then Some(last) else LatestHealth(health[..|health| - 1], component)
  }

  /** Whether a health record still vouches for this month's figures. The calendar is a parameter. */
  predicate IsCurrent(health: Option<HealthObservation>, now: real, monthOf: real -> int) {
    && health.Some?
    && (health.value.state == Healthy || health.value.state == Degraded)
    && "metric_window" in health.value.details && health.value.details["metric_window"] == Text("current_month_utc")
    && var freshFor := if "fresh_for_seconds" in health.value.details then health.value.details["fresh_for_seconds"]
       else Scalar.Number(600.0);
       && freshFor.Number?
       && 600.0 <= freshFor.number <= 172800.0
       && now - health.value.at <= freshFor.number
       && health.value.at - now <= 60.0
       && monthOf(now) == monthOf(health.value.at)
  }

  function Abs(x: real): real {
    if x < 0.0 then -x else x
  }

  /** A gauge counts only when it carries the time of the health record. */
  function Attested(health: Option<HealthObservation>, sample: Option<GaugeObservation>): Option<GaugeObservation> {
    if health.Some? && sample.Some? && Abs(sample.value.at - health.value.at) < 0.001 then sample else None
  }

  /** That is, to the millisecond. */
  lemma AttestedIs(health: HealthObservation, sample: GaugeObservation)
    ensures Attested(Some(health), Some(sample)) ==
            if health.at - 0.001 < sample.at < health.at + 0.001 then Some(sample) else None
    ensures Attested(None, Some(sample)) == None && Attested(Some(health), None) == None
  {
  }

  /** One AWS figure of the overview. */
  function Projected(t: Tables, name: string, now: real, monthOf: real -> int): Option<int> {
    var health := LatestHealth(t.health, "aws");
    if !IsCurrent(health, now, monthOf) then None
    else
      match Attested(health, LatestGauge(t.gauges, "aws", name))
      case None => None
      case Some(sample) => Some(Truncate(sample.value))
  }

  // ---------- runs that carry snapshots ----------

  function AwsGauges(gauges: seq<GaugeObservation>): seq<GaugeObservation> {
    if gauges == [] then []
    else AwsGauges(gauges[..|gauges| - 1]) + if gauges[|gauges| - 1].source == "aws" then [gauges[|gauges| - 1]] else []
  }

  function AwsHealth(health: seq<HealthObservation>): seq<HealthObservation> {
    if health == [] then []
    else AwsHealth(health[..|health| - 1]) + if health[|health| - 1].component == "aws" then [health[|health| - 1]]
        else []
  }

  /** A snapshot's records all carry its time and its source. */
  predicate Proper(s: Snapshot) {
    && s.health.at == s.at && s.health.component == "aws"
    && forall i | 0 <= i < |s.gauges| :: s.gauges[i].at == s.at && s.gauges[i].source == "aws"
  }

  /** The batch of a collection cycle holds one snapshot among whatever else was collected. */
  predicate Carries(batch: Batch, s: Snapshot) {
    AwsGauges(batch.gauges) == s.gauges && AwsHealth(batch.health) == [s.health]
  }

  /** Every batch of the run, committed or refused, carries a snapshot. */
  predicate SnapshotRun(events: seq<Event>, snapshots: seq<Snapshot>) {
    && |snapshots| == |events|
    && forall i | 0 <= i < |events| && events[i].Record? ::
         Proper(snapshots[i]) && Carries(events[i].batch, snapshots[i])
  }

  /** Two polls are one and the same, or at least a millisecond apart. */
  predicate DistinctPolls(snapshots: seq<Snapshot>) {
    forall i, j | 0 <= i < |snapshots| && 0 <= j < |snapshots| ::
      snapshots[i] == snapshots[j] || Abs(snapshots[i].at - snapshots[j].at) >= 0.001
  }

  function SnapshotTime(s: Snapshot): real { s.at }

  /** The snapshots the tables still hold, oldest first. */
  function Held(events: seq<Event>, snapshots: seq<Snapshot>): seq<Snapshot>
    requires |snapshots| == |events|
  {
    if events == [] then
      []
    else
      var n := |events| - 1;
      var before := Held(events[..n], snapshots[..n]);
      match events[n]
      case Record(batch) => if Commit(Run(events[..n]), batch).Done? then before + [snapshots[n]] else before
      case Retain(now, days) => Since(before, SnapshotTime, RawCutoff(now, days))
  }

  function GaugesIn(snapshots: seq<Snapshot>): seq<GaugeObservation> {
    if snapshots == [] then [] else GaugesIn(snapshots[..|snapshots| - 1]) + snapshots[|snapshots| - 1].gauges
  }

  function HealthIn(snapshots: seq<Snapshot>): seq<HealthObservation> {
    seq(|snapshots|, i requires 0 <= i < |snapshots| => snapshots[i].health)
  }

  lemma {:induction false} AwsGaugesConcat(a: seq<GaugeObservation>, b: seq<GaugeObservation>)
    ensures AwsGauges(a + b) == AwsGauges(a) + AwsGauges(b)
  {
    if b == [] {
      assert a + b == a;
    } else {
      assert (a + b)[..|a + b| - 1] == a + b[..|b| - 1];
      AwsGaugesConcat(a, b[..|b| - 1]);
    }
  }

  lemma {:induction false} AwsHealthConcat(a: seq<HealthObservation>, b: seq<HealthObservation>)
    ensures AwsHealth(a + b) == AwsHealth(a) + AwsHealth(b)
  {
    if b == [] {
      assert a + b == a;
    } else {
      assert (a + b)[..|a + b| - 1] == a + b[..|b| - 1];
      AwsHealthConcat(a, b[..|b| - 1]);
    }
  }

  lemma {:induction false} AwsGaugesSince(gauges: seq<GaugeObservation>, cutoff: real)
    ensures AwsGauges(Since(gauges, GaugeTime, cutoff)) == Since(AwsGauges(gauges), GaugeTime, cutoff)
  {
    if gauges == [] {
    } else {
      var front, last := gauges[..|gauges| - 1], gauges[|gauges| - 1];
      AwsGaugesSince(front, cutoff);
      AwsGaugesConcat(Since(front, GaugeTime, cutoff), if last.at >= cutoff then [last] else []);
      SinceConcat(AwsGauges(front), if last.source == "aws" then [last] else [], GaugeTime, cutoff);
      assert [last][..0] == [];
      assert AwsGauges([last]) == AwsGauges([]) + if last.source == "aws" then [last] else [];
      assert Since([last], GaugeTime, cutoff) == Since([], GaugeTime, cutoff)
             + if last.at >= cutoff then [last] else [];
    }
  }

  lemma {:induction false} AwsHealthSince(health: seq<HealthObservation>, cutoff: real)
    ensures AwsHealth(Since(health, HealthTime, cutoff)) == Since(AwsHealth(health), HealthTime, cutoff)
  {
    if health == [] {
    } else {
      var front, last := health[..|health| - 1], health[|health| - 1];
      AwsHealthSince(front, cutoff);
      AwsHealthConcat(Since(front, HealthTime, cutoff), if last.at >= cutoff then [last] else []);
      SinceConcat(AwsHealth(front), if last.component == "aws" then [last] else [], HealthTime, cutoff);
      assert [last][..0] == [];
      assert AwsHealth([last]) == AwsHealth([]) + if last.component == "aws" then [last] else [];
      assert Since([last], HealthTime, cutoff) == Since([], HealthTime, cutoff)
             + if last.at >= cutoff then [last] else [];
    }
  }

  lemma {:induction false} SinceSameTime<T>(records: seq<T>, at: T -> real, time: real, cutoff: real)
    requires forall i | 0 <= i < |records| :: at(records[i]) == time
    ensures Since(records, at, cutoff) == if time >= cutoff then records else []
  {
    if records == [] {
    } else {
      SinceSameTime(records[..|records| - 1], at, time, cutoff);
    }
  }

  predicate AllProper(snapshots: seq<Snapshot>) {
    forall i | 0 <= i < |snapshots| :: Proper(snapshots[i])
  }

  lemma {:induction false} GaugesSince(snapshots: seq<Snapshot>, cutoff: real)
    requires AllProper(snapshots)
    ensures GaugesIn(Since(snapshots, SnapshotTime, cutoff)) == Since(GaugesIn(snapshots), GaugeTime, cutoff)
  {
    if snapshots == [] {
    } else {
      var front, last := snapshots[..|snapshots| - 1], snapshots[|snapshots| - 1];
      GaugesSince(front, cutoff);
      SinceConcat(GaugesIn(front), last.gauges, GaugeTime, cutoff);
      SinceSameTime(last.gauges, GaugeTime, last.at, cutoff);
      var kept, before := Since(snapshots, SnapshotTime, cutoff), Since(front, SnapshotTime, cutoff);
      if last.at >= cutoff {
        assert kept == before + [last];
        GaugesSnoc(before, last);
      } else {
        assert kept == before;
      }
    }
  }

  lemma {:induction false} HealthSince(snapshots: seq<Snapshot>, cutoff: real)
    requires AllProper(snapshots)
    ensures HealthIn(Since(snapshots, SnapshotTime, cutoff)) == Since(HealthIn(snapshots), HealthTime, cutoff)
  {
    if snapshots == [] {
    } else {
      var front, last := snapshots[..|snapshots| - 1], snapshots[|snapshots| - 1];
      HealthSince(front, cutoff);
      assert HealthIn(snapshots)[..|snapshots| - 1] == HealthIn(front);
      var kept, before := Since(snapshots, SnapshotTime, cutoff), Since(front, SnapshotTime, cutoff);
      if last.at >= cutoff {
        assert kept == before + [last];
        GaugesSnoc(before, last);
      } else {
        assert kept == before;
      }
    }
  }

  /** Pruning gauges and health by time prunes whole snapshots. */
  lemma SnapshotsSince(snapshots: seq<Snapshot>, cutoff: real)
    requires AllProper(snapshots)
    ensures GaugesIn(Since(snapshots, SnapshotTime, cutoff)) == Since(GaugesIn(snapshots), GaugeTime, cutoff)
    ensures HealthIn(Since(snapshots, SnapshotTime, cutoff)) == Since(HealthIn(snapshots), HealthTime, cutoff)
    ensures AllProper(Since(snapshots, SnapshotTime, cutoff))
  {
    GaugesSince(snapshots, cutoff);
    HealthSince(snapshots, cutoff);
    SinceIsPart(snapshots, SnapshotTime, cutoff);
  }

  lemma GaugesSnoc(snapshots: seq<Snapshot>, s: Snapshot)
    ensures GaugesIn(snapshots + [s]) == GaugesIn(snapshots) + s.gauges
    ensures HealthIn(snapshots + [s]) == HealthIn(snapshots) + [s.health]
  {
    assert (snapshots + [s])[..|snapshots + [s]| - 1] == snapshots;
  }

  /** The AWS records of the tables are those of the held snapshots. */
  lemma {:induction false} TablesHoldSnapshots(events: seq<Event>, snapshots: seq<Snapshot>)
    requires SnapshotRun(events, snapshots)
    ensures AllProper(Held(events, snapshots))
    ensures AwsGauges(Run(events).gauges) == GaugesIn(Held(events, snapshots))
    ensures AwsHealth(Run(events).health) == HealthIn(Held(events, snapshots))
  {
    if events == [] {
    } else {
      var n := |events| - 1;
      var t, held := Run(events[..n]), Held(events[..n], snapshots[..n]);
      TablesHoldSnapshots(events[..n], snapshots[..n]);
      match events[n]
      case Record(batch) =>
        AwsGaugesConcat(t.gauges, batch.gauges);
        AwsHealthConcat(t.health, batch.health);
        GaugesSnoc(held, snapshots[n]);
      case Retain(now, days) =>
        AwsGaugesSince(t.gauges, RawCutoff(now, days));
        AwsHealthSince(t.health, RawCutoff(now, days));
        SnapshotsSince(held, RawCutoff(now, days));
    }
  }

  lemma {:induction false} SinceIsPart<T>(records: seq<T>, at: T -> real, cutoff: real)
    ensures forall i | 0 <= i < |Since(records, at, cutoff)| :: Since(records, at, cutoff)[i] in records
  {
    if records == [] {
    } else {
      SinceIsPart(records[..|records| - 1], at, cutoff);
    }
  }

  lemma {:induction false} HeldWereRecorded(events: seq<Event>, snapshots: seq<Snapshot>)
    requires |snapshots| == |events|
    ensures forall i | 0 <= i < |Held(events, snapshots)| :: Held(events, snapshots)[i] in snapshots
  {
    if events == [] {
    } else {
      var n := |events| - 1;
      HeldWereRecorded(events[..n], snapshots[..n]);
      if events[n].Retain? {
        SinceIsPart(Held(events[..n], snapshots[..n]), SnapshotTime, RawCutoff(events[n].now, events[n].days));
      }
    }
  }

  lemma HeldAreDistinct(events: seq<Event>, snapshots: seq<Snapshot>)
    requires |snapshots| == |events| && DistinctPolls(snapshots)
    ensures DistinctPolls(Held(events, snapshots))
  {
    var held := Held(events, snapshots);
    HeldWereRecorded(events, snapshots);
    forall i, j | 0 <= i < |held| && 0 <= j < |held|
      ensures held[i] == held[j] || Abs(held[i].at - held[j].at) >= 0.001
    {
      assert held[i] in snapshots && held[j] in snapshots;
    }
  }

  // ---------- reading them back ----------

  lemma {:induction false} LatestAwsGauge(gauges: seq<GaugeObservation>, name: string)
    ensures LatestGauge(gauges, "aws", name) == LatestGauge(AwsGauges(gauges), "aws", name)
  {
    if gauges == [] {
    } else {
      var front, last := gauges[..|gauges| - 1], gauges[|gauges| - 1];
      LatestAwsGauge(front, name);
      if last.source == "aws" {
        assert AwsGauges(gauges)[..|AwsGauges(gauges)| - 1] == AwsGauges(front);
      } else {
        assert AwsGauges(gauges) == AwsGauges(front);
      }
    }
  }

  lemma {:induction false} LatestAwsHealth(health: seq<HealthObservation>)
    ensures LatestHealth(health, "aws") == LatestHealth(AwsHealth(health), "aws")
  {
    if health == [] {
    } else {
      var front, last := health[..|health| - 1], health[|health| - 1];
      LatestAwsHealth(front);
      if last.component == "aws" {
        assert AwsHealth(health)[..|AwsHealth(health)| - 1] == AwsHealth(front);
      } else {
        assert AwsHealth(health) == AwsHealth(front);
      }
    }
  }

  lemma {:induction false} LatestConcat(a: seq<GaugeObservation>, b: seq<GaugeObservation>, name: string)
    ensures LatestGauge(a + b, "aws", name) == if LatestGauge(b, "aws", name).Some? then LatestGauge(b, "aws", name)
            else LatestGauge(a, "aws", name)
  {
    if b == [] {
      assert a + b == a;
    } else {
      assert (a + b)[..|a + b| - 1] == a + b[..|b| - 1];
      LatestConcat(a, b[..|b| - 1], name);
    }
  }

  lemma {:induction false} LatestIsOneOf(gauges: seq<GaugeObservation>, name: string)
    ensures LatestGauge(gauges, "aws", name).Some? ==> LatestGauge(gauges, "aws", name).value in gauges
  {
    if gauges == [] {
    } else {
      LatestIsOneOf(gauges[..|gauges| - 1], name);
    }
  }

  /** The newest gauge of the held snapshots bears the time of one of them. */
  lemma {:induction false} LatestBearsATime(snapshots: seq<Snapshot>, name: string) returns (i: nat)
    requires AllProper(snapshots) && LatestGauge(GaugesIn(snapshots), "aws", name).Some?
    ensures i < |snapshots| && LatestGauge(GaugesIn(snapshots), "aws", name).value.at == snapshots[i].at
    ensures LatestGauge(snapshots[i].gauges, "aws", name) == LatestGauge(GaugesIn(snapshots), "aws", name)
  {
    var front, last := snapshots[..|snapshots| - 1], snapshots[|snapshots| - 1];
    LatestConcat(GaugesIn(front), last.gauges, name);
    if LatestGauge(last.gauges, "aws", name).Some? {
      i := |snapshots| - 1;
      LatestIsOneOf(last.gauges, name);
    } else {
      i := LatestBearsATime(front, name);
    }
  }

  /** Against the newest snapshot's health, only that snapshot's gauges are attested. */
  lemma OnlyNewestIsAttested(snapshots: seq<Snapshot>, name: string)
    requires snapshots != [] && AllProper(snapshots) && DistinctPolls(snapshots)
    ensures var newest := snapshots[|snapshots| - 1];
            Attested(Some(newest.health), LatestGauge(GaugesIn(snapshots), "aws", name))
                == LatestGauge(newest.gauges, "aws", name)
  {
    var front, newest := snapshots[..|snapshots| - 1], snapshots[|snapshots| - 1];
    LatestConcat(GaugesIn(front), newest.gauges, name);
    if LatestGauge(newest.gauges, "aws", name).Some? {
      LatestIsOneOf(newest.gauges, name);
    } else if LatestGauge(GaugesIn(snapshots), "aws", name).Some? {
      var i := LatestBearsATime(snapshots, name);
      assert snapshots[i] != newest;
    }
  }

  lemma NewestHealth(snapshots: seq<Snapshot>)
    requires AllProper(snapshots)
    ensures LatestHealth(HealthIn(snapshots), "aws") == if snapshots == [] then None
            else Some(snapshots[|snapshots| - 1].health)
  {
  }

  /** AWS figures never mix polls: over any run of batches, refusals and retention passes, every
      figure shown is the one in the snapshot whose health record is newest, or it is absent. */
  lemma FiguresComeFromOnePoll(events: seq<Event>, snapshots: seq<Snapshot>, name: string, now: real,
                               monthOf: real -> int)
    requires SnapshotRun(events, snapshots) && DistinctPolls(snapshots)
    ensures var held := Held(events, snapshots);
            Projected(Run(events), name, now, monthOf) ==
            if held == [] || !IsCurrent(Some(held[|held| - 1].health), now, monthOf) then None
            else match LatestGauge(held[|held| - 1].gauges, "aws", name)
              case None => None
              case Some(sample) => Some(Truncate(sample.value))
  {
    hide IsCurrent, Truncate;
    var held := Held(events, snapshots);
    TablesHoldSnapshots(events, snapshots);
    HeldAreDistinct(events, snapshots);
    LatestAwsHealth(Run(events).health);
    LatestAwsGauge(Run(events).gauges, name);
    NewestHealth(held);
    if held != [] {
      OnlyNewestIsAttested(held, name);
    }
  }

  // ---------- the adapter's own snapshots ----------

  lemma FreshSnapshotIsProper(config: Config, freshFor: real, at: Timestamp, attempt: Attempt)
    ensures Proper(FreshSnapshot(config, freshFor, at, attempt))
  {
  }

  lemma LatestSingle(at: Timestamp, gaugeName: Name, value: Option<int>, name: string)
    ensures LatestGauge(GaugeIf(at, gaugeName, value), "aws", name) ==
            if value.Some? && gaugeName == name then Some(GaugeObservation(at, "aws", gaugeName, value.value as real,
                map[])) else None
  {
    if value.Some? {
      assert GaugeIf(at, gaugeName, value)[..0] == [];
      assert LatestGauge([], "aws", name) == None;
    }
  }

  function FigureNamed(figures: Figures, name: string): Option<int> {
    if name == NETWORK_IN then figures.networkIn
    else if name == NETWORK_OUT then figures.networkOut
    else if name == USED then figures.used
    else if name == PLAN then figures.plan
    else None
  }

  lemma NamesDiffer()
    ensures NETWORK_IN != NETWORK_OUT && NETWORK_IN != USED && NETWORK_IN != PLAN
    ensures NETWORK_OUT != USED && NETWORK_OUT != PLAN && USED != PLAN
  {
    assert |NETWORK_IN| == 22 && |NETWORK_OUT| == 23 && |USED| == 25 && |PLAN| == 30;
  }

  /** Each figure is stored under its own name. */
  lemma StoredFigure(at: Timestamp, figures: Figures, name: string)
    ensures LatestGauge(GaugesOf(at, figures), "aws", name) ==
            match FigureNamed(figures, name)
            case None => None
            case Some(value) => Some(GaugeObservation(at, "aws", name, value as real, map[]))
  {
    var a, b := GaugeIf(at, NETWORK_IN, figures.networkIn), GaugeIf(at, NETWORK_OUT, figures.networkOut);
    var c, d := GaugeIf(at, USED, figures.used), GaugeIf(at, PLAN, figures.plan);
    LatestConcat(a, b, name);
    LatestConcat(a + b, c, name);
    LatestConcat(a + b + c, d, name);
    LatestSingle(at, NETWORK_IN, figures.networkIn, name);
    LatestSingle(at, NETWORK_OUT, figures.networkOut, name);
    LatestSingle(at, USED, figures.used, name);
    LatestSingle(at, PLAN, figures.plan, name);
    NamesDiffer();
  }

  lemma WholeNumbersSurvive(n: int)
    ensures Truncate(n as real) == n
  {
  }

  /** A snapshot of the adapter, or the bare health record of a cycle in which it failed or is disabled. */
  ghost predicate FromAdapter(s: Snapshot, config: Config, freshFor: real) {
    || (exists attempt: Attempt :: s == FreshSnapshot(config, freshFor, s.at, attempt))
    || (s.gauges == [] && (s.health.state == Unavailable || s.health.state == Disabled))
  }

  lemma AnsweredWhenCurrent(s: Snapshot, config: Config, freshFor: real, now: real, monthOf: real -> int)
    returns (answers: Answers)
    requires FromAdapter(s, config, freshFor) && IsCurrent(Some(s.health), now, monthOf)
    ensures s == FreshSnapshot(config, freshFor, s.at, Answered(answers))
  {
    var attempt :| s == FreshSnapshot(config, freshFor, s.at, attempt);
    assert attempt.Answered?;
    answers := attempt.answers;
  }

  function Shown(sample: Option<GaugeObservation>): Option<int> {
    match sample
    case None => None
    case Some(gauge) => Some(Truncate(gauge.value))
  }

  lemma ShownFigure(at: Timestamp, figures: Figures, name: string)
    ensures Shown(LatestGauge(GaugesOf(at, figures), "aws", name)) == FigureNamed(figures, name)
  {
    hide GaugesOf, Truncate;
    StoredFigure(at, figures, name);
    if FigureNamed(figures, name).Some? {
      WholeNumbersSurvive(FigureNamed(figures, name).value);
    }
  }

  /** What the newest held snapshot has under a name. */
  function NewestFigure(held: seq<Snapshot>, name: string, now: real, monthOf: real -> int): Option<int> {
    if held == [] || !IsCurrent(Some(held[|held| - 1].health), now, monthOf) then None
    else Shown(LatestGauge(held[|held| - 1].gauges, "aws", name))
  }

  lemma ProjectedIsNewest(events: seq<Event>, snapshots: seq<Snapshot>, name: string, now: real, monthOf: real -> int)
    requires SnapshotRun(events, snapshots) && DistinctPolls(snapshots)
    ensures Projected(Run(events), name, now, monthOf) == NewestFigure(Held(events, snapshots), name, now, monthOf)
  {
    hide IsCurrent, Truncate;
    FiguresComeFromOnePoll(events, snapshots, name, now, monthOf);
  }

  lemma NewestUsed(held: seq<Snapshot>, now: real, monthOf: real -> int, config: Config, freshFor: real)
    requires forall i | 0 <= i < |held| :: FromAdapter(held[i], config, freshFor)
    ensures NewestFigure(held, USED, now, monthOf) ==
            UsedBytes(NewestFigure(held, NETWORK_IN, now, monthOf), NewestFigure(held, NETWORK_OUT, now, monthOf))
  {
    if held != [] && IsCurrent(Some(held[|held| - 1].health), now, monthOf) {
      var newest := held[|held| - 1];
      var answers := AnsweredWhenCurrent(newest, config, freshFor, now, monthOf);
      hide IsCurrent, GaugesOf, FiguresOf, Shown;
      var figures := FiguresOf(config, answers);
      ShownFigure(newest.at, figures, NETWORK_IN);
      ShownFigure(newest.at, figures, NETWORK_OUT);
      ShownFigure(newest.at, figures, USED);
      NamesDiffer();
      UsedOfFigures(config, answers);
    }
  }

  lemma UsedOfFigures(config: Config, answers: Answers)
    ensures FiguresOf(config, answers).used == UsedBytes(FiguresOf(config, answers).networkIn,
            FiguresOf(config, answers).networkOut)
  {
  }

  /** The transfer shown is the saturated sum of the two directions shown, all from the same poll;
      it is shown exactly when both directions are. */
  lemma TransferShownIsSum(events: seq<Event>, snapshots: seq<Snapshot>, now: real, monthOf: real -> int,
                           config: Config, freshFor: real)
    requires SnapshotRun(events, snapshots) && DistinctPolls(snapshots)
    requires forall i | 0 <= i < |snapshots| :: FromAdapter(snapshots[i], config, freshFor)
    ensures Projected(Run(events), USED, now, monthOf) ==
            UsedBytes(Projected(Run(events), NETWORK_IN, now, monthOf),
                Projected(Run(events), NETWORK_OUT, now, monthOf))
  {
    hide IsCurrent, FromAdapter, Projected, NewestFigure;
    var held := Held(events, snapshots);
    ProjectedIsNewest(events, snapshots, NETWORK_IN, now, monthOf);
    ProjectedIsNewest(events, snapshots, NETWORK_OUT, now, monthOf);
    ProjectedIsNewest(events, snapshots, USED, now, monthOf);
    HeldWereRecorded(events, snapshots);
    forall i | 0 <= i < |held| ensures FromAdapter(held[i], config, freshFor) {
      assert held[i] in snapshots;
    }
    NewestUsed(held, now, monthOf, config, freshFor);
  }

  /** The newest held snapshot is a poll, and the figures shown are its own: each direction the saturated
      sum of its points, the transfer their sum, the plan what was configured or reported. */
  lemma ShownIsMonthSum(events: seq<Event>, snapshots: seq<Snapshot>, now: real, monthOf: real -> int, config: Config,
                        freshFor: real)
    returns (answers: Answers)
    requires SnapshotRun(events, snapshots) && DistinctPolls(snapshots)
    requires forall i | 0 <= i < |snapshots| :: FromAdapter(snapshots[i], config, freshFor)
    requires Held(events, snapshots) != []
    requires var held := Held(events, snapshots); IsCurrent(Some(held[|held| - 1].health), now, monthOf)
    ensures var held := Held(events, snapshots);
            held[|held| - 1] == FreshSnapshot(config, freshFor, held[|held| - 1].at, Answered(answers))
    ensures Projected(Run(events), NETWORK_IN, now, monthOf) == SumOf(answers.networkIn)
    ensures Projected(Run(events), NETWORK_OUT, now, monthOf) == SumOf(answers.networkOut)
    ensures Projected(Run(events), USED, now, monthOf) == UsedBytes(SumOf(answers.networkIn), SumOf(answers.networkOut))
  {
    var held := Held(events, snapshots);
    var newest := held[|held| - 1];
    HeldWereRecorded(events, snapshots);
    assert newest in snapshots;
    answers := AnsweredWhenCurrent(newest, config, freshFor, now, monthOf);
    var figures := FiguresOf(config, answers);
    assert newest.gauges == GaugesOf(newest.at, figures);
    hide IsCurrent, FromAdapter, Projected, GaugesOf, FreshSnapshot, Shown, SumOf;
    ProjectedIsNewest(events, snapshots, NETWORK_IN, now, monthOf);
    ProjectedIsNewest(events, snapshots, NETWORK_OUT, now, monthOf);
    ProjectedIsNewest(events, snapshots, USED, now, monthOf);
    ShownFigure(newest.at, figures, NETWORK_IN);
    ShownFigure(newest.at, figures, NETWORK_OUT);
    ShownFigure(newest.at, figures, USED);
    NamesDiffer();
  }

  // ---------- when a figure is shown ----------

  /** A poll that vouches for its figures at some time: one that was answered, of an instance not known to be
      down, of the current month, and neither older than its freshness nor more than a minute ahead. */
  predicate Vouches(attempt: Attempt, at: real, freshFor: real, now: real, monthOf: real -> int) {
    && attempt.Answered?
    && (attempt.answers.instance.Got? ==>
          attempt.answers.instance.value.state == Running || attempt.answers.instance.value.state == UnknownState)
    && (|| attempt.answers.instance.Got? || attempt.answers.portStates.Got? || attempt.answers.networkIn.Got?
        || attempt.answers.networkOut.Got? || attempt.answers.cpu.Got? || attempt.answers.burst.Got?
        || attempt.answers.status.Got? || !attempt.answers.alarms.Failed?)
    && 600.0 <= freshFor <= 172800.0
    && now - at <= freshFor && at - now <= 60.0
    && monthOf(now) == monthOf(at)
  }

  lemma CurrentExactly(config: Config, freshFor: real, at: Timestamp, attempt: Attempt, now: real, monthOf: real -> int)
    ensures IsCurrent(Some(FreshSnapshot(config, freshFor, at, attempt).health), now, monthOf) <==>
            Vouches(attempt, at, freshFor, now, monthOf)
  {
    hide AllIsWell;
    if attempt.Answered? {
      var details := map["metric_window" := Text("current_month_utc"), "fresh_for_seconds" := Scalar.Number(freshFor)];
      assert FreshSnapshot(config, freshFor, at, attempt).health.details == details;
      assert "metric_window"[0] != "fresh_for_seconds"[0];
    }
  }

  /** One figure after any run whose newest held snapshot is a poll: that of this poll while it vouches. */
  lemma PollShows(events: seq<Event>, snapshots: seq<Snapshot>, name: string, now: real, monthOf: real -> int,
                  config: Config, freshFor: real, attempt: Attempt)
    requires SnapshotRun(events, snapshots) && DistinctPolls(snapshots) && Held(events, snapshots) != []
    requires var held := Held(events, snapshots);
             held[|held| - 1] == FreshSnapshot(config, freshFor, held[|held| - 1].at, attempt)
    ensures var held := Held(events, snapshots);
            Projected(Run(events), name, now, monthOf) ==
            if Vouches(attempt, held[|held| - 1].at, freshFor, now, monthOf)
            then FigureNamed(FiguresOf(config, attempt.answers), name) else None
  {
    hide IsCurrent, Projected, FiguresOf, Vouches, GaugesOf, Shown, FigureNamed, FreshSnapshot, Held, DistinctPolls,
        Run;
    var newest := Held(events, snapshots)[|Held(events, snapshots)| - 1];
    CurrentExactly(config, freshFor, newest.at, attempt, now, monthOf);
    ProjectedIsNewest(events, snapshots, name, now, monthOf);
    if attempt.Answered? {
      PollGauges(config, freshFor, newest.at, attempt.answers);
      ShownFigure(newest.at, FiguresOf(config, attempt.answers), name);
    } else {
      NotAPoll(attempt, newest.at, freshFor, now, monthOf);
    }
  }

  lemma PollGauges(config: Config, freshFor: real, at: Timestamp, answers: Answers)
    ensures FreshSnapshot(config, freshFor, at, Answered(answers)).gauges == GaugesOf(at, FiguresOf(config, answers))
  {
    hide GaugesOf, FiguresOf;
  }

  lemma FigureNames(f: Figures)
    ensures FigureNamed(f, "network_in_month_bytes") == f.networkIn
    ensures FigureNamed(f, "network_out_month_bytes") == f.networkOut
    ensures FigureNamed(f, "transfer_used_month_bytes") == f.used
    ensures FigureNamed(f, "transfer_plan_allocation_bytes") == f.plan
  {
    NamesDiffer();
  }

  /** The figures of the dashboard by name, after any run whose newest held snapshot is a poll: those of
      this poll while it vouches for them, and none otherwise. */
  lemma ShownExactly(events: seq<Event>, snapshots: seq<Snapshot>, now: real, monthOf: real -> int, config: Config,
                     freshFor: real, attempt: Attempt)
    requires SnapshotRun(events, snapshots) && DistinctPolls(snapshots) && Held(events, snapshots) != []
    requires var held := Held(events, snapshots);
             held[|held| - 1] == FreshSnapshot(config, freshFor, held[|held| - 1].at, attempt)
    ensures var held := Held(events, snapshots);
            var figures := if Vouches(attempt, held[|held| - 1].at, freshFor, now, monthOf)
              then FiguresOf(config, attempt.answers) else Figures(None, None, None, None);
            && Projected(Run(events), "network_in_month_bytes", now, monthOf) == figures.networkIn
            && Projected(Run(events), "network_out_month_bytes", now, monthOf) == figures.networkOut
            && Projected(Run(events), "transfer_used_month_bytes", now, monthOf) == figures.used
            && Projected(Run(events), "transfer_plan_allocation_bytes", now, monthOf) == figures.plan
  {
    hide Projected, FiguresOf, Vouches, FreshSnapshot, FigureNamed, Held, DistinctPolls, Run;
    PollShows(events, snapshots, "network_in_month_bytes", now, monthOf, config, freshFor, attempt);
    PollShows(events, snapshots, "network_out_month_bytes", now, monthOf, config, freshFor, attempt);
    PollShows(events, snapshots, "transfer_used_month_bytes", now, monthOf, config, freshFor, attempt);
    PollShows(events, snapshots, "transfer_plan_allocation_bytes", now, monthOf, config, freshFor, attempt);
    var held := Held(events, snapshots);
    if Vouches(attempt, held[|held| - 1].at, freshFor, now, monthOf) {
      OnlyAnswersVouch(attempt, held[|held| - 1].at, freshFor, now, monthOf);
      FigureNames(FiguresOf(config, attempt.answers));
    }
  }

  lemma OnlyAnswersVouch(attempt: Attempt, at: real, freshFor: real, now: real, monthOf: real -> int)
    requires Vouches(attempt, at, freshFor, now, monthOf)
    ensures attempt.Answered?
  {
  }

  lemma NotAPoll(attempt: Attempt, at: real, freshFor: real, now: real, monthOf: real -> int)
    requires !attempt.Answered?
    ensures !Vouches(attempt, at, freshFor, now, monthOf)
  {
  }

  /** A record of a cycle that failed or is switched off vouches for nothing, and neither does none at all. */
  lemma NothingShown(events: seq<Event>, snapshots: seq<Snapshot>, name: string, now: real, monthOf: real -> int)
    requires SnapshotRun(events, snapshots) && DistinctPolls(snapshots)
    requires var held := Held(events, snapshots);
             held == [] || held[|held| - 1].health.state == Unavailable || held[|held| - 1].health.state == Disabled
    ensures Projected(Run(events), name, now, monthOf) == None
  {
    ProjectedIsNewest(events, snapshots, name, now, monthOf);
  }
}
