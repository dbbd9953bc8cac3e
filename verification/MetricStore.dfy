/** MetricStore: the database handle of store.py, whose transactions update the tables in place. */
module MetricStores {
  import opened Models
  import opened Ledger
  import opened Conservation
  import opened Orders
  import opened Queries
  import opened Refinement
  import opened BatchLaws
  import opened Accumulation
  import opened PassWindow
  import opened Readings
  import opened SourceNames

  datatype SeriesOutcome = Points(points: seq<Point>) | BadLimit

  /** One chart point from the accumulated sums. */
  function PointFrom(sums: Sums, shown: Option<Scope>, minute: int): Point {
    var rx, tx := (Host(RxBytes), minute), (Host(TxBytes), minute);
    var up, down := if shown.Some? then Some((Xray(shown.value, Uplink), minute)) else None,
                    if shown.Some? then Some((Xray(shown.value, Downlink), minute)) else None;
    var xray := shown.Some? && (up.value in sums || down.value in sums);
    Point(minute * 60,
          if rx in sums then Some(sums[rx]) else None,
          if tx in sums then Some(sums[tx]) else None,
          if xray then Some(At(sums, up.value)) else None,
          if xray then Some(At(sums, down.value)) else None)
  }

  lemma PointFromTables(t: Tables, since: int, sums: Sums, minute: int)
    requires Exact(sums, t, since, MINUTES)
    ensures PointFrom(sums, PreferredScope(ScopesOf(sums.Keys)), minute) == PointAt(t, since, minute)
  {
    var shown := PreferredScope(ScopesOf(sums.Keys));
    ExactAt(sums, t, since, MINUTES, (Host(RxBytes), minute));
    ExactAt(sums, t, since, MINUTES, (Host(TxBytes), minute));
    if shown.Some? {
      ExactAt(sums, t, since, MINUTES, (Xray(shown.value, Uplink), minute));
      ExactAt(sums, t, since, MINUTES, (Xray(shown.value, Downlink), minute));
    }
  }

  method ChartPoints(ghost t: Tables, ghost since: int, sums: Sums, minutes: seq<int>) returns (points: seq<Point>)
    requires Exact(sums, t, since, MINUTES)
    ensures points == PointsAt(t, since, minutes)
  {
    var shown := PreferredScope(ScopesOf(sums.Keys));
    points := [];
    for i := 0 to |minutes|
      invariant points == PointsAt(t, since, minutes[..i])
    {
      PointFromTables(t, since, sums, minutes[i]);
      points := points + [PointFrom(sums, shown, minutes[i])];
    }
    assert minutes[..|minutes|] == minutes;
  }

  datatype Counts = Counts(compacted: int, gaugesPruned: int, rowsPruned: int, healthPruned: int, rollupsPruned: int)

  datatype Argument = RawDays | RollupDays | RollupNotLonger

  datatype RetentionOutcome = Applied(counts: Counts) | BadArgument(argument: Argument)

  /** The counts a pass reports: what it compacted, and how much shorter each table became. */
  function CountsOf(t: Tables, now: real, days: Days): Counts {
    var after := Retained(t, now, days);
    Counts(
      Compactable(t.rows, RollupCutoff(now, days), RawCutoff(now, days)),
      |t.gauges| - |after.gauges|,
      |t.rows| - |after.rows|,
      |t.health| - |after.health|,
      |Merge(t.rollups, t.rows, RollupCutoff(now, days), RawCutoff(now, days))| - |after.rollups|)
  }

  /** Records as old as the raw cutoff or younger stay, every one of them; older ones go. */
  ghost predicate KeptInTime(before: Tables, after: Tables, rawCutoff: real) {
    && (forall gauge :: multiset(after.gauges)[gauge] ==
                        if gauge.at >= rawCutoff then multiset(before.gauges)[gauge] else 0)
    && (forall row :: multiset(after.rows)[row] == if row.at >= rawCutoff then multiset(before.rows)[row] else 0)
    && (forall health :: multiset(after.health)[health] ==
                         if health.at >= rawCutoff then multiset(before.health)[health] else 0)
    && after.cursors == before.cursors
  }

  /** How many rows lay between the cutoffs, how many records of each table before the raw one, and how
      many hours went. */
  predicate CountedInTime(before: Tables, after: Tables, counts: Counts, rollupCutoff: real, rawCutoff: real) {
    && counts.compacted == |RowsBetween(before.rows, rollupCutoff, rawCutoff)|
    && counts.gaugesPruned == |OlderThan(before.gauges, GaugeTime, rawCutoff)|
    && counts.rowsPruned == |OlderThan(before.rows, RowTime, rawCutoff)|
    && counts.healthPruned == |OlderThan(before.health, HealthTime, rawCutoff)|
    && counts.rollupsPruned == |before.rollups.Keys - after.rollups.Keys|
  }

  lemma RecordsKeptInTime(t: Tables, now: real, days: Days)
    ensures KeptInTime(t, Retained(t, now, days), now - (days.raw * 86400) as real)
  {
    hide Merge, Prune, Since, HourFloor;
    var cutoff := now - (days.raw * 86400) as real;
    forall gauge ensures multiset(Since(t.gauges, GaugeTime, cutoff))[gauge] ==
                         if gauge.at >= cutoff then multiset(t.gauges)[gauge] else 0 {
      SinceKeeps(t.gauges, GaugeTime, cutoff, gauge);
    }
    forall row ensures multiset(Since(t.rows, RowTime, cutoff))[row] ==
                       if row.at >= cutoff then multiset(t.rows)[row] else 0 {
      SinceKeeps(t.rows, RowTime, cutoff, row);
    }
    forall health ensures multiset(Since(t.health, HealthTime, cutoff))[health] ==
                          if health.at >= cutoff then multiset(t.health)[health] else 0 {
      SinceKeeps(t.health, HealthTime, cutoff, health);
    }
  }

  lemma CountsInTime(t: Tables, now: real, days: Days)
    ensures CountedInTime(t, Retained(t, now, days), CountsOf(t, now, days), now - (days.rollup * 86400) as real,
                          now - (days.raw * 86400) as real)
  {
    hide Merge, Prune, Since, Compactable, HourFloor, RowsBetween, OlderThan;
    var cutoff := now - (days.raw * 86400) as real;
    HoursGone(t, now, days);
    CompactedCount(t.rows, RollupCutoff(now, days), RawCutoff(now, days));
    PrunedCount(t.gauges, GaugeTime, cutoff);
    PrunedCount(t.rows, RowTime, cutoff);
    PrunedCount(t.health, HealthTime, cutoff);
  }

  /** DELETE ... WHERE observed_at < cutoff */
  method DeleteBefore<T>(records: seq<T>, at: T -> real, cutoff: real) returns (kept: seq<T>, pruned: nat)
    ensures kept == Since(records, at, cutoff)
    ensures pruned == |records| - |kept|
  {
    kept, pruned := [], 0;
    for i := 0 to |records|
      invariant kept == Since(records[..i], at, cutoff)
      invariant pruned == i - |kept|
    {
      assert records[..i + 1][..|records[..i + 1]| - 1] == records[..i];
      if at(records[i]) >= cutoff {
        kept := kept + [records[i]];
      } else {
        pruned := pruned + 1;
      }
    }
    assert records[..|records|] == records;
  }

  /** What a batch of readings is answered with: results if and only if every reading is acceptable after
      those before it, and then one for each that says how it compares. */
  predicate Answers(cursors: Cursors, counters: seq<CounterObservation>, outcome: Outcome<seq<CounterResult>>) {
    && (outcome.Done? <==> forall i | 0 <= i < |counters| :: Acceptable(PriorOf(cursors, counters, i), counters[i]))
    && (outcome.Done? ==> |outcome.value| == |counters| && forall i | 0 <= i < |counters| ::
          Replies(PriorOf(cursors, counters, i), counters[i], outcome.value[i]))
  }

  lemma BatchIsAnswered(t: Tables, batch: Batch)
    ensures Answers(t.cursors, batch.counters,
                    match Commit(t, batch)
                    case Abort(error) => Abort(error)
                    case Done(committed) => Done(committed.results))
  {
    hide Commit, Acceptable, Replies, PriorOf;
    BatchTells(t, batch);
  }

  class MetricStore {
    var gauges: seq<GaugeObservation>
    var rows: seq<Row>
    var cursors: Cursors
    var rollups: Rollups
    var health: seq<HealthObservation>

    /** Opens a database file: its tables are created when they are not there yet. */
    constructor (file: Option<Tables>)
      ensures View() == if file.Some? then file.value else EMPTY_TABLES
    {
      var tables := if file.Some? then file.value else EMPTY_TABLES;
      gauges, rows, cursors, rollups, health := tables.gauges, tables.rows, tables.cursors, tables.rollups,
          tables.health;
    }

    function View(): Tables
      reads this
    {
      Tables(gauges, rows, cursors, rollups, health)
    }

    /** Stores one reading, or refuses it and changes nothing. */
    method StoreCounter(o: CounterObservation) returns (outcome: Outcome<CounterResult>)
      modifies this
      ensures match old(Derive(cursors, o))
              case Abort(error) => outcome == Abort(error) && View() == old(View())
              case Done(row) => outcome == Done(ResultOf(row))
                                && View() == old(View()).(rows := old(rows) + [row],
                                   cursors := Advance(old(cursors), row))
    {
      var isBaseline, isReset, delta := o.series !in cursors, false, 0;
      if !isBaseline {
        var prior := cursors[o.series];
        if o.at < prior.at {
          return Abort(NotTimeOrdered);
        }
        if o.at == prior.at && (o.value != prior.raw || o.resetId != prior.resetId) {
          return Abort(ConflictingTimestamp);
        }
        isReset := o.resetId != prior.resetId || o.value < prior.raw;
        if !isReset {
          delta := o.value - prior.raw;
        }
      }
      rows := rows + [Row(o.at, o.series, o.resetId, o.value, delta, isBaseline, isReset)];
      cursors := cursors[o.series := Cursor(o.resetId, o.value, o.at)];
      outcome := Done(CounterResult(o.series, o.value, delta, o.resetId, isBaseline, isReset));
    }

    /** One transaction: it commits as a whole or the tables are as before. It commits if and only if no
        reading is older than the one of its counter before it, or at the same time another, and every
        reply then says how its reading compares with that one. */
    method RecordBatch(batch: Batch) returns (outcome: Outcome<seq<CounterResult>>)
      modifies this
      ensures Answers(old(cursors), batch.counters, outcome)
      ensures match Commit(old(View()), batch)
              case Abort(error) => outcome == Abort(error) && View() == old(View())
              case Done(committed) => outcome == Done(committed.results) && View() == committed.tables
    {
      hide Derive, Answers;
      var begin := View();
      BatchIsAnswered(begin, batch);
      var results: seq<CounterResult> := [];
      gauges := gauges + batch.gauges;
      ghost var added: seq<Row> := [];
      for i := 0 to |batch.counters|
        invariant RecordAll(begin.cursors, batch.counters[..i]) == Done(Recorded(added, cursors))
        invariant View() == begin.(gauges := begin.gauges + batch.gauges, rows := begin.rows + added,
                  cursors := cursors)
        invariant results == Results(added)
      {
        assert batch.counters[..i + 1] == batch.counters[..i] + [batch.counters[i]];
        RecordOneMore(begin.cursors, batch.counters[..i], batch.counters[i]);
        ghost var row := Derive(cursors, batch.counters[i]);
        var stored := StoreCounter(batch.counters[i]);
        if stored.Abort? {
          RefusedForGood(begin.cursors, batch.counters[..i + 1], batch.counters[i + 1..]);
          assert batch.counters == batch.counters[..i + 1] + batch.counters[i + 1..];
          Restore(begin);
          return Abort(stored.error);
        }
        results := results + [stored.value];
        added := added + [row.value];
      }
      assert batch.counters[..|batch.counters|] == batch.counters;
      health := health + batch.health;
      outcome := Done(results);
    }

    /** ROLLBACK */
    method Restore(begin: Tables)
      modifies this
      ensures View() == begin
    {
      gauges, rows, cursors, rollups, health := begin.gauges, begin.rows, begin.cursors, begin.rollups, begin.health;
    }

    /** ON CONFLICT DO UPDATE */
    method AddToBucket(key: BucketKey, added: Bucket)
      modifies `rollups
      ensures rollups == Upsert(old(rollups), key, added)
    {
      var present := if key in rollups then rollups[key] else Bucket(0, 0);
      rollups := rollups[key := Bucket(present.delta + added.delta, present.resets + added.resets)];
    }

    /** DELETE FROM counter_hourly_rollups WHERE bucket_start < before */
    method PruneBuckets(before: int) returns (pruned: int)
      modifies `rollups
      ensures rollups == Prune(old(rollups), before)
      ensures pruned == |old(rollups)| - |rollups|
    {
      var size := |rollups|;
      rollups := map key | key in rollups && key.start >= before :: rollups[key];
      pruned := size - |rollups|;
    }

    /** INSERT ... SELECT ... GROUP BY ... ON CONFLICT DO UPDATE, row by row. */
    method Compact(rollup: real, raw: real) returns (compacted: nat)
      modifies `rollups
      ensures rollups == Merge(old(rollups), rows, rollup, raw)
      ensures compacted == Compactable(rows, rollup, raw)
    {
      compacted := 0;
      MergeNothing(rollups, rollup, raw);
      assert rows[..0] == [];
      for i := 0 to |rows|
        invariant rollups == Merge(old(rollups), rows[..i], rollup, raw)
        invariant compacted == Compactable(rows[..i], rollup, raw)
      {
        var row := rows[i];
        assert rows[..i + 1] == rows[..i] + [row];
        assert rows[..i + 1][..|rows[..i + 1]| - 1] == rows[..i];
        MergeSnoc(old(rollups), rows[..i], row, rollup, raw);
        if rollup <= row.at < raw {
          compacted := compacted + 1;
          AddToBucket(BucketKey(BucketStart(row.at), row.series), Bucket(row.delta, if row.isReset then 1 else 0));
        }
      }
      assert rows[..|rows|] == rows;
    }

    /** The transaction of a pass: group old rows into hourly buckets, then prune. */
    method Pass(now: real, days: Days) returns (counts: Counts)
      modifies this
      ensures View() == Retained(old(View()), now, days)
      ensures counts == CountsOf(old(View()), now, days)
    {
      hide Merge, Prune, Since, Compactable, HourFloor;
      var raw, rollup := RawCutoff(now, days), RollupCutoff(now, days);
      var compacted := Compact(rollup, raw);
      var gaugesPruned, rowsPruned, healthPruned;
      gauges, gaugesPruned := DeleteBefore(gauges, GaugeTime, raw);
      rows, rowsPruned := DeleteBefore(rows, RowTime, raw);
      health, healthPruned := DeleteBefore(health, HealthTime, raw);
      var rollupsPruned := PruneBuckets(HourFloor(rollup));
      counts := Counts(compacted, gaugesPruned, rowsPruned, healthPruned, rollupsPruned);
    }

    /** A pass runs only with day settings in range; its cutoffs are that many days before now. */
    method ApplyRetention(now: real, rawDays: int, rollupDays: int) returns (outcome: RetentionOutcome)
      modifies this
      ensures outcome == BadArgument(RawDays) <==> !(1 <= rawDays <= 30)
      ensures outcome == BadArgument(RollupDays) <==> 1 <= rawDays <= 30 && !(30 <= rollupDays <= 800)
      ensures outcome == BadArgument(RollupNotLonger) <==>
                1 <= rawDays <= 30 && 30 <= rollupDays <= 800 && rollupDays <= rawDays
      ensures outcome.BadArgument? ==> View() == old(View())
      ensures outcome.Applied? ==>
                var rollupCutoff, rawCutoff := now - (rollupDays * 86400) as real, now - (rawDays * 86400) as real;
                && KeptInTime(old(View()), View(), rawCutoff)
                && Bucketed(old(rollups), old(rows), rollupCutoff, rawCutoff, rollups)
                && CountedInTime(old(View()), View(), outcome.counts, rollupCutoff, rawCutoff)
      ensures ValidDays(DaySettings(rawDays, rollupDays)) ==>
                && View() == Retained(old(View()), now, DaySettings(rawDays, rollupDays))
                && outcome == Applied(CountsOf(old(View()), now, DaySettings(rawDays, rollupDays)))
    {
      hide KeptInTime, CountedInTime, Bucketed, Retained, CountsOf;
      if !(1 <= rawDays <= 30) {
        return BadArgument(RawDays);
      }
      if !(30 <= rollupDays <= 800) {
        return BadArgument(RollupDays);
      }
      if rollupDays <= rawDays {
        return BadArgument(RollupNotLonger);
      }
      var days: Days := DaySettings(rawDays, rollupDays);
      RecordsKeptInTime(View(), now, days);
      CountsInTime(View(), now, days);
      PassBuckets(View(), now, days);
      var counts := Pass(now, days);
      outcome := Applied(counts);
    }

    /** The dashboard chart: ascending one-minute points, cut to the newest `limit`. Every point shows what
        the counters of its four figures, by their names and labels, recorded in its minute. */
    method Series(since: int, limit: int) returns (outcome: SeriesOutcome)
      ensures !(1 <= limit <= 10000) ==> outcome == BadLimit
      ensures 1 <= limit <= 10000 ==> outcome == Points(Newest(WriterSeries(View(), since), limit))
      ensures IsChart(View(), since, WriterSeries(View(), since))
    {
      ChartIsNamed(View(), since);
      hide IsChart;
      if !(1 <= limit <= 10000) {
        return BadLimit;
      }
      var sums := Accumulate(View(), since, MINUTES);
      var minutes := Sorted(IntLess, ChartedMinutes(sums.Keys));
      var points := ChartPoints(View(), since, sums, minutes);
      outcome := Points(Newest(points, limit));
    }
  }
}
