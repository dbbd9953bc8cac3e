/** Reading the compacted store from any start: the one hour a start may lie in. */
module Overlap {
  import opened Models
  import opened Ledger
  import opened Retention
  import opened Schedule
  import opened Conservation
  import opened Queries
  import opened Refinement
  import opened Chart

  // ---------- nothing is hidden ----------

  lemma SinceHourIsEarly(since: int, at: real)
    requires since as real <= at
    ensures at >= 0.0 ==> SinceHour(since) <= BucketStart(at)
    ensures at == since as real ==> HourFloor(at) <= SinceHour(since)
  {
    HourBounds(at);
    HourFloorMonotone(since as real, at);
    if since >= 0 {
      HourUnique(since as real, since / 3600 * 3600);
    } else {
      var hour := SinceHour(since);
      assert -hour == -since / 3600 * 3600 && hour <= 0 && hour >= since;
      assert at >= 0.0 ==> BucketStart(at) >= 0;
    }
  }

  /** Wherever it starts, a range of whole hours takes the bucket of every row it takes. */
  lemma HitRowHitsBucket(q: Query, row: Row)
    requires HourRange(q)
    ensures HitsRow(q, row) ==> HitsBucket(q, KeyOf(row))
  {
    hide Classify, SinceHour, BucketStart;
    SameSideOfHour(row.at, q.low);
    SameSideOfHour(row.at, q.high);
    if HitsRow(q, row) {
      SinceHourIsEarly(q.since, row.at);
    }
  }

  lemma {:induction false} RowsMovedOrMore(rows: seq<Row>, q: Query, from: real, until: real)
    requires HourRange(q) && from <= q.since as real
    ensures RowSum(rows, q) <= RowSum(Since(rows, RowTime, until), q) + MovedSum(rows, q, from, until)
  {
    hide Classify, HitsBucket, SinceHour;
    if rows == [] {
    } else {
      var front, row := rows[..|rows| - 1], rows[|rows| - 1];
      RowsMovedOrMore(front, q, from, until);
      HitRowHitsBucket(q, row);
      var kept := Since(rows, RowTime, until);
      if row.at >= until {
        assert kept[..|kept| - 1] == Since(front, RowTime, until);
      } else {
        assert kept == Since(front, RowTime, until);
      }
    }
  }

  /** A pass takes nothing away from a range of whole hours it cannot expire. */
  lemma PassHidesNothing(t: Tables, now: real, days: Days, q: Query)
    requires HourRange(q) && RollupCutoff(now, days) <= q.since as real
    ensures Traffic(Retained(t, now, days), q) >= Traffic(t, q)
  {
    hide Classify, HitsBucket, HitsRow, SinceHour, HourFloor;
    var raw, rollup := RawCutoff(now, days), RollupCutoff(now, days);
    HourFloorMonotone(rollup, q.since as real);
    SinceHourIsEarly(q.since, q.since as real);
    MergeSum(t.rollups, t.rows, q, rollup, raw);
    PruneSum(Merge(t.rollups, t.rows, rollup, raw), HourFloor(rollup), q);
    RowsMovedOrMore(t.rows, q, rollup, raw);
  }

  lemma {:induction false} CompactionHidesNothing(events: seq<Event>, q: Query)
    requires HourRange(q) && RollupCutoffsAtMost(events, q.since as real)
    ensures Traffic(Run(events), q) >= Traffic(Unpruned(events), q)
  {
    hide Retained, Traffic;
    if events == [] {
      assert Run(events) == Unpruned(events);
    } else {
      var front, last := events[..|events| - 1], events[|events| - 1];
      CompactionHidesNothing(front, q);
      UnprunedStep(events);
      match last
      case Record(batch) => SameCursors(front); BatchAddsTheSame(Run(front), Unpruned(front), batch, q);
      case Retain(now, days) => PassHidesNothing(Run(front), now, days, q);
    }
  }

  lemma BatchAddsTheSame(t: Tables, u: Tables, batch: Batch, q: Query)
    requires t.cursors == u.cursors && Traffic(t, q) >= Traffic(u, q)
    ensures Traffic(Apply(t, Record(batch)), q) >= Traffic(Apply(u, Record(batch)), q)
  {
    match RecordAll(t.cursors, batch.counters)
    case Abort(_) =>
    case Done(recorded) =>
      RowSumConcat(t.rows, recorded.rows, q);
      RowSumConcat(u.rows, recorded.rows, q);
  }

  /** An hour that begins at or after the start is read as if the chart started with it. */
  lemma LaterHour(t: Tables, since: int, selector: Selector, hour: int)
    requires since <= hour * 3600
    ensures Traffic(t, HourQuery(since, selector, hour)) == Traffic(t, HourQuery(hour * 3600, selector, hour))
  {
    var q, q' := HourQuery(since, selector, hour), HourQuery(hour * 3600, selector, hour);
    forall i | 0 <= i < |t.rows| ensures HitsRow(q, t.rows[i]) <==> HitsRow(q', t.rows[i]) {
      MinuteBounds(t.rows[i].at);
    }
    forall key | key in t.rollups ensures HitsBucket(q, key) <==> HitsBucket(q', key) {
      MinuteBounds(key.start as real);
      SinceHourBefore(since, hour);
    }
    RowSumSameHits(t.rows, q, q');
    RollupSumSameHits(t.rollups, q, q');
  }

  lemma SinceHourBefore(since: int, hour: int)
    requires since <= hour * 3600
    ensures SinceHour(since) <= hour * 3600 == SinceHour(hour * 3600)
  {
    SinceHourAligned(hour * 3600);
    if since >= 0 {
      assert since / 3600 <= hour;
    } else {
      assert -since / 3600 >= -hour;
    }
  }

  // ---------- no bucket overlaps the start ----------

  /** A rollup bucket that begins before the start is read as well. */
  predicate OverlapRead(t: Tables, since: int) {
    exists key :: key in t.rollups && SinceHour(since) <= key.start < since
  }

  /** It is never so from a whole hour, and never from before the epoch. */
  lemma NoOverlap(t: Tables, since: int)
    requires since % 3600 == 0 || since <= 0
    ensures !OverlapRead(t, since)
  {
    assert SinceHour(since) >= since;
  }

  lemma UntouchedHits(q: Query, row: Row)
    requires HourRange(q) && !(SinceHour(q.since) <= KeyOf(row).start < q.since)
    ensures HitsRow(q, row) <==> HitsBucket(q, KeyOf(row))
  {
    hide Classify, SinceHour, BucketStart;
    SameSideOfHour(row.at, q.low);
    SameSideOfHour(row.at, q.high);
    HourBounds(row.at);
    if row.at >= q.since as real {
      SinceHourIsEarly(q.since, row.at);
    }
  }

  /** A pass at this time moves the row into the bucket. */
  predicate Compacts(row: Row, now: real, days: Days, key: BucketKey) {
    RollupCutoff(now, days) <= row.at < RawCutoff(now, days) && KeyOf(row) == key
  }

  predicate CompactsInto(rows: seq<Row>, now: real, days: Days, key: BucketKey) {
    exists i :: 0 <= i < |rows| && Compacts(rows[i], now, days, key)
  }

  /** A bucket that overlaps the start stays once it is there. */
  lemma OverlapStays(t: Tables, now: real, days: Days, since: int, key: BucketKey)
    requires RollupCutoff(now, days) <= since as real && SinceHour(since) <= key.start < since
    requires key in t.rollups || CompactsInto(t.rows, now, days, key)
    ensures OverlapRead(Retained(t, now, days), since)
  {
    hide SinceHour, BucketStart, Retained;
    RetainedLookup(t, now, days, key);
    HourFloorMonotone(RollupCutoff(now, days), since as real);
    SinceHourIsEarly(since, since as real);
    if key !in t.rollups {
      TallyPresent(t.rows, key, RollupCutoff(now, days), RawCutoff(now, days));
      var i :| 0 <= i < |t.rows| && Compacts(t.rows[i], now, days, key);
      assert Falls(t.rows[i], key, RollupCutoff(now, days), RawCutoff(now, days));
    }
    assert key in Retained(t, now, days).rollups;
  }

  lemma PassKeepsUnoverlapped(t: Tables, now: real, days: Days, q: Query)
    requires HourRange(q) && RollupCutoff(now, days) <= q.since as real && !OverlapRead(Retained(t, now, days), q.since)
    ensures !OverlapRead(t, q.since)
    ensures Traffic(Retained(t, now, days), q) == Traffic(t, q)
  {
    var raw, rollup := RawCutoff(now, days), RollupCutoff(now, days);
    if key :| key in t.rollups && SinceHour(q.since) <= key.start < q.since {
      OverlapStays(t, now, days, q.since, key);
    }
    forall i | 0 <= i < |t.rows| && rollup <= t.rows[i].at < raw
      ensures HitsRow(q, t.rows[i]) <==> HitsBucket(q, KeyOf(t.rows[i]))
    {
      if SinceHour(q.since) <= KeyOf(t.rows[i]).start < q.since {
        assert Compacts(t.rows[i], now, days, KeyOf(t.rows[i]));
        OverlapStays(t, now, days, q.since, KeyOf(t.rows[i]));
      }
      UntouchedHits(q, t.rows[i]);
    }
    hide HitsRow, HitsBucket, SinceHour, HourFloor, OverlapRead;
    HourFloorMonotone(rollup, q.since as real);
    SinceHourIsEarly(q.since, q.since as real);
    MergeSum(t.rollups, t.rows, q, rollup, raw);
    PruneSum(Merge(t.rollups, t.rows, rollup, raw), HourFloor(rollup), q);
    RowsMovedOrKept(t.rows, q, rollup, raw);
  }

  lemma BatchAddsEqually(t: Tables, u: Tables, batch: Batch, q: Query)
    requires t.cursors == u.cursors && Traffic(t, q) == Traffic(u, q)
    ensures Traffic(Apply(t, Record(batch)), q) == Traffic(Apply(u, Record(batch)), q)
    ensures Apply(t, Record(batch)).rollups == t.rollups
  {
    match RecordAll(t.cursors, batch.counters)
    case Abort(_) =>
    case Done(recorded) =>
      RowSumConcat(t.rows, recorded.rows, q);
      RowSumConcat(u.rows, recorded.rows, q);
  }

  lemma NoChange(t: Tables, t': Tables, since: int)
    requires t.rollups == t'.rollups
    ensures OverlapRead(t, since) <==> OverlapRead(t', since)
  {
  }

  /** With no bucket across the start, every range of whole hours reads what the full history holds. */
  lemma {:induction false} UnoverlappedTraffic(events: seq<Event>, q: Query)
    requires HourRange(q) && RollupCutoffsAtMost(events, q.since as real) && !OverlapRead(Run(events), q.since)
    ensures Traffic(Run(events), q) == Traffic(Unpruned(events), q)
  {
    hide Retained, Traffic, OverlapRead;
    if events == [] {
      assert Run(events) == Unpruned(events);
    } else {
      var front, last := events[..|events| - 1], events[|events| - 1];
      UnprunedStep(events);
      match last
      case Record(batch) =>
        SameCursors(front);
        NoChange(Run(front), Run(events), q.since);
        UnoverlappedTraffic(front, q);
        BatchAddsEqually(Run(front), Unpruned(front), batch, q);
      case Retain(now, days) =>
        PassKeepsUnoverlapped(Run(front), now, days, q);
        UnoverlappedTraffic(front, q);
    }
  }

  // ---------- which records a query finds ----------

  lemma {:induction false} YoungStays<T>(records: seq<T>, at: T -> real, cutoff: real, record: T)
    requires record in records && at(record) >= cutoff
    ensures record in Since(records, at, cutoff)
  {
    var front, last := records[..|records| - 1], records[|records| - 1];
    assert records == front + [last];
    if record in front {
      YoungStays(front, at, cutoff, record);
    }
  }

  lemma {:induction false} KeptWasThere<T>(records: seq<T>, at: T -> real, cutoff: real, record: T)
    requires record in Since(records, at, cutoff)
    ensures record in records
  {
    var front, last := records[..|records| - 1], records[|records| - 1];
    assert records == front + [last];
    if record in Since(front, at, cutoff) {
      KeptWasThere(front, at, cutoff, record);
    }
  }

  predicate HeldSomehow(t: Tables, row: Row) {
    row in t.rows || KeyOf(row) in t.rollups
  }

  lemma PassHolds(t: Tables, now: real, days: Days, row: Row)
    requires HeldSomehow(t, row) && RollupCutoff(now, days) <= row.at
    ensures HeldSomehow(Retained(t, now, days), row)
  {
    hide Retained, BucketStart;
    var raw, rollup, key := RawCutoff(now, days), RollupCutoff(now, days), KeyOf(row);
    RetainedLookup(t, now, days, key);
    HourFloorMonotone(rollup, row.at);
    HourBounds(row.at);
    if key !in t.rollups {
      var i :| 0 <= i < |t.rows| && t.rows[i] == row;
      if row.at < raw {
        TallyPresent(t.rows, key, rollup, raw);
        assert Falls(t.rows[i], key, rollup, raw);
      } else {
        YoungStays(t.rows, RowTime, raw, row);
        RetainedRows(t, now, days);
      }
    }
  }

  lemma RetainedRows(t: Tables, now: real, days: Days)
    ensures Retained(t, now, days).rows == Since(t.rows, RowTime, RawCutoff(now, days))
  {
  }

  /** A batch adds the same rows to both databases. */
  lemma SameRowsAdded(t: Tables, u: Tables, batch: Batch) returns (added: seq<Row>)
    requires t.cursors == u.cursors
    ensures Apply(t, Record(batch)).rows == t.rows + added && Apply(t, Record(batch)).rollups == t.rollups
    ensures Apply(u, Record(batch)).rows == u.rows + added
  {
    added := match RecordAll(t.cursors, batch.counters) case Abort(_) => [] case Done(recorded) => recorded.rows;
  }

  /** No row at or after every rollup cutoff is lost: it is still there, or in its bucket. */
  lemma {:induction false} HistoryIsHeld(events: seq<Event>, row: Row)
    requires row in Unpruned(events).rows && RollupCutoffsAtMost(events, row.at)
    ensures HeldSomehow(Run(events), row)
  {
    hide Retained, KeyOf;
    if events == [] {
    } else {
      var front, last := events[..|events| - 1], events[|events| - 1];
      UnprunedStep(events);
      match last
      case Record(batch) =>
        SameCursors(front);
        var added := SameRowsAdded(Run(front), Unpruned(front), batch);
        if row !in added {
          HistoryIsHeld(front, row);
        }
      case Retain(now, days) =>
        HistoryIsHeld(front, row);
        PassHolds(Run(front), now, days, row);
    }
  }

  /** Every raw row is part of the history. */
  lemma {:induction false} RowsAreHistory(events: seq<Event>, row: Row)
    requires row in Run(events).rows
    ensures row in Unpruned(events).rows
  {
    if events == [] {
    } else {
      var front, last := events[..|events| - 1], events[|events| - 1];
      UnprunedStep(events);
      match last
      case Record(batch) =>
        SameCursors(front);
        var added := SameRowsAdded(Run(front), Unpruned(front), batch);
        if row !in added {
          RowsAreHistory(front, row);
        }
      case Retain(now, days) =>
        RetainedRows(Run(front), now, days);
        KeptWasThere(Run(front).rows, RowTime, RawCutoff(now, days), row);
        RowsAreHistory(front, row);
    }
  }

  /** What the full history shows from a start, the compacted store shows as well. */
  lemma AppearsStays(events: seq<Event>, since: int, selector: Selector)
    requires RollupCutoffsAtMost(events, since as real) && Appears(Unpruned(events), since, selector)
    ensures Appears(Run(events), since, selector)
  {
    hide Classify, SinceHour, BucketStart;
    UnprunedHasNoRollups(events);
    var u := Unpruned(events);
    var i :| 0 <= i < |u.rows| && u.rows[i].at >= since as real && Classify(u.rows[i].series) == Some(selector);
    var row := u.rows[i];
    HistoryIsHeld(events, row);
    if row in Run(events).rows {
      var j :| 0 <= j < |Run(events).rows| && Run(events).rows[j] == row;
    } else {
      SinceHourIsEarly(since, row.at);
      assert KeyOf(row) in Run(events).rollups && Classify(KeyOf(row).series) == Some(selector);
    }
  }

  /** A bucket across the start that feeds an Xray figure. */
  predicate XrayOverlapRead(t: Tables, since: int) {
    exists key :: key in t.rollups && SinceHour(since) <= key.start < since && Classify(key.series).Some?
                  && Classify(key.series).value.Xray?
  }

  lemma RowWasThere(events: seq<Event>, since: int, selector: Selector, i: nat)
    requires i < |Run(events).rows| && Run(events).rows[i].at >= since as real
    requires Classify(Run(events).rows[i].series) == Some(selector)
    ensures Appears(Unpruned(events), since, selector)
  {
    hide Classify, Run, Unpruned;
    var row := Run(events).rows[i];
    RowsAreHistory(events, row);
    var j :| 0 <= j < |Unpruned(events).rows| && Unpruned(events).rows[j] == row;
  }

  lemma BucketWasThere(events: seq<Event>, since: int, selector: Selector, key: BucketKey)
    requires key in Run(events).rollups && key.start >= since && Classify(key.series) == Some(selector)
    ensures Appears(Unpruned(events), since, selector)
  {
    hide Classify, Run, Unpruned, Expired, BucketStart;
    var u := Unpruned(events);
    BucketConservation(events, key);
    TallyPresent(u.rows, key, key.start as real, (key.start + 3600) as real);
    var j :| 0 <= j < |u.rows| && Falls(u.rows[j], key, key.start as real, (key.start + 3600) as real);
    assert Classify(u.rows[j].series) == Some(selector);
  }

  /** With no such bucket, what the compacted store shows of Xray was there. */
  lemma AppearsWas(events: seq<Event>, since: int, selector: Selector)
    requires !XrayOverlapRead(Run(events), since) && selector.Xray? && Appears(Run(events), since, selector)
    ensures Appears(Unpruned(events), since, selector)
  {
    hide Classify, SinceHour, Run, Unpruned;
    var t := Run(events);
    if i :| 0 <= i < |t.rows| && t.rows[i].at >= since as real && Classify(t.rows[i].series) == Some(selector) {
      RowWasThere(events, since, selector, i);
    } else {
      var key :| key in t.rollups && key.start >= SinceHour(since) && Classify(key.series) == Some(selector);
      BucketWasThere(events, since, selector, key);
    }
  }

  // ---------- the chart from any start ----------

  /** One shown scope is the other or comes before it in the order of preference. */
  predicate NoLessPreferred(a: Option<Scope>, b: Option<Scope>) {
    b == None || a == b || a == Some(User) || (a == Some(Inbound) && b == Some(Outbound))
  }

  /** Compaction can only bring a more preferred scope into a chart, and only by a bucket across its start. */
  lemma ScopeFromAnyStart(events: seq<Event>, since: int)
    requires RollupCutoffsAtMost(events, since as real)
    ensures NoLessPreferred(Shown(Run(events), since), Shown(Unpruned(events), since))
    ensures !XrayOverlapRead(Run(events), since) ==> Shown(Run(events), since) == Shown(Unpruned(events), since)
  {
    hide Classify, Cells, ScopesOf, Appears, XrayOverlapRead;
    forall scope: Scope
      ensures scope in ScopesOf(Cells(Unpruned(events), since, MINUTES)) ==>
              scope in ScopesOf(Cells(Run(events), since, MINUTES))
      ensures !XrayOverlapRead(Run(events), since) ==>
                (scope in ScopesOf(Cells(Run(events), since, MINUTES)) ==>
                    scope in ScopesOf(Cells(Unpruned(events), since, MINUTES)))
    {
      ScopeFound(events, since, scope);
    }
  }

  lemma ScopeFound(events: seq<Event>, since: int, scope: Scope)
    requires RollupCutoffsAtMost(events, since as real)
    ensures scope in ScopesOf(Cells(Unpruned(events), since, MINUTES)) ==>
            scope in ScopesOf(Cells(Run(events), since, MINUTES))
    ensures !XrayOverlapRead(Run(events), since) ==>
              (scope in ScopesOf(Cells(Run(events), since, MINUTES)) ==>
                  scope in ScopesOf(Cells(Unpruned(events), since, MINUTES)))
  {
    hide Classify, Cells, ScopesOf, Appears, XrayOverlapRead;
    ScopeAppears(Run(events), since, scope);
    ScopeAppears(Unpruned(events), since, scope);
    forall direction: Direction
      ensures Appears(Unpruned(events), since, Xray(scope, direction)) ==>
              Appears(Run(events), since, Xray(scope, direction))
      ensures !XrayOverlapRead(Run(events), since) && Appears(Run(events), since, Xray(scope, direction)) ==>
                Appears(Unpruned(events), since, Xray(scope, direction))
    {
      if Appears(Unpruned(events), since, Xray(scope, direction)) {
        AppearsStays(events, since, Xray(scope, direction));
      }
      if !XrayOverlapRead(Run(events), since) && Appears(Run(events), since, Xray(scope, direction)) {
        AppearsWas(events, since, Xray(scope, direction));
      }
    }
  }

  predicate IsHost(column: Column) {
    column == HostRx || column == HostTx
  }

  lemma HourFromAnyStart(events: seq<Event>, since: int, shown: Option<Scope>, column: Column, hour: int)
    requires RollupCutoffsAtMost(events, since as real)
    ensures HourTraffic(Run(events), since, shown, column, hour)
            >= HourTraffic(Unpruned(events), since, shown, column, hour)
    ensures since <= hour * 3600 || !OverlapRead(Run(events), since) ==>
              HourTraffic(Run(events), since, shown, column, hour)
                  == HourTraffic(Unpruned(events), since, shown, column, hour)
  {
    hide Traffic, OverlapRead, Run, Unpruned;
    match SelectorOf(column, shown)
    case None =>
    case Some(selector) =>
      CompactionHidesNothing(events, HourQuery(since, selector, hour));
      if since <= hour * 3600 {
        LaterHour(Run(events), since, selector, hour);
        LaterHour(Unpruned(events), since, selector, hour);
        SameTraffic(events, HourQuery(hour * 3600, selector, hour));
      } else if !OverlapRead(Run(events), since) {
        UnoverlappedTraffic(events, HourQuery(since, selector, hour));
      }
  }

  /** The host columns do not depend on the shown scope. */
  lemma HostTraffic(t: Tables, since: int, shown: Option<Scope>, shown': Option<Scope>, column: Column, hour: int)
    requires IsHost(column)
    ensures HourTraffic(t, since, shown, column, hour) == HourTraffic(t, since, shown', column, hour)
  {
    hide Traffic;
  }

  /** Whatever its start, a compacted chart shows no hour too small, and every hour that begins at or after
      its start exactly. For the Xray columns this takes the same shown scope, which a start with no Xray
      bucket across it gives. */
  lemma AnyStart(events: seq<Event>, since: int, column: Column, hour: int)
    requires RollupCutoffsAtMost(events, since as real)
    requires || IsHost(column) || !XrayOverlapRead(Run(events), since)
             || Shown(Run(events), since) == Shown(Unpruned(events), since)
    ensures HourTotal(WriterSeries(Run(events), since), column, hour)
            >= HourTotal(WriterSeries(Unpruned(events), since), column, hour)
    ensures since <= hour * 3600 || !OverlapRead(Run(events), since) ==>
              HourTotal(WriterSeries(Run(events), since), column, hour)
              == HourTotal(WriterSeries(Unpruned(events), since), column, hour)
  {
    hide HourTotal, WriterSeries, Shown, HourTraffic, XrayOverlapRead, OverlapRead, Run, Unpruned;
    var shown, shown' := Shown(Run(events), since), Shown(Unpruned(events), since);
    HourIsTraffic(Run(events), since, column, hour);
    HourIsTraffic(Unpruned(events), since, column, hour);
    HourFromAnyStart(events, since, shown, column, hour);
    if IsHost(column) {
      HostTraffic(Unpruned(events), since, shown, shown', column, hour);
    } else {
      ScopeFromAnyStart(events, since);
      assert shown == shown';
    }
  }
}
