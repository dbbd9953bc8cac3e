/** Reading the compacted store gives what reading the full history would give. */
module Refinement {
  import opened Models
  import opened Ledger
  import opened Retention
  import opened Schedule
  import opened Conservation
  import opened Queries

  // ---------- queries that hit the same records ----------

  lemma {:induction false} RowSumSameHits(rows: seq<Row>, q: Query, q': Query)
    requires forall i | 0 <= i < |rows| :: HitsRow(q, rows[i]) <==> HitsRow(q', rows[i])
    ensures RowSum(rows, q) == RowSum(rows, q')
  {
    if rows == [] {
    } else {
      RowSumSameHits(rows[..|rows| - 1], q, q');
    }
  }

  lemma {:induction false} RollupSumSameHits(rollups: Rollups, q: Query, q': Query)
    requires forall key | key in rollups :: HitsBucket(q, key) <==> HitsBucket(q', key)
    ensures RollupSum(rollups, q) == RollupSum(rollups, q')
    decreases |rollups|
  {
    if rollups == map[] {
    } else {
      var key :| key in rollups;
      Smaller(rollups, key);
      RollupSumWithout(rollups, key, q);
      RollupSumWithout(rollups, key, q');
      RollupSumSameHits(rollups - {key}, q, q');
    }
  }

  // ---------- one hour-closed query ----------

  /** A query over a range of whole hours, from any start. */
  predicate HourRange(q: Query) {
    q.grid == MINUTES && q.low % 60 == 0 && q.high % 60 == 0
  }

  /** A query that takes or leaves every hour as a whole. */
  predicate HourClosed(q: Query) {
    HourRange(q) && q.since % 3600 == 0
  }

  lemma MinuteBounds(at: real)
    ensures (Index(MINUTES, at) * 60) as real <= at < (Index(MINUTES, at) * 60 + 60) as real
  {
    var x := (at - 0 as real) / 60 as real;
    assert x.Floor as real <= x < (x.Floor + 1) as real;
  }

  /** A minute bound on a whole hour cuts an observation and its rollup bucket alike. */
  lemma SameSideOfHour(at: Timestamp, bound: int)
    requires bound % 60 == 0
    ensures bound <= Index(MINUTES, at) <==> bound <= Index(MINUTES, BucketStart(at) as real)
  {
    var start := BucketStart(at);
    HourBounds(at);
    MinuteBounds(at);
    MinuteBounds(start as real);
    var h := bound / 60;
    assert bound * 60 == h * 3600;
    assert bound * 60 <= start <==> (bound * 60) as real <= at by {
      assert start % 3600 == 0 && (bound * 60) % 3600 == 0;
      if (bound * 60) as real <= at {
        assert bound * 60 < start + 3600;
        assert h < start / 3600 + 1;
      }
    }
  }

  lemma SinceHourAligned(since: int)
    requires since % 3600 == 0
    ensures SinceHour(since) == since
  {
  }

  /** An hour-closed query takes a row exactly when it takes the bucket the row compacts into. */
  lemma HourClosedHits(q: Query, row: Row)
    requires HourClosed(q)
    ensures HitsRow(q, row) <==> HitsBucket(q, KeyOf(row))
  {
    SinceHourAligned(q.since);
    SameSideOfHour(row.at, q.low);
    SameSideOfHour(row.at, q.high);
    HourBounds(row.at);
    var start := BucketStart(row.at);
    if row.at >= q.since as real {
      assert q.since < start + 3600;
      assert q.since / 3600 < start / 3600 + 1;
    }
  }

  /** What a pass moves into the buckets a query takes. */
  function MovedSum(rows: seq<Row>, q: Query, from: real, until: real): nat {
    if rows == [] then
      0
    else
      var row := rows[|rows| - 1];
      MovedSum(rows[..|rows| - 1], q, from, until)
          + if from <= row.at < until && HitsBucket(q, KeyOf(row)) then row.delta else 0
  }

  function Upsert(rollups: Rollups, key: BucketKey, added: Bucket): Rollups {
    rollups[key := Plus(Lookup(rollups, key), Some(added)).value]
  }

  lemma UpsertSum(rollups: Rollups, key: BucketKey, added: Bucket, q: Query)
    ensures RollupSum(Upsert(rollups, key, added), q) == RollupSum(rollups, q)
            + if HitsBucket(q, key) then added.delta else 0
  {
    var after := Upsert(rollups, key, added);
    RollupSumWithout(after, key, q);
    if key in rollups {
      RollupSumWithout(rollups, key, q);
      assert after - {key} == rollups - {key};
    } else {
      assert after - {key} == rollups;
    }
  }

  /** Grouping row by row is grouping at once. */
  lemma MergeSnoc(rollups: Rollups, rows: seq<Row>, row: Row, from: real, until: real)
    ensures Merge(rollups, rows + [row], from, until) ==
            if from <= row.at < until then Upsert(Merge(rollups, rows, from, until), KeyOf(row), Contribution(row))
            else Merge(rollups, rows, from, until)
  {
    var before, after := Merge(rollups, rows, from, until), Merge(rollups, rows + [row], from, until);
    var expected := if from <= row.at < until then Upsert(before, KeyOf(row), Contribution(row)) else before;
    forall key: BucketKey ensures Lookup(after, key) == Lookup(expected, key) {
      MergeLookup(rollups, rows + [row], from, until, key);
      MergeLookup(rollups, rows, from, until, key);
      TallyConcat(rows, [row], key, from, until);
      SingleTally(row, key, from, until);
      PlusAssociative(Lookup(rollups, key), Tally(rows, key, from, until), if Falls(row, key, from, until)
          then Some(Contribution(row)) else None);
    }
    SameLookups(after, expected);
  }

  lemma MergeNothing(rollups: Rollups, from: real, until: real)
    ensures Merge(rollups, [], from, until) == rollups
  {
    forall key: BucketKey ensures Lookup(Merge(rollups, [], from, until), key) == Lookup(rollups, key) {
      MergeLookup(rollups, [], from, until, key);
    }
    SameLookups(Merge(rollups, [], from, until), rollups);
  }

  lemma MergeStepSum(before: Rollups, after: Rollups, row: Row, q: Query, from: real, until: real)
    requires after == if from <= row.at < until then Upsert(before, KeyOf(row), Contribution(row)) else before
    ensures RollupSum(after, q) == RollupSum(before, q)
            + if from <= row.at < until && HitsBucket(q, KeyOf(row)) then row.delta else 0
  {
    UpsertSum(before, KeyOf(row), Contribution(row), q);
  }

  lemma {:induction false} MergeSum(rollups: Rollups, rows: seq<Row>, q: Query, from: real, until: real)
    ensures RollupSum(Merge(rollups, rows, from, until), q) == RollupSum(rollups, q) + MovedSum(rows, q, from, until)
  {
    hide Classify;
    if rows == [] {
      MergeNothing(rollups, from, until);
    } else {
      var front, row := rows[..|rows| - 1], rows[|rows| - 1];
      MergeSum(rollups, front, q, from, until);
      assert rows == front + [row];
      MergeSnoc(rollups, front, row, from, until);
      MergeStepSum(Merge(rollups, front, from, until), Merge(rollups, rows, from, until), row, q, from, until);
    }
  }

  lemma {:induction false} PruneSum(rollups: Rollups, before: int, q: Query)
    requires before <= SinceHour(q.since)
    ensures RollupSum(Prune(rollups, before), q) == RollupSum(rollups, q)
    decreases |rollups|
  {
    if rollups == map[] {
      assert Prune(rollups, before) == map[];
    } else {
      var key :| key in rollups;
      Smaller(rollups, key);
      RollupSumWithout(rollups, key, q);
      PruneSum(rollups - {key}, before, q);
      if key.start >= before {
        RollupSumWithout(Prune(rollups, before), key, q);
        assert Prune(rollups, before) - {key} == Prune(rollups - {key}, before);
      } else {
        assert Prune(rollups, before) == Prune(rollups - {key}, before);
      }
    }
  }

  lemma {:induction false} RowsMovedOrKept(rows: seq<Row>, q: Query, from: real, until: real)
    requires from <= q.since as real
    requires forall i | 0 <= i < |rows| && from <= rows[i].at < until ::
               HitsRow(q, rows[i]) <==> HitsBucket(q, KeyOf(rows[i]))
    ensures RowSum(rows, q) == RowSum(Since(rows, RowTime, until), q) + MovedSum(rows, q, from, until)
  {
    hide Classify, HitsBucket, Selects;
    if rows == [] {
    } else {
      var front, row := rows[..|rows| - 1], rows[|rows| - 1];
      RowsMovedOrKept(front, q, from, until);
      var kept := Since(rows, RowTime, until);
      if row.at >= until {
        assert kept[..|kept| - 1] == Since(front, RowTime, until);
      } else {
        assert kept == Since(front, RowTime, until);
      }
    }
  }

  lemma {:induction false} RowSumConcat(a: seq<Row>, b: seq<Row>, q: Query)
    ensures RowSum(a + b, q) == RowSum(a, q) + RowSum(b, q)
  {
    if b == [] {
      assert a + b == a;
    } else {
      assert (a + b)[..|a + b| - 1] == a + b[..|b| - 1];
      RowSumConcat(a, b[..|b| - 1], q);
    }
  }

  /** A pass is invisible to an hour-closed query over what it cannot expire. */
  lemma PassKeepsTraffic(t: Tables, now: real, days: Days, q: Query)
    requires HourClosed(q) && RollupCutoff(now, days) <= q.since as real
    ensures Traffic(Retained(t, now, days), q) == Traffic(t, q)
  {
    var raw, rollup := RawCutoff(now, days), RollupCutoff(now, days);
    SinceHourAligned(q.since);
    HourBounds(rollup);
    MergeSum(t.rollups, t.rows, q, rollup, raw);
    PruneSum(Merge(t.rollups, t.rows, rollup, raw), HourFloor(rollup), q);
    forall i | 0 <= i < |t.rows| ensures HitsRow(q, t.rows[i]) <==> HitsBucket(q, KeyOf(t.rows[i])) {
      HourClosedHits(q, t.rows[i]);
    }
    hide HitsRow, HitsBucket;
    RowsMovedOrKept(t.rows, q, rollup, raw);
  }

  /** Compacted or not, an hour-closed query reads the same traffic. */
  lemma {:induction false} SameTraffic(events: seq<Event>, q: Query)
    requires HourClosed(q) && RollupCutoffsAtMost(events, q.since as real)
    ensures Traffic(Run(events), q) == Traffic(Unpruned(events), q)
  {
    if events == [] {
    } else {
      var front, last := events[..|events| - 1], events[|events| - 1];
      SameTraffic(front, q);
      UnprunedStep(events);
      var t, u := Run(front), Unpruned(front);
      match last
      case Record(batch) =>
        SameCursors(front);
        match RecordAll(t.cursors, batch.counters) {
          case Abort(_) =>
          case Done(recorded) =>
            RowSumConcat(t.rows, recorded.rows, q);
            RowSumConcat(u.rows, recorded.rows, q);
        }
      case Retain(now, days) =>
        PassKeepsTraffic(t, now, days, q);
    }
  }

  // ---------- the shown Xray scope ----------

  /** Some record for this figure is read by a query for `since`. */
  predicate Appears(t: Tables, since: int, selector: Selector) {
    || (exists i :: 0 <= i < |t.rows| && t.rows[i].at >= since as real && Classify(t.rows[i].series) == Some(selector))
    || (exists key :: key in t.rollups && key.start >= SinceHour(since) && Classify(key.series) == Some(selector))
  }

  /** A row read from a whole hour on compacts into a bucket read from that hour on. */
  lemma RowsBucketIsRead(rows: seq<Row>, i: nat, since: int)
    requires since % 3600 == 0 && i < |rows| && rows[i].at >= since as real
    ensures KeyOf(rows[i]).start >= since && Whole(rows, KeyOf(rows[i])).Some?
  {
    var key := KeyOf(rows[i]);
    HourBounds(rows[i].at);
    assert since / 3600 < key.start / 3600 + 1;
    assert Falls(rows[i], key, key.start as real, (key.start + 3600) as real);
    TallyPresent(rows, key, key.start as real, (key.start + 3600) as real);
  }

  /** The bucket of a record read by a query for a whole-hour `since`. */
  lemma AppearsInBucket(t: Tables, since: int, selector: Selector) returns (key: BucketKey)
    requires since % 3600 == 0 && Appears(t, since, selector)
    ensures key.start >= since && Classify(key.series) == Some(selector)
    ensures Plus(Whole(t.rows, key), Lookup(t.rollups, key)).Some?
  {
    hide Classify;
    if i :| 0 <= i < |t.rows| && t.rows[i].at >= since as real && Classify(t.rows[i].series) == Some(selector) {
      key := KeyOf(t.rows[i]);
      RowsBucketIsRead(t.rows, i, since);
    } else {
      SinceHourAligned(since);
      key :| key in t.rollups && key.start >= SinceHour(since) && Classify(key.series) == Some(selector);
    }
  }

  lemma BucketAppears(t: Tables, since: int, key: BucketKey)
    requires since % 3600 == 0 && key.start >= since && Classify(key.series).Some?
    requires Plus(Whole(t.rows, key), Lookup(t.rollups, key)).Some?
    ensures Appears(t, since, Classify(key.series).value)
  {
    SinceHourAligned(since);
    if key !in t.rollups {
      TallyPresent(t.rows, key, key.start as real, (key.start + 3600) as real);
      var i :| 0 <= i < |t.rows| && Falls(t.rows[i], key, key.start as real, (key.start + 3600) as real);
      assert Classify(t.rows[i].series) == Classify(key.series);
    }
  }

  lemma SameAppearances(events: seq<Event>, since: int, selector: Selector)
    requires since % 3600 == 0 && RollupCutoffsAtMost(events, since as real)
    ensures Appears(Run(events), since, selector) <==> Appears(Unpruned(events), since, selector)
  {
    UnprunedHasNoRollups(events);
    if Appears(Run(events), since, selector) {
      var key := AppearsInBucket(Run(events), since, selector);
      BucketConservation(events, key);
      BucketAppears(Unpruned(events), since, key);
    }
    if Appears(Unpruned(events), since, selector) {
      var key := AppearsInBucket(Unpruned(events), since, selector);
      BucketConservation(events, key);
      ExpiredOnlyWhenOld(events, key);
      BucketAppears(Run(events), since, key);
    }
  }

  lemma CellOf(t: Tables, since: int, selector: Selector) returns (minute: int)
    requires Appears(t, since, selector)
    ensures (selector, minute) in Cells(t, since, MINUTES)
  {
    if i :| 0 <= i < |t.rows| && t.rows[i].at >= since as real && Classify(t.rows[i].series) == Some(selector) {
      minute := Index(MINUTES, t.rows[i].at);
    } else {
      var key :| key in t.rollups && key.start >= SinceHour(since) && Classify(key.series) == Some(selector);
      minute := Index(MINUTES, key.start as real);
    }
  }

  lemma CellAppears(t: Tables, since: int, cell: (Selector, int))
    requires cell in Cells(t, since, MINUTES)
    ensures Appears(t, since, cell.0)
  {
  }

  lemma ScopeOfCell(cells: set<Cell>, cell: Cell)
    requires cell in cells && cell.0.Xray?
    ensures cell.0.scope in ScopesOf(cells)
  {
  }

  lemma CellOfScope(cells: set<Cell>, scope: Scope) returns (cell: Cell)
    requires scope in ScopesOf(cells)
    ensures cell in cells && (cell.0 == Xray(scope, Uplink) || cell.0 == Xray(scope, Downlink))
  {
    cell :| cell in cells && cell.0.Xray? && cell.0.scope == scope;
    match cell.0.direction
    case Uplink =>
    case Downlink =>
  }

  lemma ScopeAppears(t: Tables, since: int, scope: Scope)
    ensures scope in ScopesOf(Cells(t, since, MINUTES))
            <==> Appears(t, since, Xray(scope, Uplink)) || Appears(t, since, Xray(scope, Downlink))
  {
    hide Classify;
    var cells := Cells(t, since, MINUTES);
    if scope in ScopesOf(cells) {
      var cell := CellOfScope(cells, scope);
      CellAppears(t, since, cell);
    } else if Appears(t, since, Xray(scope, Uplink)) {
      var minute := CellOf(t, since, Xray(scope, Uplink));
      ScopeOfCell(cells, (Xray(scope, Uplink), minute));
    } else if Appears(t, since, Xray(scope, Downlink)) {
      var minute := CellOf(t, since, Xray(scope, Downlink));
      ScopeOfCell(cells, (Xray(scope, Downlink), minute));
    }
  }

  lemma SameScope(events: seq<Event>, since: int, scope: Scope)
    requires since % 3600 == 0 && RollupCutoffsAtMost(events, since as real)
    ensures scope in ScopesOf(Cells(Run(events), since, MINUTES))
            <==> scope in ScopesOf(Cells(Unpruned(events), since, MINUTES))
  {
    hide Classify;
    ScopeAppears(Run(events), since, scope);
    ScopeAppears(Unpruned(events), since, scope);
    SameAppearances(events, since, Xray(scope, Uplink));
    SameAppearances(events, since, Xray(scope, Downlink));
  }

  lemma SameShownScope(events: seq<Event>, since: int)
    requires since % 3600 == 0 && RollupCutoffsAtMost(events, since as real)
    ensures Shown(Run(events), since) == Shown(Unpruned(events), since)
  {
    hide Classify, Cells, ScopesOf;
    SameScope(events, since, User);
    SameScope(events, since, Inbound);
    SameScope(events, since, Outbound);
  }
}
