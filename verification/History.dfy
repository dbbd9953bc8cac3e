/** What the recorded history of a run is: a replay in which every row is derived
    from the row of the same counter before it. Telescoping and the 64-bit bound follow. */
module History {
  import opened Models
  import opened Ledger
  import opened Retention
  import opened Schedule
  import opened Conservation

  /** Where every counter stands after the given rows. */
  function CursorsOf(rows: seq<Row>): Cursors {
    if rows == [] then map[] else Advance(CursorsOf(rows[..|rows| - 1]), rows[|rows| - 1])
  }

  function ObservationOf(row: Row): CounterObservation {
    CounterObservation(row.at, row.series, row.raw, row.resetId)
  }

  /** Every row is what recording its reading after the rows before it gives. */
  predicate Genuine(rows: seq<Row>) {
    rows == [] ||
    (Genuine(rows[..|rows| - 1]) && Derive(CursorsOf(rows[..|rows| - 1]), ObservationOf(rows[|rows| - 1]))
        == Done(rows[|rows| - 1]))
  }

  lemma OneMoreIsGenuine(rows: seq<Row>, o: CounterObservation, row: Row)
    requires Genuine(rows) && Derive(CursorsOf(rows), o) == Done(row)
    ensures Genuine(rows + [row]) && CursorsOf(rows + [row]) == Advance(CursorsOf(rows), row)
  {
    assert ObservationOf(row) == o;
    assert (rows + [row])[..|rows + [row]| - 1] == rows;
  }

  lemma {:induction false} BatchIsGenuine(rows: seq<Row>, counters: seq<CounterObservation>)
    requires Genuine(rows) && RecordAll(CursorsOf(rows), counters).Done?
    ensures Genuine(rows + RecordAll(CursorsOf(rows), counters).value.rows)
    ensures CursorsOf(rows + RecordAll(CursorsOf(rows), counters).value.rows)
            == RecordAll(CursorsOf(rows), counters).value.cursors
  {
    if counters == [] {
      assert rows + [] == rows;
    } else {
      var front, last := counters[..|counters| - 1], counters[|counters| - 1];
      assert counters == front + [last];
      RecordOneMore(CursorsOf(rows), front, last);
      BatchIsGenuine(rows, front);
      var before := RecordAll(CursorsOf(rows), front).value;
      var row := Derive(before.cursors, last).value;
      OneMoreIsGenuine(rows + before.rows, last, row);
      assert rows + (before.rows + [row]) == (rows + before.rows) + [row];
    }
  }

  lemma {:induction false} HistoryIsGenuine(events: seq<Event>)
    ensures Genuine(Unpruned(events).rows)
    ensures CursorsOf(Unpruned(events).rows) == Unpruned(events).cursors
  {
    if events == [] {
    } else {
      HistoryIsGenuine(events[..|events| - 1]);
      UnprunedStep(events);
      match events[|events| - 1]
      case Record(batch) =>
        if RecordAll(Unpruned(events[..|events| - 1]).cursors, batch.counters).Done? {
          BatchIsGenuine(Unpruned(events[..|events| - 1]).rows, batch.counters);
        }
      case Retain(_, _) =>
    }
  }

  /** Nothing of a counter lies after its cursor, and what lies at its instant is the same reading. */
  lemma {:induction false} CursorIsNewest(rows: seq<Row>, i: nat)
    requires Genuine(rows) && i < |rows|
    ensures rows[i].series in CursorsOf(rows)
    ensures var cursor := CursorsOf(rows)[rows[i].series];
            rows[i].at <= cursor.at && (rows[i].at == cursor.at ==>
                rows[i].raw == cursor.raw && rows[i].resetId == cursor.resetId)
  {
    if i < |rows| - 1 {
      CursorIsNewest(rows[..|rows| - 1], i);
    }
  }

  /** Of two rows of a counter the later one is not older, and at the same instant it is the same reading. */
  predicate Follows(earlier: Row, later: Row) {
    earlier.series == later.series ==>
      && earlier.at <= later.at
      && (earlier.at == later.at ==> earlier.raw == later.raw && earlier.resetId == later.resetId && later.delta == 0)
  }

  predicate InOrder(rows: seq<Row>) {
    forall i, j | 0 <= i < j < |rows| :: Follows(rows[i], rows[j])
  }

  lemma LastFollows(rows: seq<Row>, i: nat)
    requires Genuine(rows) && i < |rows| - 1
    ensures Follows(rows[i], rows[|rows| - 1])
  {
    var front := rows[..|rows| - 1];
    CursorIsNewest(front, i);
    assert rows[i] == front[i];
    hide CursorsOf;
  }

  /** The rows of a counter are in time order, and one instant has one reading, which adds nothing twice. */
  lemma {:induction false} OneReadingPerInstant(rows: seq<Row>)
    requires Genuine(rows)
    ensures InOrder(rows)
  {
    if rows == [] {
    } else {
      var front := rows[..|rows| - 1];
      OneReadingPerInstant(front);
      hide Genuine, CursorsOf, Derive, Follows;
      forall i, j | 0 <= i < j < |rows| ensures Follows(rows[i], rows[j]) {
        if j < |front| {
          assert Follows(front[i], front[j]);
        } else {
          LastFollows(rows, i);
        }
      }
    }
  }

  // ---------- telescoping ----------

  /** The rows of one counter. */
  function Trail(rows: seq<Row>, series: Series): seq<Row> {
    if rows == [] then
      []
    else
      Trail(rows[..|rows| - 1], series) + if rows[|rows| - 1].series == series then [rows[|rows| - 1]] else []
  }

  lemma {:induction false} CursorIsEndOfTrail(rows: seq<Row>, series: Series)
    ensures series in CursorsOf(rows) <==> Trail(rows, series) != []
    ensures Trail(rows, series) != [] ==>
              CursorsOf(rows)[series] == CursorAt(Trail(rows, series)[|Trail(rows, series)| - 1])
  {
    if rows == [] {
    } else {
      CursorIsEndOfTrail(rows[..|rows| - 1], series);
    }
  }

  function DeltaSum(rows: seq<Row>): int {
    if rows == [] then 0 else DeltaSum(rows[..|rows| - 1]) + rows[|rows| - 1].delta
  }

  /** A counter starts over when its identity changes or its reading decreases. */
  predicate StartsOver(previous: Row, next: Row) {
    next.resetId != previous.resetId || next.raw < previous.raw
  }

  /** The longest stretches of a trail in which the counter never starts over. */
  function Segments(trail: seq<Row>): (segments: seq<seq<Row>>)
    ensures trail != [] ==> segments != [] && segments[|segments| - 1] != []
                            && segments[|segments| - 1][|segments[|segments| - 1]| - 1] == trail[|trail| - 1]
  {
    if trail == [] then
      []
    else
      var front, last := trail[..|trail| - 1], trail[|trail| - 1];
      var before := Segments(front);
      if front == [] || StartsOver(front[|front| - 1], last) then
        before + [[last]]
      else
        before[..|before| - 1] + [before[|before| - 1] + [last]]
  }

  /** How far a counter moved in one segment: last reading less first reading. */
  function Span(segment: seq<Row>): int {
    if segment == [] then 0 else segment[|segment| - 1].raw - segment[0].raw
  }

  function SpanSum(segments: seq<seq<Row>>): int {
    if segments == [] then 0 else SpanSum(segments[..|segments| - 1]) + Span(segments[|segments| - 1])
  }

  lemma ExtendLastSegment(before: seq<seq<Row>>, row: Row)
    requires before != [] && before[|before| - 1] != []
    ensures var last := before[|before| - 1];
            SpanSum(before[..|before| - 1] + [last + [row]]) == SpanSum(before) + row.raw - last[|last| - 1].raw
  {
    var last := before[|before| - 1];
    var after := before[..|before| - 1] + [last + [row]];
    assert after[..|after| - 1] == before[..|before| - 1];
    assert after[|after| - 1] == last + [row];
  }

  lemma NewSegment(before: seq<seq<Row>>, row: Row)
    ensures SpanSum(before + [[row]]) == SpanSum(before)
  {
    assert (before + [[row]])[..|before|] == before;
  }

  /** Telescoping: the deltas of a counter add up to how far it moved in each segment. */
  lemma {:induction false} Telescoping(rows: seq<Row>, series: Series)
    requires Genuine(rows)
    ensures DeltaSum(Trail(rows, series)) == SpanSum(Segments(Trail(rows, series)))
  {
    if rows == [] {
    } else {
      var front, row := rows[..|rows| - 1], rows[|rows| - 1];
      Telescoping(front, series);
      if row.series == series {
        CursorIsEndOfTrail(front, series);
        var before, after := Trail(front, series), Trail(rows, series);
        assert after == before + [row];
        assert after[..|after| - 1] == before;
        var segments := Segments(before);
        if before == [] || StartsOver(before[|before| - 1], row) {
          assert Segments(after) == segments + [[row]];
          NewSegment(segments, row);
        } else {
          assert Segments(after) == segments[..|segments| - 1] + [segments[|segments| - 1] + [row]];
          ExtendLastSegment(segments, row);
        }
      } else {
        assert Trail(rows, series) == Trail(front, series);
      }
    }
  }

  function DeltaOf(slot: Slot): int {
    if slot.Some? then slot.value.delta else 0
  }

  lemma {:induction false} TrailTally(rows: seq<Row>, series: Series, hours: nat)
    requires forall i | 0 <= i < |rows| :: BucketStart(rows[i].at) < hours * 3600
    ensures DeltaOf(CounterTally(rows, series, hours)) == DeltaSum(Trail(rows, series))
  {
    if rows == [] {
    } else {
      var front, row := rows[..|rows| - 1], rows[|rows| - 1];
      TrailTally(front, series, hours);
      if row.series == series {
        assert Trail(rows, series)[..|Trail(rows, series)| - 1] == Trail(front, series);
      } else {
        assert Trail(rows, series) == Trail(front, series);
      }
    }
  }

  /** The same for a pruned database: what is raw, rolled up and expired adds up to how far the counter moved. */
  lemma RunTelescopes(events: seq<Event>, series: Series, hours: nat)
    requires forall i | 0 <= i < |Unpruned(events).rows| :: BucketStart(Unpruned(events).rows[i].at) < hours * 3600
    ensures DeltaOf(CounterTally(Run(events).rows, series, hours))
            + DeltaOf(RolledUp(Run(events).rollups, series, hours))
            + DeltaOf(ExpiredHours(events, series, hours))
         == SpanSum(Segments(Trail(Unpruned(events).rows, series)))
  {
    hide Segments, SpanSum, Trail, RolledUp, ExpiredHours, CounterTally;
    CounterConservation(events, series, hours);
    HistoryIsGenuine(events);
    Telescoping(Unpruned(events).rows, series);
    TrailTally(Unpruned(events).rows, series, hours);
  }

  // ---------- the 64-bit bound ----------

  /** The most a bucket can hold while its counter stands at `cursor`. */
  function Ceiling(resets: nat, cursor: Cursor, key: BucketKey): int {
    resets * MAX_INTEGER + if BucketStart(cursor.at) == key.start then cursor.raw else MAX_INTEGER
  }

  /** A later hour means the bucket is closed; an earlier one means it has not been opened. */
  predicate Bounded(slot: Slot, cursors: Cursors, key: BucketKey) {
    slot.Some? ==>
      && key.series in cursors
      && BucketStart(cursors[key.series].at) >= key.start
      && slot.value.delta <= Ceiling(slot.value.resets, cursors[key.series], key)
  }

  lemma RowStaysBounded(slot: Slot, cursors: Cursors, row: Row, key: BucketKey)
    requires Bounded(slot, cursors, key)
    requires Derive(cursors, ObservationOf(row)) == Done(row)
    requires key.start % 3600 == 0
    ensures var falls := Falls(row, key, key.start as real, (key.start + 3600) as real);
            Bounded(Plus(slot, if falls then Some(Contribution(row)) else None), Advance(cursors, row), key)
  {
    RowInHour(row, key);
    if row.series == key.series && row.series in cursors {
      HourFloorMonotone(cursors[row.series].at, row.at);
      HourBounds(cursors[row.series].at);
      HourBounds(row.at);
      if slot.Some? && row.isReset {
        assert (slot.value.resets + 1) * MAX_INTEGER == slot.value.resets * MAX_INTEGER + MAX_INTEGER;
      }
    }
  }

  lemma {:induction false} HistoryIsBounded(rows: seq<Row>, key: BucketKey)
    requires Genuine(rows) && key.start % 3600 == 0
    ensures Bounded(Whole(rows, key), CursorsOf(rows), key)
  {
    if rows == [] {
    } else {
      var front := rows[..|rows| - 1];
      HistoryIsBounded(front, key);
      RowStaysBounded(Whole(front, key), CursorsOf(front), rows[|rows| - 1], key);
    }
  }

  /** Whatever an unexpired hour of a counter was compacted in, its parts together stay within
      one integer range per reset-free stretch: a reset-free hour fits an SQLite integer. */
  lemma BucketFitsInteger(events: seq<Event>, key: BucketKey)
    requires RollupCutoffsAtMost(events, key.start as real)
    ensures var slot := Plus(Whole(Run(events).rows, key), Lookup(Run(events).rollups, key));
            slot.Some? ==> slot.value.delta <= (slot.value.resets + 1) * MAX_INTEGER
  {
    if NoSuchHour(key.start) {
      NoBucketOutsideHours(events, key);
      NothingFallsOutsideHours(Run(events).rows, key, key.start as real, (key.start + 3600) as real);
    } else {
      BucketConservation(events, key);
      ExpiredOnlyWhenOld(events, key);
      HistoryIsGenuine(events);
      HistoryIsBounded(Unpruned(events).rows, key);
    }
  }
}
