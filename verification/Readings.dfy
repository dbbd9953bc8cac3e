/** What recording does with a reading, said of the readings themselves: which are refused, which are
    baselines, which start a counter over, and what each adds. */
module Readings {
  import opened Models
  import opened Ledger
  import opened Conservation
  import opened History

  // ---------- one batch ----------

  /** Where a counter stood before a reading: at the last reading of it in the batch so far, or else at its cursor. */
  function Standing(cursors: Cursors, before: seq<CounterObservation>, series: Series): Option<Cursor> {
    if before == [] then
      (if series in cursors then Some(cursors[series]) else None)
    else
      var last := before[|before| - 1];
      if last.series == series then Some(Cursor(last.resetId, last.value, last.at))
      else Standing(cursors, before[..|before| - 1], series)
  }

  /** Later than the reading before it, or the same reading again. */
  predicate Acceptable(prior: Option<Cursor>, o: CounterObservation) {
    || prior.None?
    || prior.value.at < o.at
    || (prior.value.at == o.at && prior.value.raw == o.value && prior.value.resetId == o.resetId)
  }

  /** A row keeps the reading, and says how it compares with the one before it. */
  predicate Tells(prior: Option<Cursor>, o: CounterObservation, row: Row) {
    && row.at == o.at && row.series == o.series && row.raw == o.value && row.resetId == o.resetId
    && (row.isBaseline <==> prior.None?)
    && (row.isReset <==> prior.Some? && (prior.value.resetId != o.resetId || o.value < prior.value.raw))
    && row.delta == if prior.None? || row.isReset then 0 else o.value - prior.value.raw
  }

  /** A reply says of a reading what the row does. */
  predicate Replies(prior: Option<Cursor>, o: CounterObservation, result: CounterResult) {
    && result.series == o.series && result.value == o.value && result.resetId == o.resetId
    && (result.isBaseline <==> prior.None?)
    && (result.isReset <==> prior.Some? && (prior.value.resetId != o.resetId || o.value < prior.value.raw))
    && result.delta == if prior.None? || result.isReset then 0 else o.value - prior.value.raw
  }

  function PriorOf(cursors: Cursors, counters: seq<CounterObservation>, i: nat): Option<Cursor>
    requires i < |counters|
  {
    Standing(cursors, counters[..i], counters[i].series)
  }

  /** The cursors are where the counters stand. */
  ghost predicate Stand(cursors: Cursors, counters: seq<CounterObservation>, after: Cursors) {
    forall series: Series :: CursorFor(after, series) == Standing(cursors, counters, series)
  }

  function CursorFor(cursors: Cursors, series: Series): Option<Cursor> {
    if series in cursors then Some(cursors[series]) else None
  }

  lemma DeriveTells(cursors: Cursors, o: CounterObservation)
    ensures Derive(cursors, o).Done? <==> Acceptable(CursorFor(cursors, o.series), o)
    ensures Derive(cursors, o).Done? ==> Tells(CursorFor(cursors, o.series), o, Derive(cursors, o).value)
    ensures Derive(cursors, o) == Abort(NotTimeOrdered) <==>
            o.series in cursors && o.at < cursors[o.series].at
  {
  }

  predicate AllTell(cursors: Cursors, counters: seq<CounterObservation>, rows: seq<Row>) {
    && |rows| == |counters|
    && forall i | 0 <= i < |counters| ::
         && Acceptable(PriorOf(cursors, counters, i), counters[i])
         && Tells(PriorOf(cursors, counters, i), counters[i], rows[i])
  }

  lemma OneMoreTells(cursors: Cursors, front: seq<CounterObservation>, o: CounterObservation, rows: seq<Row>, row: Row)
    ensures AllTell(cursors, front, rows)
            && Acceptable(Standing(cursors, front, o.series), o)
            && Tells(Standing(cursors, front, o.series), o, row) ==>
              AllTell(cursors, front + [o], rows + [row])
  {
    hide Acceptable, Tells, Standing;
    var counters := front + [o];
    forall i | 0 <= i < |front| ensures PriorOf(cursors, counters, i) == PriorOf(cursors, front, i) {
      assert counters[..i] == front[..i];
    }
    assert counters[..|front|] == front;
  }

  lemma OneMoreStands(cursors: Cursors, front: seq<CounterObservation>, o: CounterObservation, before: Cursors,
                      row: Row)
    requires Stand(cursors, front, before)
    requires row.series == o.series && row.raw == o.value && row.resetId == o.resetId && row.at == o.at
    ensures Stand(cursors, front + [o], Advance(before, row))
  {
    var counters := front + [o];
    assert counters[..|counters| - 1] == front;
    forall series: Series ensures CursorFor(Advance(before, row), series) == Standing(cursors, counters, series) {
      assert CursorFor(before, series) == Standing(cursors, front, series);
    }
  }

  /** The rows of a batch that is recorded. */
  lemma {:induction false} RowsTell(cursors: Cursors, counters: seq<CounterObservation>)
    requires RecordAll(cursors, counters).Done?
    ensures AllTell(cursors, counters, RecordAll(cursors, counters).value.rows)
    ensures Stand(cursors, counters, RecordAll(cursors, counters).value.cursors)
  {
    if counters == [] {
    } else {
      var front, last := counters[..|counters| - 1], counters[|counters| - 1];
      assert counters == front + [last];
      RecordOneMore(cursors, front, last);
      RowsTell(cursors, front);
      var before := RecordAll(cursors, front).value;
      hide RecordAll, AllTell, Standing, Acceptable, Tells, Derive;
      DeriveTells(before.cursors, last);
      var row := Derive(before.cursors, last).value;
      assert CursorFor(before.cursors, last.series) == Standing(cursors, front, last.series);
      OneMoreTells(cursors, front, last, before.rows, row);
      RowKeepsReading(Standing(cursors, front, last.series), last, row);
      OneMoreStands(cursors, front, last, before.cursors, row);
    }
  }

  lemma RowKeepsReading(prior: Option<Cursor>, o: CounterObservation, row: Row)
    requires Tells(prior, o, row)
    ensures row.series == o.series && row.raw == o.value && row.resetId == o.resetId && row.at == o.at
  {
  }

  /** A batch is refused for its first unacceptable reading. */
  lemma {:induction false} RefusedReading(cursors: Cursors, counters: seq<CounterObservation>) returns (i: nat)
    requires RecordAll(cursors, counters).Abort?
    ensures i < |counters| && !Acceptable(PriorOf(cursors, counters, i), counters[i])
    ensures RecordAll(cursors, counters[..i]).Done?
    ensures RecordAll(cursors, counters).error ==
            if counters[i].at < PriorOf(cursors, counters, i).value.at then NotTimeOrdered else ConflictingTimestamp
  {
    var front, last := counters[..|counters| - 1], counters[|counters| - 1];
    assert counters == front + [last];
    RecordOneMore(cursors, front, last);
    if RecordAll(cursors, front).Abort? {
      i := RefusedReading(cursors, front);
      assert front[..i] == counters[..i];
    } else {
      i := |front|;
      RowsTell(cursors, front);
      var before := RecordAll(cursors, front).value;
      DeriveTells(before.cursors, last);
      assert CursorFor(before.cursors, last.series) == Standing(cursors, front, last.series);
    }
  }

  /** The whole counter half of a batch: committed if and only if every reading is acceptable after
      those before it, and then every row and every reply tells it apart correctly. */
  lemma BatchTells(t: Tables, batch: Batch)
    ensures Commit(t, batch).Done? <==>
            forall i | 0 <= i < |batch.counters| ::
              Acceptable(PriorOf(t.cursors, batch.counters, i), batch.counters[i])
    ensures Commit(t, batch).Done? ==>
              var committed := Commit(t, batch).value;
              && committed.tables.gauges == t.gauges + batch.gauges
              && committed.tables.health == t.health + batch.health
              && committed.tables.rollups == t.rollups
              && |committed.tables.rows| == |t.rows| + |batch.counters|
              && committed.tables.rows[..|t.rows|] == t.rows
              && |committed.results| == |batch.counters|
              && Stand(t.cursors, batch.counters, committed.tables.cursors)
              && (forall i | 0 <= i < |batch.counters| ::
                    Tells(PriorOf(t.cursors, batch.counters, i), batch.counters[i],
                          committed.tables.rows[|t.rows| + i]))
              && (forall i | 0 <= i < |batch.counters| ::
                    Replies(PriorOf(t.cursors, batch.counters, i), batch.counters[i], committed.results[i]))
  {
    hide Standing, Acceptable, Tells, RecordAll, Derive, Stand;
    if RecordAll(t.cursors, batch.counters).Done? {
      RowsTell(t.cursors, batch.counters);
      var rows := RecordAll(t.cursors, batch.counters).value.rows;
      var committed := Commit(t, batch).value;
      assert committed.tables.rows == t.rows + rows;
      forall i | 0 <= i < |batch.counters|
        ensures Replies(PriorOf(t.cursors, batch.counters, i), batch.counters[i], committed.results[i])
      {
        ReplyTells(PriorOf(t.cursors, batch.counters, i), batch.counters[i], rows[i]);
      }
    } else {
      var i := RefusedReading(t.cursors, batch.counters);
    }
  }

  lemma ReplyTells(prior: Option<Cursor>, o: CounterObservation, row: Row)
    requires Tells(prior, o, row)
    ensures Replies(prior, o, ResultOf(row))
  {
  }

  // ---------- a whole history ----------

  /** The row is the last one of its counter. */
  predicate IsLastOf(rows: seq<Row>, series: Series, j: nat)
    requires j < |rows|
  {
    rows[j].series == series && forall k | j < k < |rows| :: rows[k].series != series
  }

  predicate NoneOf(rows: seq<Row>, series: Series) {
    forall j | 0 <= j < |rows| :: rows[j].series != series
  }

  lemma NoneOfSnoc(front: seq<Row>, row: Row, series: Series)
    ensures NoneOf(front + [row], series) <==> NoneOf(front, series) && row.series != series
  {
    assert forall j | 0 <= j < |front| :: (front + [row])[j] == front[j];
    assert (front + [row])[|front|] == row;
  }

  lemma {:induction false} NoRowNoCursor(rows: seq<Row>, series: Series)
    ensures series !in CursorsOf(rows) <==> NoneOf(rows, series)
  {
    if rows == [] {
    } else {
      var front, row := rows[..|rows| - 1], rows[|rows| - 1];
      NoRowNoCursor(front, series);
      NoneOfSnoc(front, row, series);
      hide NoneOf;
      assert rows == front + [row];
    }
  }

  lemma {:induction false} CursorIsLastRow(rows: seq<Row>, series: Series, j: nat)
    requires j < |rows| && IsLastOf(rows, series, j)
    ensures series in CursorsOf(rows) && CursorsOf(rows)[series] == CursorAt(rows[j])
  {
    if j < |rows| - 1 {
      var front := rows[..|rows| - 1];
      assert forall k | j < k < |front| :: front[k] == rows[k];
      CursorIsLastRow(front, series, j);
    }
  }

  lemma {:induction false} GenuineStep(rows: seq<Row>, i: nat)
    requires Genuine(rows) && i < |rows|
    ensures Derive(CursorsOf(rows[..i]), ObservationOf(rows[i])) == Done(rows[i])
  {
    if i < |rows| - 1 {
      GenuineStep(rows[..|rows| - 1], i);
      assert rows[..|rows| - 1][..i] == rows[..i];
    }
  }

  /** In every history a row is a baseline exactly when it is the first of its counter; any other row is
      compared with the row of its counter before it, is a reset exactly when the counter started over
      from there, and otherwise adds the difference. */
  lemma RowTells(events: seq<Event>, i: nat)
    requires i < |Unpruned(events).rows|
    ensures var rows := Unpruned(events).rows;
            && (rows[i].isBaseline <==> forall j | 0 <= j < i :: rows[j].series != rows[i].series)
            && (rows[i].isBaseline ==> !rows[i].isReset && rows[i].delta == 0)
    ensures var rows := Unpruned(events).rows;
            forall j | 0 <= j < i && IsLastOf(rows[..i], rows[i].series, j) ::
              && (rows[i].isReset <==> rows[i].resetId != rows[j].resetId || rows[i].raw < rows[j].raw)
              && rows[i].delta == if rows[i].isReset then 0 else rows[i].raw - rows[j].raw
  {
    var rows := Unpruned(events).rows;
    HistoryIsGenuine(events);
    GenuineStep(rows, i);
    NoRowNoCursor(rows[..i], rows[i].series);
    DeriveTells(CursorsOf(rows[..i]), ObservationOf(rows[i]));
    hide Unpruned, CursorsOf, Derive, Genuine;
    assert forall j | 0 <= j < i :: rows[..i][j] == rows[j];
    forall j | 0 <= j < i && IsLastOf(rows[..i], rows[i].series, j)
      ensures rows[i].isReset <==> rows[i].resetId != rows[j].resetId || rows[i].raw < rows[j].raw
      ensures rows[i].delta == if rows[i].isReset then 0 else rows[i].raw - rows[j].raw
    {
      CursorIsLastRow(rows[..i], rows[i].series, j);
    }
  }

  // ---------- resets of a whole history ----------

  function ResetCount(rows: seq<Row>): nat {
    if rows == [] then 0 else ResetCount(rows[..|rows| - 1]) + if rows[|rows| - 1].isReset then 1 else 0
  }

  function BaselineCount(rows: seq<Row>): nat {
    if rows == [] then 0 else BaselineCount(rows[..|rows| - 1]) + if rows[|rows| - 1].isBaseline then 1 else 0
  }

  /** A counter has one baseline, and a reset for every other stretch in which it never starts over. */
  lemma {:induction false} ResetsAreSegments(rows: seq<Row>, series: Series)
    requires Genuine(rows)
    ensures var trail := Trail(rows, series);
            && BaselineCount(trail) == (if trail == [] then 0 else 1)
            && |Segments(trail)| == BaselineCount(trail) + ResetCount(trail)
  {
    if rows == [] {
    } else {
      var front, row := rows[..|rows| - 1], rows[|rows| - 1];
      ResetsAreSegments(front, series);
      if row.series == series {
        NextOfTrail(rows, series);
        OneMoreOfTrail(Trail(front, series), row);
        hide Trail, Genuine;
      } else {
        assert Trail(rows, series) == Trail(front, series);
      }
    }
  }

  lemma NextOfTrail(rows: seq<Row>, series: Series)
    requires rows != [] && Genuine(rows) && rows[|rows| - 1].series == series
    ensures var before, row := Trail(rows[..|rows| - 1], series), rows[|rows| - 1];
            && Trail(rows, series) == before + [row]
            && (row.isBaseline <==> before == [])
            && (row.isReset <==> before != [] && StartsOver(before[|before| - 1], row))
  {
    var front, row := rows[..|rows| - 1], rows[|rows| - 1];
    CursorIsEndOfTrail(front, series);
    DeriveTells(CursorsOf(front), ObservationOf(row));
  }

  lemma OneMoreOfTrail(before: seq<Row>, row: Row)
    requires row.isBaseline <==> before == []
    requires row.isReset <==> before != [] && StartsOver(before[|before| - 1], row)
    ensures BaselineCount(before + [row]) == BaselineCount(before) + if before == [] then 1 else 0
    ensures ResetCount(before + [row]) == ResetCount(before) + if row.isReset then 1 else 0
    ensures |Segments(before + [row])| == |Segments(before)| + if row.isReset || row.isBaseline then 1 else 0
  {
    assert (before + [row])[..|before + [row]| - 1] == before;
  }

  function ResetsOf(slot: Slot): int {
    if slot.Some? then slot.value.resets else 0
  }

  lemma {:induction false} TrailResets(rows: seq<Row>, series: Series, hours: nat)
    requires forall i | 0 <= i < |rows| :: BucketStart(rows[i].at) < hours * 3600
    ensures ResetsOf(CounterTally(rows, series, hours)) == ResetCount(Trail(rows, series))
  {
    if rows == [] {
    } else {
      var front, row := rows[..|rows| - 1], rows[|rows| - 1];
      TrailResets(front, series, hours);
      if row.series == series {
        assert Trail(rows, series)[..|Trail(rows, series)| - 1] == Trail(front, series);
      } else {
        assert Trail(rows, series) == Trail(front, series);
      }
    }
  }

  lemma ResetsAdd(a: Slot, b: Slot, c: Slot)
    ensures ResetsOf(Plus(Plus(a, b), c)) == ResetsOf(a) + ResetsOf(b) + ResetsOf(c)
  {
  }

  /** How many stretches follow the first one. */
  function LaterStretches(trail: seq<Row>): int {
    if trail == [] then 0 else |Segments(trail)| - 1
  }

  /** A pruned database counts them right: resets raw, rolled up and expired are the stretches of the
      counter after its first. */
  lemma RunResets(events: seq<Event>, series: Series, hours: nat)
    requires forall i | 0 <= i < |Unpruned(events).rows| :: BucketStart(Unpruned(events).rows[i].at) < hours * 3600
    ensures ResetsOf(CounterTally(Run(events).rows, series, hours))
            + ResetsOf(RolledUp(Run(events).rollups, series, hours))
            + ResetsOf(ExpiredHours(events, series, hours))
         == LaterStretches(Trail(Unpruned(events).rows, series))
  {
    hide Segments, Trail, RolledUp, ExpiredHours, CounterTally, Plus, ResetsOf, Genuine, Unpruned, Run;
    CounterConservation(events, series, hours);
    ResetsAdd(CounterTally(Run(events).rows, series, hours), RolledUp(Run(events).rollups, series, hours),
              ExpiredHours(events, series, hours));
    HistoryIsGenuine(events);
    ResetsAreSegments(Unpruned(events).rows, series);
    TrailResets(Unpruned(events).rows, series, hours);
  }
}
