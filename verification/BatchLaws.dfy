/** How batches compose, and what each counter sees of a batch. */
module BatchLaws {
  import opened Models
  import opened Ledger
  import opened History

  lemma {:induction false} RecordConcat(cursors: Cursors, a: seq<CounterObservation>, b: seq<CounterObservation>)
    ensures RecordAll(cursors, a + b) ==
            match RecordAll(cursors, a)
            case Abort(error) => Abort(error)
            case Done(first) =>
              match RecordAll(first.cursors, b)
              case Abort(error) => Abort(error)
              case Done(second) => Done(Recorded(first.rows + second.rows, second.cursors))
  {
    if b == [] {
      assert a + b == a;
      if RecordAll(cursors, a).Done? {
        assert RecordAll(cursors, a).value.rows + [] == RecordAll(cursors, a).value.rows;
      }
    } else {
      var front, last := b[..|b| - 1], b[|b| - 1];
      assert (a + b)[..|a + b| - 1] == a + front;
      assert (a + b)[|a + b| - 1] == last;
      RecordConcat(cursors, a, front);
      if RecordAll(cursors, a).Done? && RecordAll(RecordAll(cursors, a).value.cursors, front).Done? {
        var first := RecordAll(cursors, a).value;
        var before := RecordAll(first.cursors, front).value;
        match Derive(before.cursors, last)
        case Abort(_) =>
        case Done(row) => assert (first.rows + before.rows) + [row] == first.rows + (before.rows + [row]);
      }
    }
  }

  function Join(a: Batch, b: Batch): Batch {
    Batch(a.gauges + b.gauges, a.counters + b.counters, a.health + b.health)
  }

  lemma ResultsConcat(a: seq<Row>, b: seq<Row>)
    ensures Results(a + b) == Results(a) + Results(b)
  {
  }

  /** One batch commits exactly when its halves commit one after the other, with the same outcome. */
  lemma BatchSplits(t: Tables, a: Batch, b: Batch)
    ensures Commit(t, Join(a, b)) ==
            match Commit(t, a)
            case Abort(error) => Abort(error)
            case Done(first) =>
              match Commit(first.tables, b)
              case Abort(error) => Abort(error)
              case Done(second) => Done(Committed(second.tables, first.results + second.results))
  {
    hide RecordAll;
    RecordConcat(t.cursors, a.counters, b.counters);
    if Commit(t, a).Done? && Commit(Commit(t, a).value.tables, b).Done? {
      var first := RecordAll(t.cursors, a.counters).value;
      var second := RecordAll(first.cursors, b.counters).value;
      ResultsConcat(first.rows, second.rows);
      assert t.rows + (first.rows + second.rows) == (t.rows + first.rows) + second.rows;
      assert t.gauges + (a.gauges + b.gauges) == (t.gauges + a.gauges) + b.gauges;
      assert t.health + (a.health + b.health) == (t.health + a.health) + b.health;
    }
  }

  /** The observations of one counter. */
  function Only(counters: seq<CounterObservation>, series: Series): seq<CounterObservation> {
    if counters == [] then
      []
    else
      Only(counters[..|counters| - 1], series)
          + if counters[|counters| - 1].series == series then [counters[|counters| - 1]] else []
  }

  predicate AgreeOn(a: Cursors, b: Cursors, series: Series) {
    (series in a <==> series in b) && (series in a ==> a[series] == b[series])
  }

  lemma OnlySnoc(counters: seq<CounterObservation>, series: Series)
    requires counters != [] && counters[|counters| - 1].series == series
    ensures Only(counters, series) != []
    ensures Only(counters, series)[..|Only(counters, series)| - 1] == Only(counters[..|counters| - 1], series)
    ensures Only(counters, series)[|Only(counters, series)| - 1] == counters[|counters| - 1]
  {
  }

  lemma TrailSnoc(rows: seq<Row>, row: Row, series: Series)
    ensures Trail(rows + [row], series) == Trail(rows, series) + if row.series == series then [row] else []
  {
    assert (rows + [row])[..|rows + [row]| - 1] == rows;
  }

  /** Recording an observation looks at the cursor of its own counter only. */
  lemma DeriveIsLocal(a: Cursors, b: Cursors, o: CounterObservation)
    requires AgreeOn(a, b, o.series)
    ensures Derive(a, o) == Derive(b, o)
  {
  }

  lemma AdvanceIsLocal(a: Cursors, b: Cursors, row: Row, series: Series)
    requires AgreeOn(a, b, series)
    ensures AgreeOn(Advance(a, row), Advance(b, row), series)
    ensures row.series != series ==> AgreeOn(a, Advance(b, row), series)
  {
  }

  /** One more observation, in the whole batch and in the part of one counter. */
  lemma AloneStep(whole: Recorded, alone: Recorded, o: CounterObservation, row: Row, series: Series)
    requires alone.rows == Trail(whole.rows, series) && AgreeOn(alone.cursors, whole.cursors, series)
    requires Derive(whole.cursors, o) == Done(row)
    ensures o.series == series ==>
              && Derive(alone.cursors, o) == Done(row)
              && alone.rows + [row] == Trail(whole.rows + [row], series)
              && AgreeOn(Advance(alone.cursors, row), Advance(whole.cursors, row), series)
    ensures o.series != series ==>
              && alone.rows == Trail(whole.rows + [row], series)
              && AgreeOn(alone.cursors, Advance(whole.cursors, row), series)
  {
    TrailSnoc(whole.rows, row, series);
    AdvanceIsLocal(alone.cursors, whole.cursors, row, series);
    assert row.series == o.series;
    hide Derive, Advance, Trail;
    if o.series == series {
      DeriveIsLocal(alone.cursors, whole.cursors, o);
    }
  }

  predicate SameAlone(whole: Outcome<Recorded>, alone: Outcome<Recorded>, series: Series) {
    whole.Done? ==>
      && alone.Done? && alone.value.rows == Trail(whole.value.rows, series)
      && AgreeOn(alone.value.cursors, whole.value.cursors, series)
  }

  /** A committed batch treats each counter as if it had come alone. */
  lemma {:induction false} CounterAlone(cursors: Cursors, counters: seq<CounterObservation>, series: Series)
    ensures SameAlone(RecordAll(cursors, counters), RecordAll(cursors, Only(counters, series)), series)
  {
    if counters == [] {
    } else {
      var front, last := counters[..|counters| - 1], counters[|counters| - 1];
      assert counters == front + [last];
      RecordOneMore(cursors, front, last);
      CounterAlone(cursors, front, series);
      if RecordAll(cursors, counters).Done? {
        var whole, alone := RecordAll(cursors, front).value, RecordAll(cursors, Only(front, series)).value;
        AloneStep(whole, alone, last, Derive(whole.cursors, last).value, series);
        if last.series == series {
          OnlySnoc(counters, series);
          assert Only(counters, series) == Only(front, series) + [last];
          RecordOneMore(cursors, Only(front, series), last);
        } else {
          assert Only(counters, series) == Only(front, series);
        }
      }
    }
  }

  /** A refused batch is refused because of one counter, which alone would be refused the same way. */
  lemma {:induction false} SomeCounterRefuses(cursors: Cursors, counters: seq<CounterObservation>)
    returns (series: Series)
    requires RecordAll(cursors, counters).Abort?
    ensures RecordAll(cursors, Only(counters, series)) == RecordAll(cursors, counters)
  {
    var front, last := counters[..|counters| - 1], counters[|counters| - 1];
    if RecordAll(cursors, front).Abort? {
      series := SomeCounterRefuses(cursors, front);
      if last.series == series {
        OnlySnoc(counters, series);
      } else {
        assert Only(counters, series) == Only(front, series);
      }
    } else {
      series := last.series;
      CounterAlone(cursors, front, series);
      OnlySnoc(counters, series);
    }
  }

  /** A batch commits exactly when the part of every single counter commits. */
  lemma CommitsIffEveryCounterDoes(cursors: Cursors, counters: seq<CounterObservation>)
    ensures RecordAll(cursors, counters).Done?
            <==> forall series: Series :: RecordAll(cursors, Only(counters, series)).Done?
  {
    if RecordAll(cursors, counters).Done? {
      forall series: Series ensures RecordAll(cursors, Only(counters, series)).Done? {
        CounterAlone(cursors, counters, series);
      }
    } else {
      var series := SomeCounterRefuses(cursors, counters);
    }
  }

  /** A refusal is sticky: no continuation of the batch can save it. */
  lemma RefusedForGood(cursors: Cursors, a: seq<CounterObservation>, b: seq<CounterObservation>)
    requires RecordAll(cursors, a).Abort?
    ensures RecordAll(cursors, a + b) == RecordAll(cursors, a)
  {
    RecordConcat(cursors, a, b);
  }

  predicate DistinctCounters(counters: seq<CounterObservation>) {
    forall i, j | 0 <= i < j < |counters| :: counters[i].series != counters[j].series
  }

  predicate AllLater(cursors: Cursors, counters: seq<CounterObservation>) {
    forall i | 0 <= i < |counters| && counters[i].series in cursors :: counters[i].at > cursors[counters[i].series].at
  }

  predicate Names(counters: seq<CounterObservation>, series: Series) {
    exists i :: 0 <= i < |counters| && counters[i].series == series
  }

  /** Where the cursors stand after a batch that names no counter twice. */
  ghost predicate AdvancesExactly(before: Cursors, counters: seq<CounterObservation>, after: Cursors) {
    && (forall i | 0 <= i < |counters| ::
          AgreeOn(after, before[counters[i].series := Cursor(counters[i].resetId, counters[i].value, counters[i].at)],
              counters[i].series))
    && (forall series: Series | !Names(counters, series) :: AgreeOn(before, after, series))
  }

  lemma AdvanceOneMore(cursors: Cursors, counters: seq<CounterObservation>, before: Cursors, row: Row)
    requires counters != [] && DistinctCounters(counters)
    requires ObservationOf(row) == counters[|counters| - 1]
    requires AdvancesExactly(cursors, counters[..|counters| - 1], before)
    ensures AdvancesExactly(cursors, counters, Advance(before, row))
  {
    var front, after := counters[..|counters| - 1], Advance(before, row);
    forall i | 0 <= i < |counters|
      ensures AgreeOn(after, cursors[counters[i].series :=
                        Cursor(counters[i].resetId, counters[i].value, counters[i].at)], counters[i].series)
    {
      if i < |front| {
        assert front[i] == counters[i];
      }
    }
    forall series: Series | !Names(counters, series) ensures AgreeOn(cursors, after, series) {
      assert counters[|counters| - 1].series != series;
      forall i | 0 <= i < |front| ensures front[i].series != series {
        assert counters[i] == front[i];
      }
      assert !Names(front, series);
    }
  }

  /** A batch of distinct counters, each later than its cursor, cannot be refused. */
  lemma {:induction false} DistinctLaterBatchCommits(cursors: Cursors, counters: seq<CounterObservation>)
    requires DistinctCounters(counters) && AllLater(cursors, counters)
    ensures RecordAll(cursors, counters).Done?
    ensures AdvancesExactly(cursors, counters, RecordAll(cursors, counters).value.cursors)
  {
    if counters == [] {
    } else {
      var front, last := counters[..|counters| - 1], counters[|counters| - 1];
      assert DistinctCounters(front) && AllLater(cursors, front) by {
        assert forall i | 0 <= i < |front| :: counters[i] == front[i];
      }
      DistinctLaterBatchCommits(cursors, front);
      var before := RecordAll(cursors, front).value.cursors;
      assert !Names(front, last.series) by {
        assert forall i | 0 <= i < |front| :: counters[i] == front[i];
      }
      assert AgreeOn(cursors, before, last.series);
      assert Derive(before, last).Done?;
      AdvanceOneMore(cursors, counters, before, Derive(before, last).value);
    }
  }
}
