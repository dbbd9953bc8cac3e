/** Nothing is lost silently: per bucket and per counter, what is stored raw, what is
    rolled up and what was declared expired add up to everything ever recorded. */
module Conservation {
  import opened Models
  import opened Ledger
  import opened Retention
  import opened Schedule

  /** What one pass throws away of one bucket: raw rows past the rollup window, and the bucket
      itself when it starts before the boundary hour. */
  function ExpiredBy(t: Tables, now: real, days: Days, key: BucketKey): Slot {
    var rollup := RollupCutoff(now, days);
    Plus(Tally(t.rows, key, key.start as real, rollup),
         if key.start < HourFloor(rollup) then Lookup(Merge(t.rollups, t.rows, rollup, RawCutoff(now, days)), key)
         else None)
  }

  /** What the passes of a run threw away of one bucket. */
  function Expired(events: seq<Event>, key: BucketKey): Slot {
    if events == [] then
      None
    else
      var front, last := events[..|events| - 1], events[|events| - 1];
      Plus(Expired(front, key), if last.Retain? then ExpiredBy(Run(front), last.now, last.days, key) else None)
  }

  lemma Swap(a: Slot, b: Slot, c: Slot)
    ensures Plus(Plus(a, b), c) == Plus(Plus(a, c), b)
    ensures Plus(a, b) == Plus(b, a)
  {
  }

  /** The bucket is kept: its old rows go, its compacted rows join what was rolled up. */
  lemma KeptBucket(rolled: Slot, stale: Slot, moved: Slot, young: Slot)
    ensures Plus(Plus(young, Plus(rolled, moved)), stale) == Plus(Plus(Plus(stale, moved), young), rolled)
  {
    Swap(young, Plus(rolled, moved), stale);
    Swap(young, stale, Plus(rolled, moved));
    PlusAssociative(Plus(stale, young), moved, rolled);
    Swap(rolled, moved, None);
    Swap(stale, young, moved);
  }

  /** The bucket is dropped: all but its young rows go. */
  lemma DroppedBucket(rolled: Slot, stale: Slot, moved: Slot, young: Slot)
    ensures Plus(young, Plus(stale, Plus(rolled, moved))) == Plus(Plus(Plus(stale, moved), young), rolled)
  {
    KeptBucket(rolled, stale, moved, young);
    PlusAssociative(young, Plus(rolled, moved), stale);
    Swap(stale, Plus(rolled, moved), None);
  }

  /** A pass splits a bucket's rows three ways: past the rollup window, compacted, still raw. */
  lemma ThreeWays(rows: seq<Row>, key: BucketKey, rollup: real, raw: real)
    requires rollup <= raw
    ensures Whole(rows, key) == Plus(Plus(Tally(rows, key, key.start as real, rollup), Tally(rows, key, rollup, raw)),
                                     Tally(rows, key, if key.start as real < raw then raw else key.start as real,
                                           (key.start + 3600) as real))
  {
    hide Tally, Plus;
    var start, end := key.start as real, (key.start + 3600) as real;
    var low, high := if start < rollup then start else rollup, if raw < end then end else raw;
    TallyClip(rows, key, start, end, low, high);
    TallySplit(rows, key, low, raw, high);
    TallySplit(rows, key, low, rollup, raw);
    TallyClip(rows, key, low, rollup, start, rollup);
    TallyClip(rows, key, raw, high, if start < raw then raw else start, end);
  }

  lemma PassConserves(t: Tables, now: real, days: Days, key: BucketKey, gone: Slot)
    ensures Plus(Plus(Whole(Retained(t, now, days).rows, key), Lookup(Retained(t, now, days).rollups, key)),
                 Plus(gone, ExpiredBy(t, now, days, key)))
         == Plus(Plus(Whole(t.rows, key), Lookup(t.rollups, key)), gone)
  {
    var raw, rollup := RawCutoff(now, days), RollupCutoff(now, days);
    ThreeWays(t.rows, key, rollup, raw);
    TallySince(t.rows, key, raw, key.start as real, (key.start + 3600) as real);
    RetainedLookup(t, now, days, key);
    MergeLookup(t.rollups, t.rows, rollup, raw, key);
    var rolled, stale := Lookup(t.rollups, key), Tally(t.rows, key, key.start as real, rollup);
    var moved, young := Tally(t.rows, key, rollup, raw), Whole(Since(t.rows, RowTime, raw), key);
    KeptBucket(rolled, stale, moved, young);
    DroppedBucket(rolled, stale, moved, young);
    Swap(gone, ExpiredBy(t, now, days, key), None);
    PlusAssociative(Plus(Whole(Retained(t, now, days).rows, key), Lookup(Retained(t, now, days).rollups, key)),
        ExpiredBy(t, now, days, key), gone);
  }

  lemma Carry(raw: Slot, rolled: Slot, gone: Slot, added: Slot)
    ensures Plus(Plus(Plus(raw, added), rolled), gone) == Plus(Plus(Plus(raw, rolled), gone), added)
  {
  }

  lemma BatchConserves(t: Tables, u: Tables, batch: Batch, key: BucketKey, gone: Slot)
    requires t.cursors == u.cursors
    requires Plus(Plus(Whole(t.rows, key), Lookup(t.rollups, key)), gone) == Whole(u.rows, key)
    ensures Plus(Plus(Whole(Apply(t, Record(batch)).rows, key), Lookup(Apply(t, Record(batch)).rollups, key)), gone)
         == Whole(Apply(u, Record(batch)).rows, key)
  {
    hide Tally, Apply, Plus, Lookup;
    var added := RecordTally(t, u, batch, key, key.start as real, (key.start + 3600) as real);
    Carry(Whole(t.rows, key), Lookup(t.rollups, key), gone, added);
  }

  /** Conservation of one bucket over a whole run, in traffic, in resets and in existence. */
  lemma {:induction false} BucketConservation(events: seq<Event>, key: BucketKey)
    ensures Plus(Plus(Whole(Run(events).rows, key), Lookup(Run(events).rollups, key)), Expired(events, key))
         == Whole(Unpruned(events).rows, key)
  {
    if events == [] {
    } else {
      var front, last := events[..|events| - 1], events[|events| - 1];
      BucketConservation(front, key);
      UnprunedStep(events);
      if last.Record? {
        SameCursors(front);
        assert Expired(events, key) == Plus(Expired(front, key), None);
        BatchConserves(Run(front), Unpruned(front), last.batch, key, Expired(front, key));
      } else {
        assert Expired(events, key) == Plus(Expired(front, key), ExpiredBy(Run(front), last.now, last.days, key));
        PassConserves(Run(front), last.now, last.days, key, Expired(front, key));
      }
    }
  }

  /** Only buckets that start before some rollup cutoff ever lose anything. */
  lemma {:induction false} ExpiredOnlyWhenOld(events: seq<Event>, key: BucketKey)
    requires RollupCutoffsAtMost(events, key.start as real)
    ensures Expired(events, key) == None
  {
    if events == [] {
    } else {
      var front, last := events[..|events| - 1], events[|events| - 1];
      ExpiredOnlyWhenOld(front, key);
      if last.Retain? {
        EmptyWindow(Run(front).rows, key, key.start as real, RollupCutoff(last.now, last.days));
        HourBounds(RollupCutoff(last.now, last.days));
      }
    }
  }

  // ---------- totals of one counter ----------

  /** The rows of one counter in the first `hours` hours since the epoch. */
  function CounterTally(rows: seq<Row>, series: Series, hours: nat): Slot {
    if rows == [] then
      None
    else
      var row := rows[|rows| - 1];
      Plus(CounterTally(rows[..|rows| - 1], series, hours),
           if row.series == series && BucketStart(row.at) < hours * 3600 then Some(Contribution(row)) else None)
  }

  /** Its rollup buckets in the first `hours` hours since the epoch. */
  function RolledUp(rollups: Rollups, series: Series, hours: nat): Slot {
    if hours == 0 then None
    else Plus(RolledUp(rollups, series, hours - 1), Lookup(rollups, BucketKey((hours - 1) * 3600, series)))
  }

  /** What the run expired of it in those hours. */
  function ExpiredHours(events: seq<Event>, series: Series, hours: nat): Slot {
    if hours == 0 then None
    else Plus(ExpiredHours(events, series, hours - 1), Expired(events, BucketKey((hours - 1) * 3600, series)))
  }

  lemma {:induction false} NothingBeforeEpoch(rows: seq<Row>, series: Series)
    ensures CounterTally(rows, series, 0) == None
  {
    if rows == [] {
    } else {
      NothingBeforeEpoch(rows[..|rows| - 1], series);
      HourBounds(rows[|rows| - 1].at);
    }
  }

  /** A row is in one more hour, or in the hours before it. */
  lemma RowInHour(row: Row, key: BucketKey)
    requires key.start % 3600 == 0
    ensures Falls(row, key, key.start as real, (key.start + 3600) as real)
            <==> row.series == key.series && BucketStart(row.at) == key.start
    ensures BucketStart(row.at) < key.start + 3600 <==> BucketStart(row.at) <= key.start
  {
    HourBounds(row.at);
  }

  lemma {:induction false} NextHourTally(rows: seq<Row>, series: Series, hours: nat)
    ensures CounterTally(rows, series, hours + 1)
         == Plus(CounterTally(rows, series, hours), Whole(rows, BucketKey(hours * 3600, series)))
  {
    if rows == [] {
    } else {
      var front, row, key := rows[..|rows| - 1], rows[|rows| - 1], BucketKey(hours * 3600, series);
      NextHourTally(front, series, hours);
      RowInHour(row, key);
      Swap(CounterTally(front, series, hours), Some(Contribution(row)), Whole(front, key));
      PlusAssociative(CounterTally(front, series, hours), Whole(front, key), Some(Contribution(row)));
    }
  }

  lemma Interchange(a: Slot, b: Slot, c: Slot, a': Slot, b': Slot, c': Slot)
    ensures Plus(Plus(Plus(a, a'), Plus(b, b')), Plus(c, c')) == Plus(Plus(Plus(a, b), c), Plus(Plus(a', b'), c'))
  {
    Regroup(a, a', b, b');
    Regroup(Plus(a, b), Plus(a', b'), c, c');
  }

  lemma Regroup(a: Slot, a': Slot, b: Slot, b': Slot)
    ensures Plus(Plus(a, a'), Plus(b, b')) == Plus(Plus(a, b), Plus(a', b'))
  {
    PlusAssociative(Plus(a, a'), b, b');
    Swap(a, a', b);
    PlusAssociative(Plus(a, b), a', b');
  }

  /** Conservation of one counter: up to any hour, raw + rolled up + expired is all that was emitted. */
  lemma {:induction false} CounterConservation(events: seq<Event>, series: Series, hours: nat)
    ensures Plus(Plus(CounterTally(Run(events).rows, series, hours),
                      RolledUp(Run(events).rollups, series, hours)),
                 ExpiredHours(events, series, hours))
         == CounterTally(Unpruned(events).rows, series, hours)
  {
    var t, u := Run(events), Unpruned(events);
    if hours == 0 {
      NothingBeforeEpoch(t.rows, series);
      NothingBeforeEpoch(u.rows, series);
    } else {
      var before, key := hours - 1, BucketKey((hours - 1) * 3600, series);
      CounterConservation(events, series, before);
      BucketConservation(events, key);
      NextHourTally(t.rows, series, before);
      NextHourTally(u.rows, series, before);
      Interchange(CounterTally(t.rows, series, before), RolledUp(t.rollups, series, before),
          ExpiredHours(events, series, before),
                  Whole(t.rows, key), Lookup(t.rollups, key), Expired(events, key));
    }
  }

  // ---------- one pass, twice ----------

  /** How many rows a pass compacts. */
  function Compactable(rows: seq<Row>, from: real, until: real): nat {
    if rows == [] then 0
    else Compactable(rows[..|rows| - 1], from, until) + if from <= rows[|rows| - 1].at < until then 1 else 0
  }

  lemma {:induction false} NothingOldLeft(rows: seq<Row>, from: real, cutoff: real)
    ensures Compactable(Since(rows, RowTime, cutoff), from, cutoff) == 0
  {
    if rows == [] {
    } else {
      var front, last := rows[..|rows| - 1], rows[|rows| - 1];
      NothingOldLeft(front, from, cutoff);
      var kept := Since(rows, RowTime, cutoff);
      if last.at >= cutoff {
        assert kept[..|kept| - 1] == Since(front, RowTime, cutoff);
      } else {
        assert kept == Since(front, RowTime, cutoff);
      }
    }
  }

  /** Rerunning a pass with the same arguments changes nothing and compacts nothing. */
  lemma PassIsIdempotent(t: Tables, now: real, days: Days)
    ensures Retained(Retained(t, now, days), now, days) == Retained(t, now, days)
    ensures Compactable(Retained(t, now, days).rows, RollupCutoff(now, days), RawCutoff(now, days)) == 0
  {
    var raw, rollup, once := RawCutoff(now, days), RollupCutoff(now, days), Retained(t, now, days);
    SinceTwice(t.rows, RowTime, raw, raw);
    SinceTwice(t.gauges, GaugeTime, raw, raw);
    SinceTwice(t.health, HealthTime, raw, raw);
    NothingOldLeft(t.rows, rollup, raw);
    forall key: BucketKey ensures Lookup(Retained(once, now, days).rollups, key) == Lookup(once.rollups, key) {
      RetainedLookup(once, now, days, key);
      RetainedLookup(t, now, days, key);
      TallySince(t.rows, key, raw, rollup, raw);
      EmptyWindow(t.rows, key, raw, raw);
    }
    SameLookups(Retained(once, now, days).rollups, once.rollups);
  }

  lemma {:induction false} TallyCovers(rows: seq<Row>, i: nat, from: real, until: real)
    requires i < |rows| && from <= rows[i].at < until
    ensures AtMost(Some(Contribution(rows[i])), Tally(rows, KeyOf(rows[i]), from, until))
  {
    if i < |rows| - 1 {
      TallyCovers(rows[..|rows| - 1], i, from, until);
    }
  }

  /** A row compacted by a pass is in the rollup table after that same pass. */
  lemma CompactedRowSurvives(t: Tables, now: real, days: Days, i: nat)
    requires i < |t.rows| && RollupCutoff(now, days) <= t.rows[i].at < RawCutoff(now, days)
    ensures AtMost(Some(Contribution(t.rows[i])), Lookup(Retained(t, now, days).rollups, KeyOf(t.rows[i])))
  {
    var row := t.rows[i];
    RetainedLookup(t, now, days, KeyOf(row));
    TallyCovers(t.rows, i, RollupCutoff(now, days), RawCutoff(now, days));
    HourBounds(row.at);
    HourFloorMonotone(RollupCutoff(now, days), row.at);
    AddingIsMonotone(Lookup(t.rollups, KeyOf(row)), None,
        Tally(t.rows, KeyOf(row), RollupCutoff(now, days), RawCutoff(now, days)), None);
  }
}
