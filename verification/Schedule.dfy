/** Does it matter when retention ran? Compared with one single pass over the
    full history, any schedule leaves the same raw records and the same rollup
    buckets, except that the one bucket the rollup cutoff cuts through may hold more. */
module Schedule {
  import opened Models
  import opened Ledger
  import opened Retention

  predicate AtMost(a: Slot, b: Slot) {
    a.Some? ==> b.Some? && a.value.delta <= b.value.delta && a.value.resets <= b.value.resets
  }

  /** A start no rollup bucket can have: before 1970 or inside an hour. */
  predicate NoSuchHour(start: int) {
    start < 0 || start % 3600 != 0
  }

  lemma {:induction false} NothingFallsOutsideHours(rows: seq<Row>, key: BucketKey, from: real, until: real)
    requires NoSuchHour(key.start)
    ensures Tally(rows, key, from, until) == None
  {
    if rows == [] {
    } else {
      NothingFallsOutsideHours(rows[..|rows| - 1], key, from, until);
      HourBounds(rows[|rows| - 1].at);
    }
  }

  lemma {:induction false} NoBucketOutsideHours(events: seq<Event>, key: BucketKey)
    requires NoSuchHour(key.start)
    ensures Lookup(Run(events).rollups, key) == None
  {
    if events == [] {
    } else {
      var front := events[..|events| - 1];
      NoBucketOutsideHours(front, key);
      match events[|events| - 1]
      case Record(_) =>
      case Retain(now, days) =>
        RetainedLookup(Run(front), now, days, key);
        NothingFallsOutsideHours(Run(front).rows, key, RollupCutoff(now, days), RawCutoff(now, days));
    }
  }

  lemma HourFloorMonotone(a: real, b: real)
    requires a <= b
    ensures HourFloor(a) <= HourFloor(b)
  {
    HourBounds(a);
    HourBounds(b);
  }

  lemma AtMostTransitive(a: Slot, b: Slot, c: Slot)
    requires AtMost(a, b) && AtMost(b, c)
    ensures AtMost(a, c)
  {
  }

  lemma AddingIsMonotone(rolled: Slot, extra: Slot, kept: Slot, moved: Slot)
    ensures AtMost(Plus(rolled, Plus(moved, kept)), Plus(Plus(rolled, Plus(extra, moved)), kept))
    ensures AtMost(Plus(rolled, kept), Plus(Plus(rolled, extra), kept))
    ensures AtMost(rolled, Plus(rolled, extra))
    ensures AtMost(kept, Plus(rolled, kept))
  {
  }

  /** An earlier pass may add to the boundary bucket; it never takes from it. */
  lemma PassAddsToBoundary(t: Tables, now: real, days: Days, key: BucketKey, rollup: real, raw: real)
    requires RawCutoff(now, days) <= raw && RollupCutoff(now, days) <= rollup && HourFloor(rollup) <= key.start
    ensures AtMost(Plus(Lookup(t.rollups, key), Tally(t.rows, key, rollup, raw)),
                   Plus(Lookup(Retained(t, now, days).rollups, key),
                       Tally(Retained(t, now, days).rows, key, rollup, raw)))
  {
    var raw', rollup' := RawCutoff(now, days), RollupCutoff(now, days);
    HourFloorMonotone(rollup', rollup);
    RetainedLookup(t, now, days, key);
    TallySince(t.rows, key, raw', rollup, raw);
    var rolled := Lookup(t.rollups, key);
    if rollup < raw' {
      TallySplit(t.rows, key, rollup, raw', raw);
      TallySplit(t.rows, key, rollup', rollup, raw');
      AddingIsMonotone(rolled, Tally(t.rows, key, rollup', rollup), Tally(t.rows, key, raw', raw),
          Tally(t.rows, key, rollup, raw'));
    } else {
      AddingIsMonotone(rolled, Tally(t.rows, key, rollup', raw'), Tally(t.rows, key, rollup, raw), None);
    }
  }

  lemma StepIsMonotone(a: Slot, b: Slot, added: Slot)
    requires AtMost(a, b)
    ensures AtMost(Plus(a, added), Plus(b, added))
  {
  }

  lemma {:induction false} BoundaryAtLeast(events: seq<Event>, key: BucketKey, rollup: real, raw: real)
    requires RawCutoffsAtMost(events, raw) && RollupCutoffsAtMost(events, rollup)
    requires HourFloor(rollup) <= key.start
    ensures AtMost(Tally(Unpruned(events).rows, key, rollup, raw),
                   Plus(Lookup(Run(events).rollups, key), Tally(Run(events).rows, key, rollup, raw)))
  {
    if events == [] {
    } else {
      var front, last := events[..|events| - 1], events[|events| - 1];
      BoundaryAtLeast(front, key, rollup, raw);
      UnprunedStep(events);
      var t, u := Run(front), Unpruned(front);
      match last
      case Record(batch) =>
        SameCursors(front);
        var added := RecordTally(t, u, batch, key, rollup, raw);
        PlusAssociative(Lookup(t.rollups, key), Tally(t.rows, key, rollup, raw), added);
        StepIsMonotone(Tally(u.rows, key, rollup, raw), Plus(Lookup(t.rollups, key), Tally(t.rows, key, rollup, raw)),
            added);
      case Retain(now, days) =>
        PassAddsToBoundary(t, now, days, key, rollup, raw);
        var t' := Retained(t, now, days);
        AtMostTransitive(Tally(u.rows, key, rollup, raw),
                         Plus(Lookup(t.rollups, key), Tally(t.rows, key, rollup, raw)),
                         Plus(Lookup(t'.rollups, key), Tally(t'.rows, key, rollup, raw)));
    }
  }

  /** The earlier passes all used cutoffs no later than those of a final pass. */
  predicate FinalPass(events: seq<Event>, now: real, days: Days) {
    RawCutoffsAtMost(events, RawCutoff(now, days)) && RollupCutoffsAtMost(events, RollupCutoff(now, days))
  }

  /** Fixed day settings and a clock that never runs backwards make any next pass a final one. */
  lemma SteadyScheduleEndsInFinalPass(events: seq<Event>, now: real, days: Days)
    requires forall i | 0 <= i < |events| && events[i].Retain? :: events[i].days == days && events[i].now <= now
    ensures FinalPass(events, now, days)
  {
  }

  lemma LastEvent(events: seq<Event>, event: Event)
    ensures Run(events + [event]) == Apply(Run(events), event)
  {
    assert (events + [event])[..|events|] == events;
  }

  lemma LastPass(events: seq<Event>, now: real, days: Days)
    ensures Run(events + [Retain(now, days)]) == Retained(Run(events), now, days)
  {
    LastEvent(events, Retain(now, days));
    hide Run;
  }

  /** A bucket that the final pass keeps, in the pruned and in the unpruned database. */
  lemma KeptByBoth(events: seq<Event>, now: real, days: Days, key: BucketKey)
    requires FinalPass(events, now, days) && HourFloor(RollupCutoff(now, days)) <= key.start
    ensures Lookup(Retained(Run(events), now, days).rollups, key)
         == Plus(Lookup(Run(events).rollups, key),
             Tally(Run(events).rows, key, RollupCutoff(now, days), RawCutoff(now, days)))
    ensures Lookup(Retained(Unpruned(events), now, days).rollups, key)
         == Tally(Unpruned(events).rows, key, RollupCutoff(now, days), RawCutoff(now, days))
  {
    RetainedLookup(Run(events), now, days, key);
    RetainedLookup(Unpruned(events), now, days, key);
    UnprunedHasNoRollups(events);
  }

  lemma CompleteBucketOfSchedule(events: seq<Event>, now: real, days: Days, key: BucketKey)
    requires FinalPass(events, now, days) && RollupCutoff(now, days) <= key.start as real
    ensures Lookup(Retained(Run(events), now, days).rollups, key)
            == Lookup(Retained(Unpruned(events), now, days).rollups, key)
  {
    var raw, rollup, start := RawCutoff(now, days), RollupCutoff(now, days), key.start as real;
    HourBounds(rollup);
    KeptByBoth(events, now, days, key);
    BucketKept(events, key, raw);
    TallyClip(Run(events).rows, key, rollup, raw, start, raw);
    TallyClip(Unpruned(events).rows, key, rollup, raw, start, raw);
  }

  lemma ImpossibleBucketOfSchedule(events: seq<Event>, now: real, days: Days, key: BucketKey)
    requires NoSuchHour(key.start)
    ensures Lookup(Retained(Run(events), now, days).rollups, key)
            == Lookup(Retained(Unpruned(events), now, days).rollups, key) == None
  {
    RetainedLookup(Run(events), now, days, key);
    RetainedLookup(Unpruned(events), now, days, key);
    UnprunedHasNoRollups(events);
    NoBucketOutsideHours(events, key);
    NothingFallsOutsideHours(Run(events).rows, key, RollupCutoff(now, days), RawCutoff(now, days));
    NothingFallsOutsideHours(Unpruned(events).rows, key, RollupCutoff(now, days), RawCutoff(now, days));
  }

  lemma NextHour(start: int, cutoff: real)
    requires start % 3600 == 0 && start > HourFloor(cutoff)
    ensures cutoff <= start as real
  {
    HourBounds(cutoff);
    assert start >= HourFloor(cutoff) + 3600;
  }

  lemma BoundaryBucketOfSchedule(events: seq<Event>, now: real, days: Days, key: BucketKey)
    requires FinalPass(events, now, days) && HourFloor(RollupCutoff(now, days)) <= key.start
    ensures AtMost(Lookup(Retained(Unpruned(events), now, days).rollups, key),
            Lookup(Retained(Run(events), now, days).rollups, key))
  {
    KeptByBoth(events, now, days, key);
    BoundaryAtLeast(events, key, RollupCutoff(now, days), RawCutoff(now, days));
  }

  /** One bucket, many passes against one pass. */
  lemma BucketOfSchedule(events: seq<Event>, now: real, days: Days, key: BucketKey)
    requires FinalPass(events, now, days)
    ensures var many := Lookup(Retained(Run(events), now, days).rollups, key);
            var once := Lookup(Retained(Unpruned(events), now, days).rollups, key);
            var boundary := HourFloor(RollupCutoff(now, days));
            && (key.start < boundary ==> many == once == None)
            && (key.start == boundary ==> AtMost(once, many))
            && (key.start > boundary || RollupCutoff(now, days) <= key.start as real || NoSuchHour(key.start) ==>
               many == once)
  {
    if NoSuchHour(key.start) {
      ImpossibleBucketOfSchedule(events, now, days, key);
    } else if RollupCutoff(now, days) <= key.start as real {
      CompleteBucketOfSchedule(events, now, days, key);
      HourBounds(RollupCutoff(now, days));
      AddingIsMonotone(Lookup(Retained(Run(events), now, days).rollups, key), None, None, None);
    } else if HourFloor(RollupCutoff(now, days)) <= key.start {
      BoundaryBucketOfSchedule(events, now, days, key);
      if key.start > HourFloor(RollupCutoff(now, days)) {
        NextHour(key.start, RollupCutoff(now, days));
      }
    } else {
      RetainedLookup(Run(events), now, days, key);
      RetainedLookup(Unpruned(events), now, days, key);
    }
  }

  predicate HourAligned(cutoff: real) {
    HourFloor(cutoff) as real == cutoff
  }

  /** Compaction does not depend on its schedule. */
  lemma ScheduleIndependence(events: seq<Event>, now: real, days: Days)
    requires FinalPass(events, now, days)
    ensures var many := Run(events + [Retain(now, days)]);
            var once := Retained(Unpruned(events), now, days);
            var boundary := HourFloor(RollupCutoff(now, days));
            && many.rows == once.rows && many.gauges == once.gauges && many.health == once.health
            && many.cursors == once.cursors
            && (forall key: BucketKey :: key.start < boundary ==>
               Lookup(many.rollups, key) == Lookup(once.rollups, key) == None)
            && (forall key: BucketKey :: key.start == boundary ==>
               AtMost(Lookup(once.rollups, key), Lookup(many.rollups, key)))
            && (forall key: BucketKey :: key.start > boundary ==>
               Lookup(many.rollups, key) == Lookup(once.rollups, key))
            && (HourAligned(RollupCutoff(now, days)) || RollupCutoff(now, days) <= 0.0 ==> many == once)
  {
    LastEvent(events, Retain(now, days));
    RawRecordsKept(events, RawCutoff(now, days));
    SameCursors(events);
    var many, once := Retained(Run(events), now, days), Retained(Unpruned(events), now, days);
    forall key: BucketKey ensures
        && (key.start < HourFloor(RollupCutoff(now, days)) ==>
           Lookup(many.rollups, key) == Lookup(once.rollups, key) == None)
        && (key.start == HourFloor(RollupCutoff(now, days)) ==>
           AtMost(Lookup(once.rollups, key), Lookup(many.rollups, key)))
        && (key.start > HourFloor(RollupCutoff(now, days)) ==> Lookup(many.rollups, key) == Lookup(once.rollups, key))
    {
      BucketOfSchedule(events, now, days, key);
    }
    if HourAligned(RollupCutoff(now, days)) || RollupCutoff(now, days) <= 0.0 {
      forall key: BucketKey ensures Lookup(many.rollups, key) == Lookup(once.rollups, key) {
        BucketOfSchedule(events, now, days, key);
      }
      SameLookups(many.rollups, once.rollups);
    }
  }

  lemma SameLookups(a: Rollups, b: Rollups)
    requires forall key: BucketKey :: Lookup(a, key) == Lookup(b, key)
    ensures a == b
  {
    forall key ensures key in a <==> key in b {
      assert Lookup(a, key) == Lookup(b, key);
    }
    forall key | key in a ensures a[key] == b[key] {
      assert Lookup(a, key) == Lookup(b, key);
    }
  }

  /** A pass at this time gives the same tables whatever happened before it. */
  ghost predicate ScheduleFree(now: real, days: Days) {
    forall events | FinalPass(events, now, days) ::
      Run(events + [Retain(now, days)]) == Retained(Unpruned(events), now, days)
  }

  /** The boundary bucket is the only exception, and it is one exactly when
      the rollup cutoff lies inside an hour after the epoch. */
  lemma ScheduleFreeExactly(now: real, days: Days)
    ensures ScheduleFree(now, days) <==> HourAligned(RollupCutoff(now, days)) || RollupCutoff(now, days) <= 0.0
  {
    if HourAligned(RollupCutoff(now, days)) || RollupCutoff(now, days) <= 0.0 {
      forall events | FinalPass(events, now, days)
        ensures Run(events + [Retain(now, days)]) == Retained(Unpruned(events), now, days)
      {
        ScheduleIndependence(events, now, days);
      }
    } else {
      var events := EarlyPass(now, days);
      assert !(Run(events + [Retain(now, days)]) == Retained(Unpruned(events), now, days));
    }
  }

  const PROBE := Series("host", "packets", map[])

  lemma FirstSample(sample: CounterObservation)
    ensures var event := Record(Batch([], [sample], []));
            var row := Row(sample.at, sample.series, sample.resetId, sample.value, 0, true, false);
            && Run([event]).rows == [row] && Run([event]).rollups == map[] && Unpruned([event]) == Run([event])
  {
    var event := Record(Batch([], [sample], []));
    var none: Cursors := map[];
    var row := Row(sample.at, sample.series, sample.resetId, sample.value, 0, true, false);
    assert Derive(none, sample) == Done(row);
    assert [sample][..0] == [];
    assert RecordAll(none, [sample]) == Done(Recorded([] + [row], Advance(none, row)));
    assert [event][..0] == [];
    assert Run([event]) == Apply(EMPTY_TABLES, event);
    UnprunedStep([event]);
  }

  lemma SingleTally(row: Row, key: BucketKey, from: real, until: real)
    ensures Tally([row], key, from, until) == if Falls(row, key, from, until) then Some(Contribution(row)) else None
  {
    assert [row][..0] == [];
    assert Tally([row], key, from, until)
        == Plus(Tally([], key, from, until), if Falls(row, key, from, until) then Some(Contribution(row)) else None);
  }

  /** A sample rolled up by an early pass survives a later one that would have expired it. */
  lemma EarlierPassRescues(t: Tables, row: Row, early: real, now: real, days: Days)
    requires t.rows == [row] && t.rollups == map[]
    requires RollupCutoff(early, days) <= row.at < RawCutoff(early, days) && row.at < RollupCutoff(now, days)
    requires HourFloor(RollupCutoff(early, days)) <= KeyOf(row).start
             && HourFloor(RollupCutoff(now, days)) <= KeyOf(row).start
    ensures Lookup(Retained(Retained(t, early, days), now, days).rollups, KeyOf(row)) != None
    ensures Lookup(Retained(t, now, days).rollups, KeyOf(row)) == None
  {
    RetainedLookup(t, early, days, KeyOf(row));
    SingleTally(row, KeyOf(row), RollupCutoff(early, days), RawCutoff(early, days));
    RetainedLookup(Retained(t, early, days), now, days, KeyOf(row));
    RetainedLookup(t, now, days, KeyOf(row));
    SingleTally(row, KeyOf(row), RollupCutoff(now, days), RawCutoff(now, days));
  }

  lemma TwoPasses(recorded: Event, early: real, now: real, days: Days)
    requires Unpruned([recorded]) == Run([recorded])
    ensures var events := [recorded, Retain(early, days)];
            && Run(events + [Retain(now, days)]) == Retained(Retained(Run([recorded]), early, days), now, days)
            && Unpruned(events) == Run([recorded])
  {
    var events := [recorded, Retain(early, days)];
    assert events == [recorded] + [Retain(early, days)];
    LastPass([recorded], early, days);
    LastPass(events, now, days);
    UnprunedStep(events);
    assert events[..1] == [recorded];
    hide *;
  }

  lemma SampleIsRescued(sample: CounterObservation, early: real, now: real, days: Days)
    requires RollupCutoff(early, days) <= sample.at < RawCutoff(early, days) && sample.at < RollupCutoff(now, days)
    requires HourFloor(RollupCutoff(early, days)) <= BucketStart(sample.at)
             && HourFloor(RollupCutoff(now, days)) <= BucketStart(sample.at)
    ensures var t := Run([Record(Batch([], [sample], []))]);
            Retained(Retained(t, early, days), now, days).rollups != Retained(t, now, days).rollups
  {
    var row := Row(sample.at, sample.series, sample.resetId, sample.value, 0, true, false);
    FirstSample(sample);
    hide Run, Retained;
    EarlierPassRescues(Run([Record(Batch([], [sample], []))]), row, early, now, days);
  }

  lemma RescueRun(sample: CounterObservation, early: real, now: real, days: Days)
    requires RollupCutoff(early, days) <= sample.at < RawCutoff(early, days) && sample.at < RollupCutoff(now, days)
    requires HourFloor(RollupCutoff(early, days)) <= BucketStart(sample.at)
             && HourFloor(RollupCutoff(now, days)) <= BucketStart(sample.at)
    ensures var events := [Record(Batch([], [sample], [])), Retain(early, days)];
            Run(events + [Retain(now, days)]).rollups != Retained(Unpruned(events), now, days).rollups
  {
    hide *;
    FirstSample(sample);
    TwoPasses(Record(Batch([], [sample], [])), early, now, days);
    SampleIsRescued(sample, early, now, days);
  }

  /** A time whose rollup cutoff is exactly the given instant. */
  lemma TimeOfCutoff(cutoff: real, now: real, days: Days) returns (early: real)
    requires cutoff < RollupCutoff(now, days)
    ensures RollupCutoff(early, days) == cutoff && early <= now
  {
    early := cutoff + (days.rollup * 86400) as real;
  }

  lemma BoundaryInstant(cutoff: real)
    requires !HourAligned(cutoff) && cutoff > 0.0
    ensures var start := HourFloor(cutoff) as real;
            0.0 <= start < cutoff && HourFloor(start) == BucketStart(start) == HourFloor(cutoff)
  {
    var hour := HourFloor(cutoff);
    HourBounds(cutoff);
    assert hour >= 0 by {
      assert (hour + 3600) as real > 0.0;
    }
    HourUnique(hour as real, hour);
    HourBounds(hour as real);
  }

  /** The witness: one sample at the start of the boundary hour, compacted by a pass that ran
      while that hour was still inside the rollup window. */
  lemma EarlyPass(now: real, days: Days) returns (events: seq<Event>)
    requires !HourAligned(RollupCutoff(now, days)) && RollupCutoff(now, days) > 0.0
    ensures FinalPass(events, now, days)
    ensures Run(events + [Retain(now, days)]).rollups != Retained(Unpruned(events), now, days).rollups
  {
    BoundaryInstant(RollupCutoff(now, days));
    var start: Timestamp := HourFloor(RollupCutoff(now, days)) as real;
    var early := TimeOfCutoff(start, now, days);
    CutoffOrder(early, days);
    var sample := CounterObservation(start, PROBE, 0, "boot");
    RescueRun(sample, early, now, days);
    events := [Record(Batch([], [sample], [])), Retain(early, days)];
    SteadyScheduleEndsInFinalPass(events, now, days);
  }
}
