/** What retention may and may not change: the same store whatever the schedule
    of the passes, nothing lost that was not declared expired, and nothing
    visible to the recording side. */
module Retention {
  import opened Models
  import opened Ledger

  // ---------- algebra of windows ----------

  lemma {:induction false} SinceConcat<T>(a: seq<T>, b: seq<T>, at: T -> real, cutoff: real)
    ensures Since(a + b, at, cutoff) == Since(a, at, cutoff) + Since(b, at, cutoff)
  {
    if b == [] {
      assert a + b == a;
    } else {
      assert (a + b)[..|a + b| - 1] == a + b[..|b| - 1];
      SinceConcat(a, b[..|b| - 1], at, cutoff);
    }
  }

  lemma {:induction false} SinceTwice<T>(records: seq<T>, at: T -> real, early: real, late: real)
    requires early <= late
    ensures Since(Since(records, at, early), at, late) == Since(records, at, late)
  {
    if records == [] {
    } else {
      var front, last := records[..|records| - 1], records[|records| - 1];
      SinceTwice(front, at, early, late);
      if at(last) >= early {
        assert Since(records, at, early) == Since(front, at, early) + [last];
        SinceConcat(Since(front, at, early), [last], at, late);
        assert [last][..0] == [];
        assert Since([last], at, late) == Since([], at, late) + if at(last) >= late then [last] else [];
      } else {
        assert Since(records, at, early) == Since(front, at, early);
      }
    }
  }

  lemma PlusAssociative(a: Slot, b: Slot, c: Slot)
    ensures Plus(Plus(a, b), c) == Plus(a, Plus(b, c))
  {
  }

  lemma {:induction false} TallyConcat(a: seq<Row>, b: seq<Row>, key: BucketKey, from: real, until: real)
    ensures Tally(a + b, key, from, until) == Plus(Tally(a, key, from, until), Tally(b, key, from, until))
  {
    if b == [] {
      assert a + b == a;
    } else {
      assert (a + b)[..|a + b| - 1] == a + b[..|b| - 1];
      TallyConcat(a, b[..|b| - 1], key, from, until);
    }
  }

  /** A window splits at any instant inside it. */
  lemma {:induction false} TallySplit(rows: seq<Row>, key: BucketKey, from: real, middle: real, until: real)
    requires from <= middle <= until
    ensures Tally(rows, key, from, until) == Plus(Tally(rows, key, from, middle), Tally(rows, key, middle, until))
  {
    if rows == [] {
    } else {
      TallySplit(rows[..|rows| - 1], key, from, middle, until);
    }
  }

  /** Rows that were deleted can be left out of the window instead. */
  lemma {:induction false} TallySince(rows: seq<Row>, key: BucketKey, cutoff: real, from: real, until: real)
    ensures Tally(Since(rows, RowTime, cutoff), key, from, until)
         == Tally(rows, key, if from < cutoff then cutoff else from, until)
  {
    if rows == [] {
    } else {
      var front, last := rows[..|rows| - 1], rows[|rows| - 1];
      TallySince(front, key, cutoff, from, until);
      TallyConcat(Since(front, RowTime, cutoff), if last.at >= cutoff then [last] else [], key, from, until);
      assert [last][..0] == [];
      assert Tally([last], key, from, until)
          == Plus(Tally([], key, from, until), if Falls(last, key, from, until) then Some(Contribution(last))
              else None);
    }
  }

  /** Every row of a bucket lies in the bucket's hour, so a window may be clipped to that hour. */
  lemma {:induction false} TallyClip(rows: seq<Row>, key: BucketKey, from: real, until: real, from': real, until': real)
    requires from == from' || (from <= key.start as real && from' <= key.start as real)
    requires until == until' || (until >= (key.start + 3600) as real && until' >= (key.start + 3600) as real)
    ensures Tally(rows, key, from, until) == Tally(rows, key, from', until')
  {
    if rows == [] {
    } else {
      TallyClip(rows[..|rows| - 1], key, from, until, from', until');
      HourBounds(rows[|rows| - 1].at);
    }
  }

  /** A whole bucket of a table of rows. */
  function Whole(rows: seq<Row>, key: BucketKey): Slot {
    Tally(rows, key, key.start as real, (key.start + 3600) as real)
  }

  lemma MergeLookup(rollups: Rollups, rows: seq<Row>, from: real, until: real, key: BucketKey)
    ensures Lookup(Merge(rollups, rows, from, until), key) == Plus(Lookup(rollups, key), Tally(rows, key, from, until))
  {
    TallyPresent(rows, key, from, until);
    if i :| 0 <= i < |rows| && Falls(rows[i], key, from, until) {
      assert key in GroupKeys(rows, from, until);
    }
  }

  /** The bucket a pass leaves behind, seen one key at a time. */
  lemma RetainedLookup(t: Tables, now: real, days: Days, key: BucketKey)
    ensures Lookup(Retained(t, now, days).rollups, key)
         == if key.start < HourFloor(RollupCutoff(now, days)) then None
            else Plus(Lookup(t.rollups, key), Tally(t.rows, key, RollupCutoff(now, days), RawCutoff(now, days)))
  {
    MergeLookup(t.rollups, t.rows, RollupCutoff(now, days), RawCutoff(now, days), key);
  }

  // ---------- runs ----------

  lemma CutoffOrder(now: real, days: Days)
    ensures RollupCutoff(now, days) < RawCutoff(now, days) <= now - 86400.0
  {
  }

  /** No pass of the run deleted raw rows observed at or after `cutoff`. */
  predicate RawCutoffsAtMost(events: seq<Event>, cutoff: real) {
    forall i | 0 <= i < |events| && events[i].Retain? :: RawCutoff(events[i].now, events[i].days) <= cutoff
  }

  /** No pass of the run expired anything observed at or after `cutoff`. */
  predicate RollupCutoffsAtMost(events: seq<Event>, cutoff: real) {
    forall i | 0 <= i < |events| && events[i].Retain? :: RollupCutoff(events[i].now, events[i].days) <= cutoff
  }

  lemma UnprunedStep(events: seq<Event>)
    requires events != []
    ensures Unpruned(events) == if events[|events| - 1].Record?
                                then Apply(Unpruned(events[..|events| - 1]), events[|events| - 1])
                                else Unpruned(events[..|events| - 1])
  {
    var front, last := events[..|events| - 1], events[|events| - 1];
    if last.Record? {
      assert Batches(events) == Batches(front) + [last];
      assert Batches(events)[..|Batches(events)| - 1] == Batches(front);
    } else {
      assert Batches(events) == Batches(front);
    }
  }

  /** Retention is invisible to the recording side: the cursors are those of the unpruned database. */
  lemma {:induction false} SameCursors(events: seq<Event>)
    ensures Run(events).cursors == Unpruned(events).cursors
  {
    if events == [] {
    } else {
      SameCursors(events[..|events| - 1]);
      UnprunedStep(events);
    }
  }

  /** What the callers of a run got back, batch by batch. */
  function Replies(events: seq<Event>): seq<Outcome<seq<CounterResult>>> {
    if events == [] then
      []
    else
      var front, last := events[..|events| - 1], events[|events| - 1];
      Replies(front) + match last
        case Retain(_, _) => []
        case Record(batch) =>
          (match Commit(Run(front), batch)
           case Abort(error) => [Abort(error)]
           case Done(committed) => [Done(committed.results)])
  }

  /** ... so erasing every pass leaves every reply, result or refusal, as it was. */
  lemma {:induction false} RetentionTransparent(events: seq<Event>)
    ensures Replies(events) == Replies(Batches(events))
  {
    if events == [] {
    } else {
      var front, last := events[..|events| - 1], events[|events| - 1];
      RetentionTransparent(front);
      if last.Record? {
        SameCursors(front);
        assert Batches(events) == Batches(front) + [last];
        assert Batches(events)[..|Batches(events)| - 1] == Batches(front);
      } else {
        assert Batches(events) == Batches(front);
      }
    }
  }

  lemma {:induction false} UnprunedHasNoRollups(events: seq<Event>)
    ensures Unpruned(events).rollups == map[]
  {
    if events == [] {
    } else {
      UnprunedHasNoRollups(events[..|events| - 1]);
      UnprunedStep(events);
    }
  }

  /** Whatever a run still holds of its raw records, samples or gauges or health, is the
      youngest part of its history. */
  lemma {:induction false} RawRecordsKept(events: seq<Event>, cutoff: real)
    requires RawCutoffsAtMost(events, cutoff)
    ensures Since(Run(events).rows, RowTime, cutoff) == Since(Unpruned(events).rows, RowTime, cutoff)
    ensures Since(Run(events).gauges, GaugeTime, cutoff) == Since(Unpruned(events).gauges, GaugeTime, cutoff)
    ensures Since(Run(events).health, HealthTime, cutoff) == Since(Unpruned(events).health, HealthTime, cutoff)
  {
    if events == [] {
    } else {
      var front, last := events[..|events| - 1], events[|events| - 1];
      RawRecordsKept(front, cutoff);
      UnprunedStep(events);
      var t, u := Run(front), Unpruned(front);
      match last
      case Record(batch) =>
        SameCursors(front);
        match RecordAll(t.cursors, batch.counters) {
          case Abort(_) =>
          case Done(recorded) =>
            SinceConcat(t.rows, recorded.rows, RowTime, cutoff);
            SinceConcat(u.rows, recorded.rows, RowTime, cutoff);
            SinceConcat(t.gauges, batch.gauges, GaugeTime, cutoff);
            SinceConcat(u.gauges, batch.gauges, GaugeTime, cutoff);
            SinceConcat(t.health, batch.health, HealthTime, cutoff);
            SinceConcat(u.health, batch.health, HealthTime, cutoff);
        }
      case Retain(now, days) =>
        SinceTwice(t.rows, RowTime, RawCutoff(now, days), cutoff);
        SinceTwice(t.gauges, GaugeTime, RawCutoff(now, days), cutoff);
        SinceTwice(t.health, HealthTime, RawCutoff(now, days), cutoff);
    }
  }

  /** A batch adds the same to both databases: nothing, or the same rows. */
  lemma RecordTally(t: Tables, u: Tables, batch: Batch, key: BucketKey, from: real, until: real) returns (added: Slot)
    requires t.cursors == u.cursors
    ensures Apply(t, Record(batch)).rollups == t.rollups
    ensures Tally(Apply(t, Record(batch)).rows, key, from, until) == Plus(Tally(t.rows, key, from, until), added)
    ensures Tally(Apply(u, Record(batch)).rows, key, from, until) == Plus(Tally(u.rows, key, from, until), added)
  {
    match RecordAll(t.cursors, batch.counters) {
      case Abort(_) =>
        added := None;
      case Done(recorded) =>
        TallyConcat(t.rows, recorded.rows, key, from, until);
        TallyConcat(u.rows, recorded.rows, key, from, until);
        added := Tally(recorded.rows, key, from, until);
    }
  }

  lemma {:induction false} EmptyWindow(rows: seq<Row>, key: BucketKey, from: real, until: real)
    requires until <= from
    ensures Tally(rows, key, from, until) == None
  {
    if rows == [] {
    } else {
      EmptyWindow(rows[..|rows| - 1], key, from, until);
    }
  }

  /** One pass moves rows of an unexpired bucket; it does not change what the bucket adds up to. */
  lemma PassKeepsBucket(t: Tables, now: real, days: Days, key: BucketKey, cutoff: real)
    requires RawCutoff(now, days) <= cutoff && RollupCutoff(now, days) <= key.start as real
    ensures Plus(Lookup(Retained(t, now, days).rollups, key),
            Tally(Retained(t, now, days).rows, key, key.start as real, cutoff))
         == Plus(Lookup(t.rollups, key), Tally(t.rows, key, key.start as real, cutoff))
  {
    var start, raw, rollup := key.start as real, RawCutoff(now, days), RollupCutoff(now, days);
    HourBounds(rollup);
    RetainedLookup(t, now, days, key);
    TallySince(t.rows, key, raw, start, cutoff);
    TallyClip(t.rows, key, rollup, raw, start, raw);
    if start <= raw {
      TallySplit(t.rows, key, start, raw, cutoff);
    } else {
      EmptyWindow(t.rows, key, start, raw);
    }
    PlusAssociative(Lookup(t.rollups, key), Tally(t.rows, key, start, raw),
        Tally(t.rows, key, if start < raw then raw else start, cutoff));
  }

  /** A bucket no pass could expire: at any later cutoff, what is rolled up plus what
      that cutoff would still add is what the whole history has below the cutoff. */
  lemma {:induction false} BucketKept(events: seq<Event>, key: BucketKey, cutoff: real)
    requires RawCutoffsAtMost(events, cutoff)
    requires RollupCutoffsAtMost(events, key.start as real)
    ensures Plus(Lookup(Run(events).rollups, key), Tally(Run(events).rows, key, key.start as real, cutoff))
         == Tally(Unpruned(events).rows, key, key.start as real, cutoff)
  {
    if events == [] {
    } else {
      var front, last := events[..|events| - 1], events[|events| - 1];
      BucketKept(front, key, cutoff);
      UnprunedStep(events);
      var t, u := Run(front), Unpruned(front);
      match last
      case Record(batch) =>
        SameCursors(front);
        var added := RecordTally(t, u, batch, key, key.start as real, cutoff);
        PlusAssociative(Lookup(t.rollups, key), Tally(t.rows, key, key.start as real, cutoff), added);
      case Retain(now, days) =>
        PassKeepsBucket(t, now, days, key, cutoff);
    }
  }
}
