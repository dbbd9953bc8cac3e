/** When the sums of a retention pass fit an SQLite integer: always in an hour without a reset, and
    with any number of resets the proved bound is reached. */
module IntegerRange {
  import opened Models
  import opened Ledger
  import opened Retention
  import opened Schedule
  import opened Conservation
  import opened History

  /** What a pass puts into one bucket, the sum over its window added to what was there, is an SQLite integer. */
  predicate SumFits(t: Tables, now: real, days: Days, key: BucketKey) {
    var slot := Plus(Lookup(t.rollups, key), Tally(t.rows, key, RollupCutoff(now, days), RawCutoff(now, days)));
    slot.Some? ==> slot.value.delta <= MAX_INTEGER
  }

  // ---------- every sum within the bound ----------

  lemma OneMoreRow(window: Slot, hour: Slot, added: Slot, counts: bool, falls: bool)
    requires AtMost(window, hour) && (falls ==> counts)
    ensures AtMost(Plus(window, if falls then added else None), Plus(hour, if counts then added else None))
  {
  }

  /** A window holds no more of a bucket than its hour does. */
  lemma {:induction false} WindowWithinHour(rows: seq<Row>, key: BucketKey, from: real, until: real)
    requires key.start % 3600 == 0
    ensures AtMost(Tally(rows, key, from, until), Whole(rows, key))
  {
    if rows == [] {
    } else {
      var front, row := rows[..|rows| - 1], rows[|rows| - 1];
      WindowWithinHour(front, key, from, until);
      RowInHour(row, key);
      OneMoreRow(Tally(front, key, from, until), Whole(front, key), Some(Contribution(row)),
                 Falls(row, key, key.start as real, (key.start + 3600) as real), Falls(row, key, from, until));
      hide KeyOf, Plus, AtMost;
    }
  }

  lemma PartOfTheHour(window: Slot, raw: Slot, rolledUp: Slot, expired: Slot, hour: Slot)
    requires AtMost(window, raw) && Plus(Plus(raw, rolledUp), expired) == hour
    ensures AtMost(Plus(rolledUp, window), hour)
  {
  }

  lemma HourBound(events: seq<Event>, key: BucketKey)
    requires !NoSuchHour(key.start)
    ensures var hour := Whole(Unpruned(events).rows, key);
            hour.Some? ==> hour.value.delta <= (hour.value.resets + 1) * MAX_INTEGER
  {
    hide Unpruned, Whole;
    HistoryIsGenuine(events);
    HistoryIsBounded(Unpruned(events).rows, key);
  }

  /** Whatever ran before, the sums of a pass stay within one integer range per reset-free stretch of the hour. */
  lemma PassSumBound(events: seq<Event>, now: real, days: Days, key: BucketKey)
    ensures var t, hour := Run(events), Whole(Unpruned(events).rows, key);
            var slot := Plus(Lookup(t.rollups, key), Tally(t.rows, key, RollupCutoff(now, days), RawCutoff(now, days)));
            slot.Some? ==> hour.Some? && slot.value.delta <= (hour.value.resets + 1) * MAX_INTEGER
  {
    var t, hour := Run(events), Whole(Unpruned(events).rows, key);
    var from, until := RollupCutoff(now, days), RawCutoff(now, days);
    hide Run, Unpruned, Tally, Whole, RollupCutoff, RawCutoff;
    if NoSuchHour(key.start) {
      NoBucketOutsideHours(events, key);
      NothingFallsOutsideHours(t.rows, key, from, until);
    } else {
      WindowWithinHour(t.rows, key, from, until);
      BucketConservation(events, key);
      PartOfTheHour(Tally(t.rows, key, from, until), Whole(t.rows, key), Lookup(t.rollups, key),
                    Expired(events, key), hour);
      HourBound(events, key);
    }
  }

  // ---------- the bound is reached: a counter that jumps between zero and the largest reading ----------

  /** Instants that close in on the end of the hour. */
  function SawTime(start: nat, i: nat): (at: real)
    ensures start as real <= at < (start + 3600) as real
  {
    if i == 0 then start as real else (SawTime(start, i - 1) + (start + 3600) as real) / 2.0
  }

  function SawObservation(key: BucketKey, i: nat): CounterObservation
    requires !NoSuchHour(key.start)
  {
    CounterObservation(SawTime(key.start, i), key.series, if i % 2 == 0 then 0 else MAX_INTEGER, "boot")
  }

  function SawRow(key: BucketKey, i: nat): Row
    requires !NoSuchHour(key.start)
  {
    var o := SawObservation(key, i);
    Row(o.at, o.series, o.resetId, o.value, o.value, i == 0, i > 0 && i % 2 == 0)
  }

  function Saw(key: BucketKey, n: nat): seq<CounterObservation>
    requires !NoSuchHour(key.start)
  {
    if n == 0 then [] else Saw(key, n - 1) + [SawObservation(key, n - 1)]
  }

  function SawRows(key: BucketKey, n: nat): seq<Row>
    requires !NoSuchHour(key.start)
  {
    if n == 0 then [] else SawRows(key, n - 1) + [SawRow(key, n - 1)]
  }

  function SawCursors(key: BucketKey, n: nat): Cursors
    requires !NoSuchHour(key.start)
  {
    if n == 0 then map[] else map[key.series := CursorAt(SawRow(key, n - 1))]
  }

  lemma SawDerived(key: BucketKey, n: nat)
    requires !NoSuchHour(key.start)
    ensures Derive(SawCursors(key, n), SawObservation(key, n)) == Done(SawRow(key, n))
    ensures Advance(SawCursors(key, n), SawRow(key, n)) == SawCursors(key, n + 1)
  {
    assert n > 0 ==> SawTime(key.start, n) > SawTime(key.start, n - 1);
  }

  lemma {:induction false} SawRecorded(key: BucketKey, n: nat)
    requires !NoSuchHour(key.start)
    ensures RecordAll(map[], Saw(key, n)) == Done(Recorded(SawRows(key, n), SawCursors(key, n)))
  {
    if n == 0 {
    } else {
      SawRecorded(key, n - 1);
      SawDerived(key, n - 1);
      RecordOneMore(map[], Saw(key, n - 1), SawObservation(key, n - 1));
    }
  }

  function SawRun(key: BucketKey, n: nat): seq<Event>
    requires !NoSuchHour(key.start)
  {
    [Record(Batch([], Saw(key, n), []))]
  }

  lemma SawIsRecorded(key: BucketKey, n: nat)
    requires !NoSuchHour(key.start)
    ensures Run(SawRun(key, n)).rows == SawRows(key, n) && Run(SawRun(key, n)).rollups == map[]
    ensures Unpruned(SawRun(key, n)) == Run(SawRun(key, n))
  {
    SawRecorded(key, n);
    var events := SawRun(key, n);
    assert events[..0] == [] && EMPTY_TABLES.rows + SawRows(key, n) == SawRows(key, n);
    assert Run(events) == Apply(EMPTY_TABLES, events[0]);
    UnprunedStep(events);
  }

  lemma SawFalls(key: BucketKey, i: nat)
    requires !NoSuchHour(key.start)
    ensures Falls(SawRow(key, i), key, key.start as real, (key.start + 3600) as real)
  {
    var row := SawRow(key, i);
    HourUnique(row.at, key.start);
    HourBounds(row.at);
  }

  /** What the first readings add up to: every second one adds the whole range, every other one starts over. */
  function SawSlot(n: nat): Slot {
    if n == 0 then None else Some(Bucket(n / 2 * MAX_INTEGER, (n - 1) / 2))
  }

  lemma OneTooth(key: BucketKey, n: nat)
    requires !NoSuchHour(key.start)
    ensures Plus(SawSlot(n), Some(Contribution(SawRow(key, n)))) == SawSlot(n + 1)
  {
    assert (n + 1) / 2 == n / 2 + if n % 2 == 0 then 0 else 1;
    assert n > 0 ==> n / 2 == (n - 1) / 2 + if n % 2 == 0 then 1 else 0;
    hide SawTime;
  }

  lemma {:induction false} SawTally(key: BucketKey, n: nat)
    requires !NoSuchHour(key.start)
    ensures Whole(SawRows(key, n), key) == SawSlot(n)
  {
    if n == 0 {
    } else {
      SawTally(key, n - 1);
      SawFalls(key, n - 1);
      OneTooth(key, n - 1);
      hide SawSlot, SawRow, Falls, Contribution;
      var rows := SawRows(key, n);
      assert rows[..|rows| - 1] == SawRows(key, n - 1) && rows[|rows| - 1] == SawRow(key, n - 1);
    }
  }

  /** The bound of `BucketFitsInteger` cannot be improved: with any number of resets some run reaches it. */
  lemma BucketBoundIsReached(key: BucketKey, resets: nat) returns (events: seq<Event>)
    requires !NoSuchHour(key.start)
    ensures RollupCutoffsAtMost(events, key.start as real)
    ensures Run(events).rollups == map[] && Unpruned(events) == Run(events)
    ensures Whole(Run(events).rows, key) == Some(Bucket((resets + 1) * MAX_INTEGER, resets))
  {
    hide Whole, Unpruned, Run, Saw, SawRows;
    var n := 2 * resets + 2;
    events := SawRun(key, n);
    SawIsRecorded(key, n);
    SawTally(key, n);
    assert n / 2 == resets + 1 && (n - 1) / 2 == resets;
  }

  /** Whatever was recorded and whenever passes ran, this pass can add up this hour, if its counter
      started over so many times in it. */
  ghost predicate AlwaysFits(now: real, days: Days, key: BucketKey, resets: nat) {
    forall events: seq<Event> |
      Whole(Unpruned(events).rows, key).Some? && Whole(Unpruned(events).rows, key).value.resets == resets ::
      SumFits(Run(events), now, days, key)
  }

  lemma Overflows(events: seq<Event>, now: real, days: Days, key: BucketKey)
    requires RollupCutoff(now, days) <= key.start as real && (key.start + 3600) as real <= RawCutoff(now, days)
    requires var hour := Whole(Run(events).rows, key);
             hour.Some? && hour.value.resets > 0 && hour.value.delta == (hour.value.resets + 1) * MAX_INTEGER
    ensures !SumFits(Run(events), now, days, key)
  {
    hide Run, Tally;
    var t := Run(events);
    TallyClip(t.rows, key, RollupCutoff(now, days), RawCutoff(now, days),
              key.start as real, (key.start + 3600) as real);
  }

  /** An hour inside the window of a pass can always be added up if and only if its counter never started over. */
  lemma FitsExactlyWithoutResets(now: real, days: Days, key: BucketKey, resets: nat)
    requires !NoSuchHour(key.start)
    requires RollupCutoff(now, days) <= key.start as real && (key.start + 3600) as real <= RawCutoff(now, days)
    ensures AlwaysFits(now, days, key, resets) <==> resets == 0
  {
    hide Run, Unpruned, Whole, Tally, RollupCutoff, RawCutoff;
    if resets == 0 {
      forall events: seq<Event> |
        Whole(Unpruned(events).rows, key).Some? && Whole(Unpruned(events).rows, key).value.resets == resets
        ensures SumFits(Run(events), now, days, key)
      {
        PassSumBound(events, now, days, key);
      }
    } else {
      var events := BucketBoundIsReached(key, resets);
      Overflows(events, now, days, key);
    }
  }
}
