/** A retention pass said in seconds: which records it keeps, which rows it compacts, what it adds to
    which hour, and what it reports. */
module PassWindow {
  import opened Models
  import opened Ledger
  import opened Retention
  import opened Conservation

  // ---------- records ----------

  lemma CountSnoc<T>(front: seq<T>, last: T, record: T)
    ensures multiset(front + [last])[record] == multiset(front)[record] + if last == record then 1 else 0
  {
    assert multiset(front + [last]) == multiset(front) + multiset{last};
  }

  /** Every record as often as before if it is not older than the cutoff, and not at all if it is. */
  lemma {:induction false} SinceKeeps<T>(records: seq<T>, at: T -> real, cutoff: real, record: T)
    ensures multiset(Since(records, at, cutoff))[record] ==
            if at(record) >= cutoff then multiset(records)[record] else 0
  {
    if records == [] {
    } else {
      var front, last := records[..|records| - 1], records[|records| - 1];
      SinceKeeps(front, at, cutoff, record);
      CountSnoc(front, last, record);
      assert records == front + [last];
      if at(last) >= cutoff {
        CountSnoc(Since(front, at, cutoff), last, record);
      }
    }
  }

  /** Where the records older than a cutoff are. */
  function OlderThan<T>(records: seq<T>, at: T -> real, cutoff: real): set<nat> {
    set i: nat | i < |records| && at(records[i]) < cutoff
  }

  /** Where the rows of a window are. */
  function RowsBetween(rows: seq<Row>, from: real, until: real): set<nat> {
    set i: nat | i < |rows| && from <= rows[i].at < until
  }

  lemma GrownSet(s: set<nat>, n: nat, t: set<nat>, added: bool)
    requires n !in s && t == if added then s + {n} else s
    ensures |t| == |s| + if added then 1 else 0
  {
  }

  lemma OlderSnoc<T>(front: seq<T>, last: T, at: T -> real, cutoff: real)
    ensures |OlderThan(front + [last], at, cutoff)| ==
            |OlderThan(front, at, cutoff)| + if at(last) < cutoff then 1 else 0
  {
    var n, records := |front|, front + [last];
    var s, t := OlderThan(front, at, cutoff), OlderThan(records, at, cutoff);
    assert records[n] == last && forall i | 0 <= i < n :: records[i] == front[i];
    assert t == if at(last) < cutoff then s + {n} else s;
    GrownSet(s, n, t, at(last) < cutoff);
  }

  lemma {:induction false} PrunedCount<T>(records: seq<T>, at: T -> real, cutoff: real)
    ensures |records| - |Since(records, at, cutoff)| == |OlderThan(records, at, cutoff)|
  {
    if records == [] {
      assert OlderThan(records, at, cutoff) == {};
    } else {
      var front, last := records[..|records| - 1], records[|records| - 1];
      PrunedCount(front, at, cutoff);
      OlderSnoc(front, last, at, cutoff);
      assert records == front + [last];
    }
  }

  lemma BetweenSnoc(front: seq<Row>, last: Row, from: real, until: real)
    ensures |RowsBetween(front + [last], from, until)| ==
            |RowsBetween(front, from, until)| + if from <= last.at < until then 1 else 0
  {
    var n, rows := |front|, front + [last];
    var s, t := RowsBetween(front, from, until), RowsBetween(rows, from, until);
    assert rows[n] == last && forall i | 0 <= i < n :: rows[i] == front[i];
    assert t == if from <= last.at < until then s + {n} else s;
    GrownSet(s, n, t, from <= last.at < until);
  }

  lemma {:induction false} CompactedCount(rows: seq<Row>, from: real, until: real)
    ensures Compactable(rows, from, until) == |RowsBetween(rows, from, until)|
  {
    if rows == [] {
      assert RowsBetween(rows, from, until) == {};
    } else {
      var front, last := rows[..|rows| - 1], rows[|rows| - 1];
      CompactedCount(front, from, until);
      BetweenSnoc(front, last, from, until);
      hide RowsBetween;
      assert rows == front + [last];
    }
  }

  // ---------- buckets ----------

  /** A row of a counter in one hour, inside the window of a pass. */
  predicate InHour(row: Row, key: BucketKey, from: real, until: real) {
    row.series == key.series && key.start as real <= row.at < (key.start + 3600) as real && from <= row.at < until
  }

  /** What the rows of an hour inside the window add up to. */
  function HourDelta(rows: seq<Row>, key: BucketKey, from: real, until: real): nat {
    if rows == [] then 0
    else
      var last := rows[|rows| - 1];
      HourDelta(rows[..|rows| - 1], key, from, until) + if InHour(last, key, from, until) then last.delta else 0
  }

  function HourResets(rows: seq<Row>, key: BucketKey, from: real, until: real): nat {
    if rows == [] then 0
    else
      var last := rows[|rows| - 1];
      HourResets(rows[..|rows| - 1], key, from, until)
      + if InHour(last, key, from, until) && last.isReset then 1 else 0
  }

  predicate AnyInHour(rows: seq<Row>, key: BucketKey, from: real, until: real) {
    exists i :: 0 <= i < |rows| && InHour(rows[i], key, from, until)
  }

  lemma FallsInHour(row: Row, key: BucketKey, from: real, until: real)
    requires key.start % 3600 == 0
    ensures Falls(row, key, from, until) <==> InHour(row, key, from, until)
  {
    HourBounds(row.at);
    if key.start as real <= row.at < (key.start + 3600) as real {
      HourUnique(row.at, key.start);
    }
  }

  lemma AnySnoc(front: seq<Row>, row: Row, key: BucketKey, from: real, until: real)
    ensures AnyInHour(front + [row], key, from, until) <==>
            AnyInHour(front, key, from, until) || InHour(row, key, from, until)
  {
    var rows := front + [row];
    assert rows[|front|] == row && forall i | 0 <= i < |front| :: rows[i] == front[i];
    if AnyInHour(front, key, from, until) {
      var i :| 0 <= i < |front| && InHour(front[i], key, from, until);
      assert InHour(rows[i], key, from, until);
    }
  }

  lemma NoneInHour(key: BucketKey, from: real, until: real)
    ensures !AnyInHour([], key, from, until)
  {
  }

  /** What the rows of an hour inside the window make of it. */
  function HourSlot(rows: seq<Row>, key: BucketKey, from: real, until: real): Slot {
    if AnyInHour(rows, key, from, until)
    then Some(Bucket(HourDelta(rows, key, from, until), HourResets(rows, key, from, until))) else None
  }

  lemma OneMoreInHour(any: bool, delta: nat, resets: nat, row: Row, added: bool)
    requires !any ==> delta == 0 && resets == 0
    ensures Plus(if any then Some(Bucket(delta, resets)) else None, if added then Some(Contribution(row)) else None) ==
            if any || added
            then Some(Bucket(delta + if added then row.delta else 0, resets + if added && row.isReset then 1 else 0))
            else None
  {
  }

  lemma {:induction false} TallyOfHour(rows: seq<Row>, key: BucketKey, from: real, until: real)
    requires key.start % 3600 == 0
    ensures Tally(rows, key, from, until) == HourSlot(rows, key, from, until)
    ensures !AnyInHour(rows, key, from, until) ==>
              HourDelta(rows, key, from, until) == 0 && HourResets(rows, key, from, until) == 0
  {
    hide AnyInHour, InHour, Falls, Plus, Contribution;
    if rows == [] {
      NoneInHour(key, from, until);
    } else {
      var front, last := rows[..|rows| - 1], rows[|rows| - 1];
      TallyOfHour(front, key, from, until);
      FallsInHour(last, key, from, until);
      AnySnoc(front, last, key, from, until);
      OneMoreInHour(AnyInHour(front, key, from, until), HourDelta(front, key, from, until),
                    HourResets(front, key, from, until), last, InHour(last, key, from, until));
      assert rows == front + [last];
    }
  }

  /** The buckets after a pass: an hour is left if and only if it ends after the rollup cutoff and was
      there or had a row in the window, and it then holds what it held and what those rows add. */
  predicate Bucketed(before: Rollups, rows: seq<Row>, from: real, until: real, after: Rollups) {
    && (forall key | key in after && key.start % 3600 == 0 :: (key.start + 3600) as real > from)
    && (forall key | key in before && key.start % 3600 == 0 && (key.start + 3600) as real > from :: key in after)
    && (forall i | 0 <= i < |rows| && from <= rows[i].at < until ::
          exists key :: key in after && InHour(rows[i], key, from, until))
    && (forall key | key in after && key.start % 3600 == 0 ::
          && (key in before || AnyInHour(rows, key, from, until))
          && after[key].delta ==
             (if key in before then before[key].delta else 0) + HourDelta(rows, key, from, until)
          && after[key].resets ==
             (if key in before then before[key].resets else 0) + HourResets(rows, key, from, until))
  }

  lemma RowHasItsHour(row: Row, from: real, until: real)
    requires from <= row.at < until
    ensures KeyOf(row).start % 3600 == 0 && InHour(row, KeyOf(row), from, until)
    ensures (KeyOf(row).start + 3600) as real > from
  {
    HourBounds(row.at);
  }

  lemma HourEnds(start: int, cutoff: real)
    requires start % 3600 == 0
    ensures start >= HourFloor(cutoff) <==> (start + 3600) as real > cutoff
  {
    HourBounds(cutoff);
    var floor := HourFloor(cutoff);
    assert start > floor - 3600 ==> start / 3600 > floor / 3600 - 1;
  }

  lemma PlusParts(before: Slot, added: Slot)
    ensures Plus(before, added) ==
            if before.None? && added.None? then None
            else Some(Bucket((if before.Some? then before.value.delta else 0)
                                 + (if added.Some? then added.value.delta else 0),
                             (if before.Some? then before.value.resets else 0)
                                 + (if added.Some? then added.value.resets else 0)))
  {
  }

  lemma HourAfterPass(t: Tables, now: real, days: Days, key: BucketKey)
    requires key.start % 3600 == 0
    ensures var from, until := now - (days.rollup * 86400) as real, now - (days.raw * 86400) as real;
            Lookup(Retained(t, now, days).rollups, key) ==
            if (key.start + 3600) as real > from
            then Plus(Lookup(t.rollups, key), HourSlot(t.rows, key, from, until)) else None
  {
    var from, until := now - (days.rollup * 86400) as real, now - (days.raw * 86400) as real;
    hide Retained, HourSlot, HourFloor, Tally, Plus, AnyInHour, HourDelta, HourResets;
    RetainedLookup(t, now, days, key);
    TallyOfHour(t.rows, key, from, until);
    HourEnds(key.start, from);
  }

  lemma PassBuckets(t: Tables, now: real, days: Days)
    ensures Bucketed(t.rollups, t.rows, now - (days.rollup * 86400) as real, now - (days.raw * 86400) as real,
                     Retained(t, now, days).rollups)
  {
    var from, until := now - (days.rollup * 86400) as real, now - (days.raw * 86400) as real;
    var after := Retained(t, now, days).rollups;
    hide Retained, AnyInHour, HourDelta, HourResets;
    forall key: BucketKey | key.start % 3600 == 0
      ensures key in after <==>
              (key.start + 3600) as real > from && (key in t.rollups || AnyInHour(t.rows, key, from, until))
      ensures key in after ==>
                && after[key].delta ==
                   (if key in t.rollups then t.rollups[key].delta else 0) + HourDelta(t.rows, key, from, until)
                && after[key].resets ==
                   (if key in t.rollups then t.rollups[key].resets else 0) + HourResets(t.rows, key, from, until)
    {
      HourAfterPass(t, now, days, key);
      PlusParts(Lookup(t.rollups, key), HourSlot(t.rows, key, from, until));
      TallyOfHour(t.rows, key, from, until);
    }
    forall i | 0 <= i < |t.rows| && from <= t.rows[i].at < until
      ensures exists key :: key in after && InHour(t.rows[i], key, from, until)
    {
      RowHasItsHour(t.rows[i], from, until);
      AnyAt(t.rows, i, KeyOf(t.rows[i]), from, until);
      assert KeyOf(t.rows[i]) in after;
    }
  }

  lemma AnyAt(rows: seq<Row>, i: nat, key: BucketKey, from: real, until: real)
    requires i < |rows| && InHour(rows[i], key, from, until)
    ensures AnyInHour(rows, key, from, until)
  {
  }

  lemma NewHourStays(t: Tables, now: real, days: Days, key: BucketKey)
    requires key in GroupKeys(t.rows, RollupCutoff(now, days), RawCutoff(now, days))
    ensures key in Merge(t.rollups, t.rows, RollupCutoff(now, days), RawCutoff(now, days))
    ensures key in Retained(t, now, days).rollups
  {
    var from, until := RollupCutoff(now, days), RawCutoff(now, days);
    var i :| 0 <= i < |t.rows| && from <= t.rows[i].at < until && KeyOf(t.rows[i]) == key;
    RowHasItsHour(t.rows[i], from, until);
    HourEnds(key.start, from);
  }

  lemma GoneAreOld<K>(before: set<K>, added: set<K>, left: set<K>)
    requires left <= before + added && added <= left
    ensures |before + added| - |left| == |before - left|
  {
    assert before + added == left + (before - left);
    assert |left + (before - left)| == |left| + |before - left|;
  }

  /** No hour is compacted and pruned in one pass, so the hours pruned are old ones that are gone. */
  lemma HoursGone(t: Tables, now: real, days: Days)
    ensures |Merge(t.rollups, t.rows, RollupCutoff(now, days), RawCutoff(now, days))|
            - |Retained(t, now, days).rollups| == |t.rollups.Keys - Retained(t, now, days).rollups.Keys|
  {
    hide Merge, GroupKeys, Retained, RollupCutoff, RawCutoff;
    var from, until := RollupCutoff(now, days), RawCutoff(now, days);
    var merged, after := Merge(t.rollups, t.rows, from, until), Retained(t, now, days).rollups;
    MergedOrLeft(t, now, days);
    var added := GroupKeys(t.rows, from, until);
    forall key | key in added ensures key in after.Keys {
      NewHourStays(t, now, days, key);
    }
    GoneAreOld(t.rollups.Keys, added, after.Keys);
    assert |merged| == |merged.Keys| && |after| == |after.Keys|;
  }

  lemma MergedOrLeft(t: Tables, now: real, days: Days)
    ensures var from, until := RollupCutoff(now, days), RawCutoff(now, days);
            && Merge(t.rollups, t.rows, from, until).Keys == t.rollups.Keys + GroupKeys(t.rows, from, until)
            && Retained(t, now, days).rollups.Keys <= Merge(t.rollups, t.rows, from, until).Keys
  {
    hide RollupCutoff, RawCutoff;
  }
}
