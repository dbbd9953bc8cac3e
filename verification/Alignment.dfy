/** When a chart may start inside an hour: exactly when nothing can lie before its start. */
module Alignment {
  import opened Models
  import opened Ledger
  import opened Retention
  import opened Schedule
  import opened Queries
  import opened Chart
  import opened Overlap
  import opened Reader
  import opened XrayHalf

  /** From this start on, every compacted database draws the hourly figures of its full history. */
  ghost predicate ChartsAgree(since: int) {
    forall events: seq<Event>, column: Column, hour: int | RollupCutoffsAtMost(events, since as real) ::
      HourTotal(WriterSeries(Run(events), since), column, hour)
          == HourTotal(WriterSeries(Unpruned(events), since), column, hour)
  }

  // ---------- inside an hour ----------

  const ETHERNET := Series("host", "network_receive_bytes_total", map["interface" := "eth0"])

  lemma EthernetIsCharted()
    ensures Classify(ETHERNET) == Some(Host(RxBytes))
  {
    var name := "eth0";
    assert name[0] == 'e';
    forall i | 0 <= i < |VIRTUAL_INTERFACE_PREFIXES| ensures !(VIRTUAL_INTERFACE_PREFIXES[i] <= name) {
      assert VIRTUAL_INTERFACE_PREFIXES[i][0] != 'e';
    }
  }

  /** Two readings in one hour, one byte apart. */
  function FirstReading(hour: Timestamp): CounterObservation {
    CounterObservation(hour, ETHERNET, 0, "boot")
  }

  function SecondReading(hour: Timestamp): CounterObservation {
    CounterObservation(hour + 0.5, ETHERNET, 1, "boot")
  }

  function Readings(hour: Timestamp): Event {
    Record(Batch([], [FirstReading(hour), SecondReading(hour)], []))
  }

  function ReadingRows(hour: Timestamp): seq<Row> {
    [Row(hour, ETHERNET, "boot", 0, 0, true, false), Row(hour + 0.5, ETHERNET, "boot", 1, 1, false, false)]
  }

  lemma PairRecorded(cursors: Cursors, a: CounterObservation, b: CounterObservation, first: Row, second: Row)
    requires Derive(cursors, a) == Done(first) && Derive(Advance(cursors, first), b) == Done(second)
    ensures RecordAll(cursors, [a, b]) == Done(Recorded([first, second], Advance(Advance(cursors, first), second)))
  {
    hide Derive, Advance;
    RecordOneMore(cursors, [], a);
    assert [] + [a] == [a] && [] + [first] == [first];
    RecordOneMore(cursors, [a], b);
    assert [a] + [b] == [a, b] && [first] + [second] == [first, second];
  }

  lemma ReadingsRecorded(hour: Timestamp)
    ensures Run([Readings(hour)]).rows == ReadingRows(hour) && Run([Readings(hour)]).rollups == map[]
    ensures Unpruned([Readings(hour)]) == Run([Readings(hour)])
  {
    var event, none: Cursors := Readings(hour), map[];
    var rows := ReadingRows(hour);
    PairRecorded(none, FirstReading(hour), SecondReading(hour), rows[0], rows[1]);
    assert rows == [rows[0], rows[1]];
    hide RecordAll, Derive;
    assert [event][..0] == [];
    assert Run([event]) == Apply(EMPTY_TABLES, event);
    UnprunedStep([event]);
  }

  lemma ReadingsTally(start: int, until: real)
    requires start >= 0 && start % 3600 == 0 && until > start as real + 0.5
    ensures Tally(ReadingRows(start as real), BucketKey(start, ETHERNET), start as real, until) == Some(Bucket(1, 0))
  {
    var hour, key := start as real, BucketKey(start, ETHERNET);
    var rows := ReadingRows(hour);
    HourUnique(hour, start);
    HourUnique(hour + 0.5, start);
    HourBounds(hour);
    HourBounds(hour + 0.5);
    assert rows == [rows[0]] + [rows[1]];
    TallyConcat([rows[0]], [rows[1]], key, hour, until);
    SingleTally(rows[0], key, hour, until);
    SingleTally(rows[1], key, hour, until);
  }

  const USUAL_DAYS: Days := DaySettings(7, 400)

  /** A pass whose rollup cutoff is the given instant. */
  function PassAt(cutoff: real): Event {
    Retain(cutoff + (400 * 86400) as real, USUAL_DAYS)
  }

  lemma InsideHour(since: int) returns (start: int)
    requires since % 3600 != 0 && since > 0
    ensures 0 <= start < since < start + 3600 && start % 3600 == 0 && SinceHour(since) == start
  {
    start := since / 3600 * 3600;
  }

  lemma ByteIsCompacted(start: int)
    requires 0 <= start && start % 3600 == 0
    ensures Lookup(Run([Readings(start as real), PassAt(start as real)]).rollups, BucketKey(start, ETHERNET))
            == Some(Bucket(1, 0))
  {
    var hour: Timestamp, key := start as real, BucketKey(start, ETHERNET);
    var pass := PassAt(hour);
    ReadingsRecorded(hour);
    assert [Readings(hour), pass] == [Readings(hour)] + [pass];
    LastEvent([Readings(hour)], pass);
    RetainedLookup(Run([Readings(hour)]), pass.now, pass.days, key);
    ReadingsTally(start, RawCutoff(pass.now, pass.days));
    HourUnique(hour, start);
  }

  /** Compacted, the byte that lies before the start of the chart is drawn. */
  lemma CompactedByteIsDrawn(since: int, start: int)
    requires 0 <= start < since < start + 3600 && start % 3600 == 0 && SinceHour(since) == start
    ensures Traffic(Run([Readings(start as real), PassAt(start as real)]),
            HourQuery(since, Host(RxBytes), start / 3600)) >= 1
  {
    var key, q := BucketKey(start, ETHERNET), HourQuery(since, Host(RxBytes), start / 3600);
    var rollups := Run([Readings(start as real), PassAt(start as real)]).rollups;
    ByteIsCompacted(start);
    EthernetIsCharted();
    BucketMinute(start);
    assert HitsBucket(q, key);
    hide Run, HitsBucket, Index, Classify;
    RollupSumWithout(rollups, key, q);
  }

  lemma BucketMinute(start: int)
    requires start % 3600 == 0
    ensures Index(MINUTES, start as real) == start / 3600 * 60
  {
    var x := (start as real - 0 as real) / 60 as real;
    assert x * 60.0 == start as real == (start / 3600 * 60) as real * 60.0;
    assert x == (start / 3600 * 60) as real;
  }

  /** Raw, it is not, and nothing else is. */
  lemma RawByteIsNotDrawn(q: Query, start: int)
    requires 0 <= start < q.since
    ensures Traffic(Unpruned([Readings(start as real), PassAt(start as real)]), q) == 0
  {
    hide Classify;
    var hour: Timestamp := start as real;
    var events := [Readings(hour), PassAt(hour)];
    ReadingsRecorded(hour);
    UnprunedStep(events);
    assert events[..1] == [Readings(hour)];
    hide Run, Batches, Readings;
    NoRowsNoSum(ReadingRows(hour), q);
    NoBucketsNoSum(map[], q);
  }

  function CompactedByte(start: int): seq<Event>
    requires start >= 0
  {
    [Readings(start as real), PassAt(start as real)]
  }

  lemma ChartShowsCompactedByte(since: int, start: int)
    requires 0 <= start < since < start + 3600 && start % 3600 == 0 && SinceHour(since) == start
    ensures HourTotal(WriterSeries(Run(CompactedByte(start)), since), HostRx, start / 3600) > 0
  {
    CompactedByteIsDrawn(since, start);
    hide Run, HourTotal, WriterSeries, Traffic, Readings;
    HourIsTraffic(Run(CompactedByte(start)), since, HostRx, start / 3600);
  }

  lemma HistoryShowsNothing(since: int, start: int)
    requires 0 <= start < since
    ensures WriterTotal(WriterSeries(Unpruned(CompactedByte(start)), since), true) == 0
  {
    hide Unpruned, WriterSeries, Traffic, Readings, WriterTotal;
    var q := MinutesCover(Unpruned(CompactedByte(start)), since, true);
    RawByteIsNotDrawn(q, start);
    WriterTotalIsTraffic(Unpruned(CompactedByte(start)), q, true);
  }

  lemma PassIsEarly(since: int, start: int)
    requires 0 <= start < since
    ensures RollupCutoffsAtMost(CompactedByte(start), since as real)
  {
    assert CompactedByte(start)[0].Record? && CompactedByte(start)[1] == PassAt(start as real);
  }

  /** The witness of every other start. */
  lemma OverlappingHour(since: int) returns (events: seq<Event>, hour: int)
    requires since % 3600 != 0 && since > 0
    ensures RollupCutoffsAtMost(events, since as real)
    ensures HourTotal(WriterSeries(Run(events), since), HostRx, hour) > 0
    ensures WriterTotal(WriterSeries(Unpruned(events), since), true) == 0
  {
    hide CompactedByte, HourTotal, WriterSeries, WriterTotal, Run, Unpruned, RollupCutoffsAtMost;
    var start := InsideHour(since);
    hour := start / 3600;
    events := CompactedByte(start);
    PassIsEarly(since, start);
    ChartShowsCompactedByte(since, start);
    HistoryShowsNothing(since, start);
  }

  /** An hour is part of the whole. */
  lemma {:induction false} HourAtMostTotal(points: seq<Point>, hour: int)
    ensures HourTotal(points, HostRx, hour) <= WriterTotal(points, true)
  {
    if points == [] {
    } else {
      HourAtMostTotal(points[..|points| - 1], hour);
    }
  }

  /** Query refinement holds exactly from whole hours and from before the epoch. */
  lemma RefinementExactly(since: int)
    ensures ChartsAgree(since) <==> since % 3600 == 0 || since <= 0
  {
    hide WriterSeries, HourTotal, WriterTotal;
    if since % 3600 == 0 || since <= 0 {
      forall events: seq<Event>, column: Column, hour: int | RollupCutoffsAtMost(events, since as real)
        ensures HourTotal(WriterSeries(Run(events), since), column, hour)
                == HourTotal(WriterSeries(Unpruned(events), since), column, hour)
      {
        NoOverlap(Run(events), since);
        AnyStart(events, since, column, hour);
      }
    } else {
      var events, hour := OverlappingHour(since);
      HourAtMostTotal(WriterSeries(Unpruned(events), since), hour);
      assert !(HourTotal(WriterSeries(Run(events), since), HostRx, hour)
               == HourTotal(WriterSeries(Unpruned(events), since), HostRx, hour));
    }
  }

  /** From this start on, every compacted database gives the reader's host totals of its full history,
      over all its points, before the oldest are cut. */
  ghost predicate ReaderTotalsAgree(since: int) {
    forall events: seq<Event>, grid: TimeGrid, full: TimeGrid,
           xray: map<int, XrayBucket>, xray': map<int, XrayBucket>, rx: bool |
      RollupCutoffsAtMost(events, since as real) ::
      ReaderTotal(ReaderSeries(Run(events), since, grid, xray), rx)
      == ReaderTotal(ReaderSeries(Unpruned(events), since, full, xray'), rx)
  }

  /** The same for the reader: before the cut its host totals are those of the full history exactly from such starts. */
  lemma ReaderTotalsExactly(since: int)
    ensures ReaderTotalsAgree(since) <==> since % 3600 == 0 || since <= 0
  {
    hide WriterSeries, HourTotal, WriterTotal, ReaderTotal, ReaderSeries, Run, Unpruned;
    if since % 3600 == 0 || since <= 0 {
      forall events: seq<Event>, grid: TimeGrid, full: TimeGrid,
             xray: map<int, XrayBucket>, xray': map<int, XrayBucket>, rx: bool |
        RollupCutoffsAtMost(events, since as real)
        ensures ReaderTotal(ReaderSeries(Run(events), since, grid, xray), rx)
                == ReaderTotal(ReaderSeries(Unpruned(events), since, full, xray'), rx)
      {
        NoOverlap(Run(events), since);
        ReaderTotalsSurviveRetention(events, since, grid, full, xray, xray', rx);
      }
    } else {
      var events, hour := OverlappingHour(since);
      HourAtMostTotal(WriterSeries(Run(events), since), hour);
      var none: map<int, XrayBucket> := map[];
      ReaderAgreesWithWriter(Run(events), since, MINUTES, none, true);
      ReaderAgreesWithWriter(Unpruned(events), since, MINUTES, none, true);
      assert !(ReaderTotal(ReaderSeries(Run(events), since, MINUTES, none), true)
               == ReaderTotal(ReaderSeries(Unpruned(events), since, MINUTES, none), true));
    }
  }
}
