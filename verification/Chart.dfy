/** The chart the writer draws, hour by hour: compaction does not change it. */
module Chart {
  import opened Models
  import opened Ledger
  import opened Retention
  import opened Orders
  import opened Queries
  import opened Refinement

  // ---------- traffic over a range of grid cells ----------

  lemma {:induction false} RowSumSplit(rows: seq<Row>, q: Query, middle: int)
    requires q.low <= middle <= q.high
    ensures RowSum(rows, q) == RowSum(rows, q.(high := middle)) + RowSum(rows, q.(low := middle))
  {
    hide Classify;
    if rows == [] {
    } else {
      RowSumSplit(rows[..|rows| - 1], q, middle);
    }
  }

  lemma {:induction false} RollupSumSplit(rollups: Rollups, q: Query, middle: int)
    requires q.low <= middle <= q.high
    ensures RollupSum(rollups, q) == RollupSum(rollups, q.(high := middle)) + RollupSum(rollups, q.(low := middle))
    decreases |rollups|
  {
    if rollups == map[] {
    } else {
      var key :| key in rollups;
      Smaller(rollups, key);
      RollupSumWithout(rollups, key, q);
      RollupSumWithout(rollups, key, q.(high := middle));
      RollupSumWithout(rollups, key, q.(low := middle));
      RollupSumSplit(rollups - {key}, q, middle);
    }
  }

  lemma TrafficSplit(t: Tables, q: Query, middle: int)
    requires q.low <= middle <= q.high
    ensures Traffic(t, q) == Traffic(t, q.(high := middle)) + Traffic(t, q.(low := middle))
  {
    RowSumSplit(t.rows, q, middle);
    RollupSumSplit(t.rollups, q, middle);
  }

  lemma {:induction false} NoRowsNoSum(rows: seq<Row>, q: Query)
    requires forall i | 0 <= i < |rows| :: !HitsRow(q, rows[i])
    ensures RowSum(rows, q) == 0
  {
    if rows == [] {
    } else {
      NoRowsNoSum(rows[..|rows| - 1], q);
    }
  }

  lemma {:induction false} NoBucketsNoSum(rollups: Rollups, q: Query)
    requires forall key | key in rollups :: !HitsBucket(q, key)
    ensures RollupSum(rollups, q) == 0
    decreases |rollups|
  {
    if rollups == map[] {
    } else {
      var key :| key in rollups;
      Smaller(rollups, key);
      RollupSumWithout(rollups, key, q);
      NoBucketsNoSum(rollups - {key}, q);
    }
  }

  lemma NoCellsNoTraffic(t: Tables, q: Query)
    requires forall i | q.low <= i < q.high :: (q.selector, i) !in Cells(t, q.since, q.grid)
    ensures Traffic(t, q) == 0
  {
    hide Classify;
    forall i | 0 <= i < |t.rows| ensures !HitsRow(q, t.rows[i]) {
      assert HitsRow(q, t.rows[i]) ==> (q.selector, Index(q.grid, t.rows[i].at)) in Cells(t, q.since, q.grid);
    }
    forall key | key in t.rollups ensures !HitsBucket(q, key) {
      assert HitsBucket(q, key) ==> (q.selector, Index(q.grid, key.start as real)) in Cells(t, q.since, q.grid);
    }
    NoRowsNoSum(t.rows, q);
    NoBucketsNoSum(t.rollups, q);
  }

  // ---------- adding up a chart ----------

  /** The listed cells of a figure that lie in the query's range, added up. */
  ghost function ListedSum(t: Tables, q: Query, listed: seq<int>): nat {
    if listed == [] then
      0
    else
      var last := listed[|listed| - 1];
      ListedSum(t, q, listed[..|listed| - 1])
      + if q.low <= last < q.high then CellTraffic(t, q.since, q.grid, (q.selector, last)) else 0
  }

  lemma {:induction false} ListedSumEarlier(t: Tables, q: Query, listed: seq<int>, high: int)
    requires forall i | 0 <= i < |listed| :: listed[i] < q.high && listed[i] < high
    ensures ListedSum(t, q, listed) == ListedSum(t, q.(high := high), listed)
  {
    hide Classify;
    if listed == [] {
    } else {
      ListedSumEarlier(t, q, listed[..|listed| - 1], high);
    }
  }

  lemma {:induction false} NothingListed(t: Tables, q: Query, listed: seq<int>)
    requires forall i | 0 <= i < |listed| :: listed[i] < q.low
    ensures ListedSum(t, q, listed) == 0
  {
    hide Classify;
    if listed == [] {
    } else {
      NothingListed(t, q, listed[..|listed| - 1]);
    }
  }

  predicate Lists(t: Tables, q: Query, listed: seq<int>) {
    forall i | q.low <= i < q.high && (q.selector, i) in Cells(t, q.since, q.grid) :: i in listed
  }

  /** The part of a query before a cell, the cell, and nothing after it. */
  lemma SplitOffLast(t: Tables, q: Query, last: int)
    requires q.low <= last < q.high
    requires forall i | last < i < q.high :: (q.selector, i) !in Cells(t, q.since, q.grid)
    ensures Traffic(t, q) == Traffic(t, q.(high := last)) + CellTraffic(t, q.since, q.grid, (q.selector, last))
  {
    hide Classify;
    TrafficSplit(t, q, last);
    TrafficSplit(t, q.(low := last), last + 1);
    NoCellsNoTraffic(t, q.(low := last + 1));
    assert q.(low := last).(high := last + 1) == CellQuery(q.since, q.grid, (q.selector, last));
  }

  /** An ascending list that misses no cell with a record misses no traffic. */
  lemma {:induction false} ListedTraffic(t: Tables, q: Query, listed: seq<int>)
    requires Ascending(IntLess, listed) && Lists(t, q, listed) && q.low <= q.high
    ensures ListedSum(t, q, listed) == Traffic(t, q)
    decreases |listed|
  {
    hide Classify;
    if listed == [] {
      NoCellsNoTraffic(t, q);
    } else {
      var front, last := listed[..|listed| - 1], listed[|listed| - 1];
      assert forall i | 0 <= i < |front| :: IntLess(listed[i], listed[|front|]);
      if last >= q.high {
        ListedTraffic(t, q, front);
      } else if last < q.low {
        NoCellsNoTraffic(t, q);
        NothingListed(t, q, listed);
      } else {
        ListedSumEarlier(t, q, front, last);
        ListedTraffic(t, q.(high := last), front);
        SplitOffLast(t, q, last);
      }
    }
  }

  datatype Column = HostRx | HostTx | XrayUp | XrayDown

  function Amount(figure: Option<nat>): nat {
    if figure.Some? then figure.value else 0
  }

  function Figure(point: Point, column: Column): nat {
    match column
    case HostRx => Amount(point.hostRx)
    case HostTx => Amount(point.hostTx)
    case XrayUp => Amount(point.xrayUp)
    case XrayDown => Amount(point.xrayDown)
  }

  /** One column of a chart, summed over the points of one hour. */
  function HourTotal(points: seq<Point>, column: Column, hour: int): nat {
    if points == [] then
      0
    else
      var last := points[|points| - 1];
      HourTotal(points[..|points| - 1], column, hour)
          + if hour * 3600 <= last.timestamp < (hour + 1) * 3600 then Figure(last, column) else 0
  }

  /** The figure a column shows. */
  function SelectorOf(column: Column, shown: Option<Scope>): Option<Selector> {
    match column
    case HostRx => Some(Host(RxBytes))
    case HostTx => Some(Host(TxBytes))
    case XrayUp => if shown.Some? then Some(Xray(shown.value, Uplink)) else None
    case XrayDown => if shown.Some? then Some(Xray(shown.value, Downlink)) else None
  }

  lemma NoCellNoTraffic(t: Tables, since: int, cell: Cell)
    requires cell !in Cells(t, since, MINUTES)
    ensures CellTraffic(t, since, MINUTES, cell) == 0
  {
    hide Classify;
    NoCellsNoTraffic(t, CellQuery(since, MINUTES, cell));
  }

  lemma HostFigureIsTraffic(t: Tables, since: int, field: NetworkField, minute: int)
    ensures Amount(HostFigure(t, since, field, minute)) == CellTraffic(t, since, MINUTES, (Host(field), minute))
  {
    if (Host(field), minute) !in Cells(t, since, MINUTES) {
      NoCellNoTraffic(t, since, (Host(field), minute));
    }
  }

  lemma XrayFigureIsTraffic(t: Tables, since: int, direction: Direction, minute: int)
    ensures Amount(XrayFigure(t, since, direction, minute)) ==
            match Shown(t, since)
            case Some(scope) => CellTraffic(t, since, MINUTES, (Xray(scope, direction), minute))
            case None => 0
  {
    match Shown(t, since)
    case Some(scope) =>
      if (Xray(scope, direction), minute) !in Cells(t, since, MINUTES) {
        NoCellNoTraffic(t, since, (Xray(scope, direction), minute));
      }
    case None =>
  }

  lemma FigureIsTraffic(t: Tables, since: int, minute: int, column: Column)
    ensures Figure(PointAt(t, since, minute), column) ==
            match SelectorOf(column, Shown(t, since))
            case Some(selector) => CellTraffic(t, since, MINUTES, (selector, minute))
            case None => 0
  {
    HostFigureIsTraffic(t, since, RxBytes, minute);
    HostFigureIsTraffic(t, since, TxBytes, minute);
    XrayFigureIsTraffic(t, since, Uplink, minute);
    XrayFigureIsTraffic(t, since, Downlink, minute);
  }

  function HourQuery(since: int, selector: Selector, hour: int): Query {
    Query(since, selector, MINUTES, hour * 60, hour * 60 + 60)
  }

  lemma {:induction false} HourOfPoints(t: Tables, since: int, minutes: seq<int>, column: Column, hour: int)
    ensures HourTotal(PointsAt(t, since, minutes), column, hour) ==
            match SelectorOf(column, Shown(t, since))
            case Some(selector) => ListedSum(t, HourQuery(since, selector, hour), minutes)
            case None => 0
  {
    hide Classify;
    if minutes == [] {
    } else {
      var front, last := minutes[..|minutes| - 1], minutes[|minutes| - 1];
      var points := PointsAt(t, since, minutes);
      HourOfPoints(t, since, front, column, hour);
      assert points[..|points| - 1] == PointsAt(t, since, front);
      assert points[|points| - 1] == PointAt(t, since, last);
      FigureIsTraffic(t, since, last, column);
      assert hour * 3600 <= last * 60 < (hour + 1) * 3600 <==> hour * 60 <= last < hour * 60 + 60;
    }
  }

  lemma MinutesListSelector(t: Tables, q: Query)
    requires q.grid == MINUTES && Charted(q.selector, Shown(t, q.since))
    ensures Lists(t, q, Minutes(t, q.since))
  {
    forall m | q.low <= m < q.high && (q.selector, m) in Cells(t, q.since, MINUTES) ensures m in Minutes(t, q.since) {
      var cell := (q.selector, m);
      assert cell.1 in ChartedMinutes(Cells(t, q.since, MINUTES));
      assert m in Elements(Minutes(t, q.since));
    }
  }

  /** What the tables hold for a column in one hour, given the shown scope. */
  ghost function HourTraffic(t: Tables, since: int, shown: Option<Scope>, column: Column, hour: int): nat {
    match SelectorOf(column, shown)
    case Some(selector) => Traffic(t, HourQuery(since, selector, hour))
    case None => 0
  }

  /** The chart of an hour is the traffic of that hour. */
  lemma HourIsTraffic(t: Tables, since: int, column: Column, hour: int)
    ensures HourTotal(WriterSeries(t, since), column, hour) == HourTraffic(t, since, Shown(t, since), column, hour)
  {
    var minutes := Minutes(t, since);
    HourOfPoints(t, since, minutes, column, hour);
    match SelectorOf(column, Shown(t, since))
    case Some(selector) =>
      MinutesListSelector(t, HourQuery(since, selector, hour));
      ListedTraffic(t, HourQuery(since, selector, hour), minutes);
    case None =>
  }

  lemma SameHourTraffic(events: seq<Event>, since: int, shown: Option<Scope>, column: Column, hour: int)
    requires since % 3600 == 0 && RollupCutoffsAtMost(events, since as real)
    ensures HourTraffic(Run(events), since, shown, column, hour)
            == HourTraffic(Unpruned(events), since, shown, column, hour)
  {
    match SelectorOf(column, shown)
    case Some(selector) => SameTraffic(events, HourQuery(since, selector, hour));
    case None =>
  }

  /** Query refinement: from any whole hour no pass could expire, the compacted store draws the
      same hourly figures, in the same Xray scope, as the full history. */
  lemma ChartRefinement(events: seq<Event>, since: int, column: Column, hour: int)
    requires since % 3600 == 0 && RollupCutoffsAtMost(events, since as real)
    ensures Shown(Run(events), since) == Shown(Unpruned(events), since)
    ensures HourTotal(WriterSeries(Run(events), since), column, hour)
            == HourTotal(WriterSeries(Unpruned(events), since), column, hour)
  {
    SameShownScope(events, since);
    HourIsTraffic(Run(events), since, column, hour);
    HourIsTraffic(Unpruned(events), since, column, hour);
    SameHourTraffic(events, since, Shown(Unpruned(events), since), column, hour);
  }

  // ---------- the 24-hour host window ----------

  lemma WindowSumSnoc(rows: seq<Row>, row: Row, field: NetworkField, since: real)
    ensures WindowSum(rows + [row], field, since) == WindowSum(rows, field, since)
            + if row.at >= since && Classify(row.series) == Some(Host(field)) then row.delta else 0
  {
    hide Classify;
    assert (rows + [row])[..|rows + [row]| - 1] == rows;
  }

  lemma {:induction false} WindowSumSince(rows: seq<Row>, field: NetworkField, cutoff: real, since: real)
    requires cutoff <= since
    ensures WindowSum(Since(rows, RowTime, cutoff), field, since) == WindowSum(rows, field, since)
  {
    hide Classify, WindowSum;
    if rows == [] {
      assert Since(rows, RowTime, cutoff) == rows;
    } else {
      var front, last := rows[..|rows| - 1], rows[|rows| - 1];
      WindowSumSince(front, field, cutoff, since);
      assert rows == front + [last];
      WindowSumSnoc(front, last, field, since);
      WindowSumSnoc(Since(front, RowTime, cutoff), last, field, since);
      assert last.at < cutoff ==> Since(rows, RowTime, cutoff) == Since(front, RowTime, cutoff);
    }
  }

  /** A reader no earlier than any pass sees the whole last day, because raw rows are kept for a day. */
  lemma WindowLosesNothing(events: seq<Event>, field: NetworkField, readAt: real)
    requires forall i | 0 <= i < |events| && events[i].Retain? :: events[i].now <= readAt
    ensures WindowSum(Run(events).rows, field, readAt - 86400.0)
            == WindowSum(Unpruned(events).rows, field, readAt - 86400.0)
  {
    var since := readAt - 86400.0;
    forall i | 0 <= i < |events| && events[i].Retain? ensures RawCutoff(events[i].now, events[i].days) <= since {
      CutoffOrder(events[i].now, events[i].days);
    }
    RawRecordsKept(events, since);
    WindowSumSince(Run(events).rows, field, since, since);
    WindowSumSince(Unpruned(events).rows, field, since, since);
  }
}
