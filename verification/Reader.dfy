/** ReadOnlySQLiteRepository: the web reader's host series and host window. */
module Reader {
  import opened Models
  import opened Ledger
  import opened Orders
  import opened Queries
  import opened SourceNames
  import opened Chart
  import opened Accumulation
  import opened Retention
  import opened Schedule
  import opened Conservation
  import opened Refinement
  import opened Overlap
  import opened XrayHalf

  // ---------- the reader's time grid ----------

  function Max(a: int, b: int): int {
    if a >= b then a else b
  }

  /** math.ceil of a quotient of positive integers. */
  function CeilDiv(a: int, b: int): int
    requires a > 0 && b > 0
  {
    (a + b - 1) / b
  }

  /** Buckets wide enough that `limit` of them span the time from `since` to now. */
  function ReaderGrid(now: int, since: int, limit: int): TimeGrid
    requires limit > 0
  {
    Grid(since, Max(1, CeilDiv(Max(1, now - since), limit)))
  }

  lemma CeilDivCovers(a: int, b: int)
    requires a > 0 && b > 0
    ensures CeilDiv(a, b) * b >= a && CeilDiv(a, b) >= 1
  {
    var q := CeilDiv(a, b);
    assert (a + b - 1) == q * b + (a + b - 1) % b;
  }

  lemma GridSpansWindow(now: int, since: int, limit: int)
    requires limit > 0
    ensures ReaderGrid(now, since, limit).width * limit >= Max(1, now - since)
  {
    CeilDivCovers(Max(1, now - since), limit);
  }

  /** No narrower bucket would do. */
  lemma GridIsNarrowest(now: int, since: int, limit: int, width: int)
    requires limit > 0 && width > 0 && width * limit >= now - since
    ensures ReaderGrid(now, since, limit).origin == since
    ensures ReaderGrid(now, since, limit).width <= width
  {
    assert limit >= 1 && width >= 1 ==> width * limit >= 1;
    CeilDivIsLeast(Max(1, now - since), limit, width);
  }

  lemma CeilDivIsLeast(a: int, b: int, n: int)
    requires a > 0 && b > 0 && n * b >= a
    ensures CeilDiv(a, b) <= n
  {
    var q, r := CeilDiv(a, b), (a + b - 1) % b;
    assert a + b - 1 == q * b + r && 0 <= r;
    Multiple(q - n, b);
    assert (q - n) * b == q * b - n * b;
  }

  lemma Multiple(k: int, b: int)
    requires b > 0
    ensures k >= 1 ==> k * b >= b
  {
  }

  lemma QuotientAtMost(x: real, width: int, limit: int)
    requires width > 0 && limit > 0 && 0.0 <= x < (width * limit + 1) as real
    ensures 0.0 <= x / width as real < (limit + 1) as real
  {
    var w, y, n := width as real, x / width as real, limit as real;
    assert y * w == x && (width * limit + 1) as real == w * n + 1.0;
    assert (n + 1.0) * w == w * n + w;
    assert y >= n + 1.0 ==> y * w >= (n + 1.0) * w;
  }

  /** Every observation from `since` to now lands in one of the buckets 0..limit. Now is a whole second,
      and what was recorded during it counts as well. */
  lemma BucketInRange(now: int, since: int, limit: int, at: real)
    requires limit > 0 && since as real <= at < (now + 1) as real
    ensures 0 <= Index(ReaderGrid(now, since, limit), at) <= limit
  {
    var grid := ReaderGrid(now, since, limit);
    GridSpansWindow(now, since, limit);
    QuotientAtMost(at - since as real, grid.width, limit);
  }

  // ---------- the reader's series ----------

  datatype ReaderPoint = ReaderPoint(bucket: int, hostRx: nat, hostTx: nat, xrayUp: nat, xrayDown: nat)

  function HostBuckets(cells: set<Cell>): set<int> {
    set cell | cell in cells && (cell.0 == Host(RxBytes) || cell.0 == Host(TxBytes)) :: cell.1
  }

  ghost function ReaderPointAt(t: Tables, since: int, grid: TimeGrid, xray: map<int, XrayBucket>,
                               bucket: int): ReaderPoint {
    ReaderPoint(bucket,
                CellTraffic(t, since, grid, (Host(RxBytes), bucket)),
                CellTraffic(t, since, grid, (Host(TxBytes), bucket)),
                if bucket in xray then xray[bucket].up else 0, if bucket in xray then xray[bucket].down else 0)
  }

  ghost function ReaderPointsAt(t: Tables, since: int, grid: TimeGrid, xray: map<int, XrayBucket>,
                                buckets: seq<int>): seq<ReaderPoint> {
    seq(|buckets|, i requires 0 <= i < |buckets| => ReaderPointAt(t, since, grid, xray, buckets[i]))
  }

  ghost function Buckets(t: Tables, since: int, grid: TimeGrid, xray: map<int, XrayBucket>): seq<int> {
    Listing(IntLess, HostBuckets(Cells(t, since, grid)) + xray.Keys)
  }

  /** The points before the cut. */
  ghost function ReaderSeries(t: Tables, since: int, grid: TimeGrid, xray: map<int, XrayBucket>): seq<ReaderPoint> {
    ReaderPointsAt(t, since, grid, xray, Buckets(t, since, grid, xray))
  }

  function ReaderPointFrom(sums: Sums, xray: map<int, XrayBucket>, bucket: int): ReaderPoint {
    ReaderPoint(bucket, At(sums, (Host(RxBytes), bucket)), At(sums, (Host(TxBytes), bucket)),
                if bucket in xray then xray[bucket].up else 0, if bucket in xray then xray[bucket].down else 0)
  }

  method MergePoints(ghost t: Tables, ghost since: int, ghost grid: TimeGrid, sums: Sums, xray: map<int, XrayBucket>,
                     buckets: seq<int>)
    returns (points: seq<ReaderPoint>)
    requires Exact(sums, t, since, grid)
    ensures points == ReaderPointsAt(t, since, grid, xray, buckets)
  {
    hide Classify;
    points := [];
    for i := 0 to |buckets|
      invariant points == ReaderPointsAt(t, since, grid, xray, buckets[..i])
    {
      ExactAt(sums, t, since, grid, (Host(RxBytes), buckets[i]));
      ExactAt(sums, t, since, grid, (Host(TxBytes), buckets[i]));
      points := points + [ReaderPointFrom(sums, xray, buckets[i])];
    }
    assert buckets[..|buckets|] == buckets;
  }

  // ---------- the timestamps of its points ----------

  predicate HostBytesRead(series: Series) {
    Classify(series) == Some(Host(RxBytes)) || Classify(series) == Some(Host(TxBytes))
  }

  function RowTimes(rows: seq<Row>, since: int, grid: TimeGrid): set<TimeRead> {
    set i | 0 <= i < |rows| && rows[i].at >= since as real && HostBytesRead(rows[i].series) ::
      (Index(grid, rows[i].at), rows[i].at)
  }

  function BucketTimes(rollups: Rollups, since: int, grid: TimeGrid): set<TimeRead> {
    set key | key in rollups && key.start >= SinceHour(since) && HostBytesRead(key.series) ::
      (Index(grid, key.start as real), key.start as real)
  }

  /** The times of the host records a query for `since` reads. */
  function HostTimes(t: Tables, since: int, grid: TimeGrid): set<TimeRead> {
    RowTimes(t.rows, since, grid) + BucketTimes(t.rollups, since, grid)
  }

  lemma RowTimesSnoc(rows: seq<Row>, n: nat, since: int, grid: TimeGrid)
    requires n < |rows|
    ensures RowTimes(rows[..n + 1], since, grid) == RowTimes(rows[..n], since, grid)
            + if rows[n].at >= since as real && HostBytesRead(rows[n].series)
                then {(Index(grid, rows[n].at), rows[n].at)} else {}
  {
    hide HostBytesRead, Index;
    var before, after := rows[..n], rows[..n + 1];
    assert forall i | 0 <= i < n :: after[i] == before[i];
    assert after[n] == rows[n];
    forall time | time in RowTimes(before, since, grid) ensures time in RowTimes(after, since, grid) {
      var i :| 0 <= i < n && before[i].at >= since as real && HostBytesRead(before[i].series)
               && time == (Index(grid, before[i].at), before[i].at);
      assert after[i] == before[i];
    }
  }

  method RowEarliest(rows: seq<Row>, since: int, grid: TimeGrid) returns (first: map<int, real>)
    ensures Earliest(first, RowTimes(rows, since, grid))
  {
    hide HostBytesRead, Index, Earliest, Earlier;
    first := map[];
    NoTimes();
    assert RowTimes(rows[..0], since, grid) == {};
    for i := 0 to |rows|
      invariant Earliest(first, RowTimes(rows[..i], since, grid))
    {
      RowTimesSnoc(rows, i, since, grid);
      if rows[i].at >= since as real && HostBytesRead(rows[i].series) {
        var time := (Index(grid, rows[i].at), rows[i].at);
        EarlierKeeps(first, RowTimes(rows[..i], since, grid), time);
        first := Earlier(first, time);
      } else {
        assert RowTimes(rows[..i + 1], since, grid) == RowTimes(rows[..i], since, grid);
      }
    }
    assert rows[..|rows|] == rows;
  }

  /** What a rollup adds to the times, if it is read. */
  function HostTime(key: BucketKey, since: int, grid: TimeGrid): set<TimeRead> {
    if key.start >= SinceHour(since) && HostBytesRead(key.series)
    then {(Index(grid, key.start as real), key.start as real)} else {}
  }

  lemma BucketTimesWithout(rollups: Rollups, key: BucketKey, since: int, grid: TimeGrid)
    requires key in rollups
    ensures BucketTimes(rollups, since, grid) == HostTime(key, since, grid) + BucketTimes(rollups - {key}, since, grid)
  {
    hide HostBytesRead, Index, SinceHour;
  }

  method EarlierBucket(earliest: map<int, real>, ghost times: set<TimeRead>, key: BucketKey, since: int, grid: TimeGrid)
    returns (first: map<int, real>)
    requires Earliest(earliest, times)
    ensures Earliest(first, times + HostTime(key, since, grid))
  {
    hide HostBytesRead, Index, SinceHour, Earliest, Earlier;
    if key.start >= SinceHour(since) && HostBytesRead(key.series) {
      var time := (Index(grid, key.start as real), key.start as real);
      EarlierKeeps(earliest, times, time);
      first := Earlier(earliest, time);
    } else {
      first := earliest;
      assert times + HostTime(key, since, grid) == times;
    }
  }

  lemma TimesOfTables(t: Tables, since: int, grid: TimeGrid)
    ensures HostTimes(t, since, grid) == RowTimes(t.rows, since, grid) + BucketTimes(t.rollups, since, grid)
    ensures BucketTimes(map[], since, grid) == {}
  {
  }

  /** point["timestamp"] = min(point["timestamp"], observed_at), row by row and bucket by bucket. */
  method HostEarliest(t: Tables, since: int, grid: TimeGrid) returns (first: map<int, real>)
    ensures Earliest(first, HostTimes(t, since, grid))
  {
    hide *;
    first := RowEarliest(t.rows, since, grid);
    TimesOfTables(t, since, grid);
    ghost var times := RowTimes(t.rows, since, grid);
    var rest := t.rollups;
    while rest != map[]
      invariant Earliest(first, times)
      invariant times + BucketTimes(rest, since, grid) == HostTimes(t, since, grid)
      decreases |rest|
    {
      var key :| key in rest;
      Smaller(rest, key);
      BucketTimesWithout(rest, key, since, grid);
      MoveOver(times, HostTime(key, since, grid), BucketTimes(rest - {key}, since, grid));
      first := EarlierBucket(first, times, key, since, grid);
      times := times + HostTime(key, since, grid);
      rest := rest - {key};
    }
    assert times + {} == times;
  }

  /** The time a point bears: that of the earliest record drawn in it. */
  predicate IsTimestamp(t: Tables, since: int, grid: TimeGrid, xray: map<int, XrayBucket>, bucket: int, at: real) {
    && ((bucket, at) in HostTimes(t, since, grid) || (bucket in xray && xray[bucket].observedAt == at))
    && (forall time | time in HostTimes(t, since, grid) && time.0 == bucket :: at <= time.1)
    && (bucket in xray ==> at <= xray[bucket].observedAt)
  }

  lemma HostBucketHasTime(t: Tables, since: int, grid: TimeGrid, bucket: int) returns (time: TimeRead)
    requires bucket in HostBuckets(Cells(t, since, grid))
    ensures time in HostTimes(t, since, grid) && time.0 == bucket
  {
    hide Classify, Index, SinceHour;
    var cell :| cell in Cells(t, since, grid) && (cell.0 == Host(RxBytes) || cell.0 == Host(TxBytes))
        && cell.1 == bucket;
    if cell in RowCells(t.rows, since, grid) {
      var i :| 0 <= i < |t.rows| && t.rows[i].at >= since as real && Classify(t.rows[i].series).Some?
               && cell == (Classify(t.rows[i].series).value, Index(grid, t.rows[i].at));
      time := (bucket, t.rows[i].at);
    } else {
      var key :| key in t.rollups && key.start >= SinceHour(since) && Classify(key.series).Some?
                 && cell == (Classify(key.series).value, Index(grid, key.start as real));
      time := (bucket, key.start as real);
    }
  }

  method Timestamp(ghost t: Tables, ghost since: int, ghost grid: TimeGrid, first: map<int, real>,
                   xray: map<int, XrayBucket>, bucket: int) returns (at: real)
    requires Earliest(first, HostTimes(t, since, grid))
    requires bucket in HostBuckets(Cells(t, since, grid)) || bucket in xray
    ensures IsTimestamp(t, since, grid, xray, bucket, at)
  {
    hide Cells, HostTimes, HostBuckets;
    if bucket !in first {
      if bucket !in xray {
        ghost var time := HostBucketHasTime(t, since, grid, bucket);
      }
      at := xray[bucket].observedAt;
    } else if bucket in xray && xray[bucket].observedAt < first[bucket] {
      at := xray[bucket].observedAt;
    } else {
      at := first[bucket];
    }
  }

  method Timestamps(ghost t: Tables, ghost since: int, ghost grid: TimeGrid, first: map<int, real>,
                    xray: map<int, XrayBucket>, points: seq<ReaderPoint>) returns (timestamps: seq<real>)
    requires Earliest(first, HostTimes(t, since, grid))
    requires forall i | 0 <= i < |points| ::
               points[i].bucket in HostBuckets(Cells(t, since, grid)) || points[i].bucket in xray
    ensures |timestamps| == |points|
    ensures forall i | 0 <= i < |points| :: IsTimestamp(t, since, grid, xray, points[i].bucket, timestamps[i])
  {
    hide Cells, HostTimes, HostBuckets, Earliest, IsTimestamp;
    timestamps := [];
    for i := 0 to |points|
      invariant |timestamps| == i
      invariant forall j | 0 <= j < i :: IsTimestamp(t, since, grid, xray, points[j].bucket, timestamps[j])
    {
      var at := Timestamp(t, since, grid, first, xray, points[i].bucket);
      timestamps := timestamps + [at];
    }
  }

  /** Every point of the chart is a bucket with a record. */
  lemma PointsAreRead(t: Tables, since: int, grid: TimeGrid, xray: map<int, XrayBucket>, limit: nat,
                      points: seq<ReaderPoint>)
    requires points == Newest(ReaderSeries(t, since, grid, xray), limit)
    ensures forall i | 0 <= i < |points| ::
              points[i].bucket in HostBuckets(Cells(t, since, grid)) || points[i].bucket in xray
  {
    hide Cells, HostBuckets, CellTraffic;
    var buckets := Buckets(t, since, grid, xray);
    forall i | 0 <= i < |points|
      ensures points[i].bucket in HostBuckets(Cells(t, since, grid)) || points[i].bucket in xray
    {
      assert points[i].bucket in Elements(buckets);
    }
  }

  /** The points of the chart and the times they bear. */
  method Series(t: Tables, now: int, since: int, limit: int)
    returns (points: seq<ReaderPoint>, timestamps: seq<real>, ghost xray: map<int, XrayBucket>)
    requires limit > 0
    ensures IsXrayHalf(t, since, ReaderGrid(now, since, limit), limit, xray)
    ensures points == Newest(ReaderSeries(t, since, ReaderGrid(now, since, limit), xray), limit)
    ensures |timestamps| == |points| <= limit
    ensures forall i | 0 <= i < |points| ::
              IsTimestamp(t, since, ReaderGrid(now, since, limit), xray, points[i].bucket, timestamps[i])
  {
    hide Cells, HostTimes, HostBuckets, Earliest, IsTimestamp, ReaderGrid, IsXrayHalf, ReaderPointsAt, Newest;
    var grid := ReaderGrid(now, since, limit);
    var sums := Accumulate(t, since, grid);
    var first := HostEarliest(t, since, grid);
    var groups := QueryXray(t, since, grid, limit);
    xray := groups;
    var buckets := Sorted(IntLess, HostBuckets(sums.Keys) + groups.Keys);
    points := MergePoints(t, since, grid, sums, groups, buckets);
    points := Newest(points, limit);
    PointsAreRead(t, since, grid, groups, limit, points);
    timestamps := Timestamps(t, since, grid, first, groups, points);
  }

  // ---------- reader and writer agree on host totals ----------

  /** The query covers every cell in which its figure has a record. */
  predicate CoversAll(t: Tables, q: Query) {
    forall cell | cell in Cells(t, q.since, q.grid) && cell.0 == q.selector :: q.low <= cell.1 < q.high
  }

  lemma CoveringQueriesAgree(t: Tables, q: Query, q': Query)
    requires q.since == q'.since && q.selector == q'.selector && CoversAll(t, q) && CoversAll(t, q')
    ensures Traffic(t, q) == Traffic(t, q')
  {
    forall i | 0 <= i < |t.rows| ensures HitsRow(q, t.rows[i]) <==> HitsRow(q', t.rows[i]) {
      RowCovered(t, q, i);
      RowCovered(t, q', i);
    }
    forall key | key in t.rollups ensures HitsBucket(q, key) <==> HitsBucket(q', key) {
      BucketCovered(t, q, key);
      BucketCovered(t, q', key);
    }
    RowSumSameHits(t.rows, q, q');
    RollupSumSameHits(t.rollups, q, q');
  }

  lemma RowCovered(t: Tables, q: Query, i: nat)
    requires CoversAll(t, q) && i < |t.rows|
    ensures HitsRow(q, t.rows[i]) <==> t.rows[i].at >= q.since as real && Classify(t.rows[i].series) == Some(q.selector)
  {
    if t.rows[i].at >= q.since as real && Classify(t.rows[i].series) == Some(q.selector) {
      var cell := (q.selector, Index(q.grid, t.rows[i].at));
      assert cell in Cells(t, q.since, q.grid);
    }
  }

  lemma BucketCovered(t: Tables, q: Query, key: BucketKey)
    requires CoversAll(t, q) && key in t.rollups
    ensures HitsBucket(q, key) <==> key.start >= SinceHour(q.since) && Classify(key.series) == Some(q.selector)
  {
    if key.start >= SinceHour(q.since) && Classify(key.series) == Some(q.selector) {
      var cell := (q.selector, Index(q.grid, key.start as real));
      assert cell in Cells(t, q.since, q.grid);
    }
  }

  /** The range of an ascending listing. */
  function Spanning(since: int, selector: Selector, grid: TimeGrid, listed: seq<int>): Query {
    if listed == [] then Query(since, selector, grid, 0, 0)
    else Query(since, selector, grid, listed[0], listed[|listed| - 1] + 1)
  }

  predicate ListsAll(t: Tables, since: int, selector: Selector, grid: TimeGrid, listed: seq<int>) {
    forall cell | cell in Cells(t, since, grid) && cell.0 == selector :: cell.1 in listed
  }

  lemma SpanningCovers(t: Tables, since: int, selector: Selector, grid: TimeGrid, listed: seq<int>)
    requires Ascending(IntLess, listed) && ListsAll(t, since, selector, grid, listed)
    ensures CoversAll(t, Spanning(since, selector, grid, listed))
    ensures Lists(t, Spanning(since, selector, grid, listed), listed)
    ensures forall i | 0 <= i < |listed| ::
              Spanning(since, selector, grid, listed).low <= listed[i] < Spanning(since, selector, grid, listed).high
    ensures Spanning(since, selector, grid, listed).low <= Spanning(since, selector, grid, listed).high
  {
    var q := Spanning(since, selector, grid, listed);
    forall i | 0 <= i < |listed| ensures q.low <= listed[i] < q.high {
      assert i > 0 ==> IntLess(listed[0], listed[i]);
      assert i < |listed| - 1 ==> IntLess(listed[i], listed[|listed| - 1]);
    }
    forall i | q.low <= i < q.high && (selector, i) in Cells(t, since, grid) ensures i in listed {
      assert (selector, i).1 in listed;
    }
  }

  function ReaderTotal(points: seq<ReaderPoint>, rx: bool): nat {
    if points == [] then 0
    else
      var last := points[|points| - 1];
      ReaderTotal(points[..|points| - 1], rx) + if rx then last.hostRx else last.hostTx
  }

  function WriterTotal(points: seq<Point>, rx: bool): nat {
    if points == [] then 0
    else WriterTotal(points[..|points| - 1], rx) + Figure(points[|points| - 1], if rx then HostRx else HostTx)
  }

  function HostBytes(rx: bool): Selector {
    Host(if rx then RxBytes else TxBytes)
  }

  lemma {:induction false} ReaderTotalListed(t: Tables, q: Query, xray: map<int, XrayBucket>, listed: seq<int>,
                                             rx: bool)
    requires q.selector == HostBytes(rx) && forall i | 0 <= i < |listed| :: q.low <= listed[i] < q.high
    ensures ReaderTotal(ReaderPointsAt(t, q.since, q.grid, xray, listed), rx) == ListedSum(t, q, listed)
  {
    if listed == [] {
    } else {
      var front, points := listed[..|listed| - 1], ReaderPointsAt(t, q.since, q.grid, xray, listed);
      ReaderTotalListed(t, q, xray, front, rx);
      assert points[..|points| - 1] == ReaderPointsAt(t, q.since, q.grid, xray, front);
    }
  }

  lemma {:induction false} WriterTotalListed(t: Tables, q: Query, listed: seq<int>, rx: bool)
    requires q.selector == HostBytes(rx) && q.grid == MINUTES
    requires forall i | 0 <= i < |listed| :: q.low <= listed[i] < q.high
    ensures WriterTotal(PointsAt(t, q.since, listed), rx) == ListedSum(t, q, listed)
  {
    if listed == [] {
    } else {
      var front, points := listed[..|listed| - 1], PointsAt(t, q.since, listed);
      WriterTotalListed(t, q, front, rx);
      assert points[..|points| - 1] == PointsAt(t, q.since, front);
      FigureIsTraffic(t, q.since, listed[|listed| - 1], if rx then HostRx else HostTx);
    }
  }

  lemma ReaderListsAll(t: Tables, since: int, grid: TimeGrid, xray: map<int, XrayBucket>, rx: bool)
    ensures ListsAll(t, since, HostBytes(rx), grid, Buckets(t, since, grid, xray))
  {
    var listed := Buckets(t, since, grid, xray);
    forall cell | cell in Cells(t, since, grid) && cell.0 == HostBytes(rx) ensures cell.1 in listed {
      assert cell.1 in HostBuckets(Cells(t, since, grid));
      assert cell.1 in Elements(listed);
    }
  }

  lemma WriterListsAll(t: Tables, since: int, rx: bool)
    ensures ListsAll(t, since, HostBytes(rx), MINUTES, Minutes(t, since))
  {
    var listed := Minutes(t, since);
    forall cell | cell in Cells(t, since, MINUTES) && cell.0 == HostBytes(rx) ensures cell.1 in listed {
      assert cell.1 in ChartedMinutes(Cells(t, since, MINUTES));
      assert cell.1 in Elements(listed);
    }
  }

  /** Before the cut, the reader and the writer show the same host bytes in total, whatever
      the width of the reader's buckets and whatever its Xray half returned. */
  lemma ReaderAgreesWithWriter(t: Tables, since: int, grid: TimeGrid, xray: map<int, XrayBucket>, rx: bool)
    ensures ReaderTotal(ReaderSeries(t, since, grid, xray), rx) == WriterTotal(WriterSeries(t, since), rx)
  {
    var buckets, minutes := Buckets(t, since, grid, xray), Minutes(t, since);
    var q, q' := Spanning(since, HostBytes(rx), grid, buckets), Spanning(since, HostBytes(rx), MINUTES, minutes);
    ReaderListsAll(t, since, grid, xray, rx);
    WriterListsAll(t, since, rx);
    SpanningCovers(t, since, HostBytes(rx), grid, buckets);
    SpanningCovers(t, since, HostBytes(rx), MINUTES, minutes);
    ReaderTotalListed(t, q, xray, buckets, rx);
    WriterTotalListed(t, q', minutes, rx);
    ListedTraffic(t, q, buckets);
    ListedTraffic(t, q', minutes);
    CoveringQueriesAgree(t, q, q');
  }

  lemma WiderStillCovers(t: Tables, q: Query, low: int, high: int)
    requires CoversAll(t, q) && low <= q.low && q.high <= high
    ensures CoversAll(t, q.(low := low, high := high))
  {
    hide Cells;
  }

  lemma MinutesCover(t: Tables, since: int, rx: bool) returns (q: Query)
    ensures q.since == since && q.selector == HostBytes(rx) && q.grid == MINUTES && CoversAll(t, q)
  {
    hide CoversAll, Cells;
    WriterListsAll(t, since, rx);
    SpanningCovers(t, since, HostBytes(rx), MINUTES, Minutes(t, since));
    q := Spanning(since, HostBytes(rx), MINUTES, Minutes(t, since));
  }

  /** A range of whole hours of minutes around all cells of two tables. */
  lemma WholeHoursAround(t: Tables, u: Tables, since: int, rx: bool) returns (q: Query)
    ensures q.since == since && q.selector == HostBytes(rx) && HourRange(q) && CoversAll(t, q) && CoversAll(u, q)
  {
    hide CoversAll;
    var p := MinutesCover(t, since, rx);
    var r := MinutesCover(u, since, rx);
    var low, high := -Max(-p.low, -r.low) / 60 * 60, (Max(p.high, r.high) / 60 + 1) * 60;
    q := Query(since, HostBytes(rx), MINUTES, low, high);
    WiderStillCovers(t, p, low, high);
    WiderStillCovers(u, r, low, high);
  }

  lemma WriterTotalIsTraffic(t: Tables, q: Query, rx: bool)
    requires q.selector == HostBytes(rx) && q.grid == MINUTES && CoversAll(t, q)
    ensures WriterTotal(WriterSeries(t, q.since), rx) == Traffic(t, q)
  {
    var minutes := Minutes(t, q.since);
    var p := Spanning(q.since, HostBytes(rx), MINUTES, minutes);
    WriterListsAll(t, q.since, rx);
    SpanningCovers(t, q.since, HostBytes(rx), MINUTES, minutes);
    WriterTotalListed(t, p, minutes, rx);
    ListedTraffic(t, p, minutes);
    CoveringQueriesAgree(t, p, q);
  }

  /** Before the cut, and whatever the start: the reader's host totals over the compacted store are never
      below those over the full history, and with no bucket across the start they are the same, even if
      the two are drawn on different grids. */
  lemma ReaderTotalsSurviveRetention(events: seq<Event>, since: int, grid: TimeGrid, full: TimeGrid,
                                     xray: map<int, XrayBucket>, xray': map<int, XrayBucket>, rx: bool)
    requires RollupCutoffsAtMost(events, since as real)
    ensures ReaderTotal(ReaderSeries(Run(events), since, grid, xray), rx)
            >= ReaderTotal(ReaderSeries(Unpruned(events), since, full, xray'), rx)
    ensures !OverlapRead(Run(events), since) ==>
              ReaderTotal(ReaderSeries(Run(events), since, grid, xray), rx)
              == ReaderTotal(ReaderSeries(Unpruned(events), since, full, xray'), rx)
  {
    hide CoversAll, Traffic, OverlapRead, ReaderTotal, WriterTotal;
    var q := WholeHoursAround(Run(events), Unpruned(events), since, rx);
    CompactionHidesNothing(events, q);
    if !OverlapRead(Run(events), since) {
      UnoverlappedTraffic(events, q);
    }
    WriterTotalIsTraffic(Run(events), q, rx);
    WriterTotalIsTraffic(Unpruned(events), q, rx);
    ReaderAgreesWithWriter(Run(events), since, grid, xray, rx);
    ReaderAgreesWithWriter(Unpruned(events), since, full, xray', rx);
  }

  // ---------- the cut ----------

  /** An ascending listing of numbers below `high`, but for a few others, is not much longer than `high`. */
  lemma {:induction false} AscendingExcept(listed: seq<int>, high: nat, others: set<int>)
    requires Ascending(IntLess, listed)
    requires forall i | 0 <= i < |listed| :: 0 <= listed[i] < high || listed[i] in others
    ensures |listed| <= high + |others|
    decreases |listed|
  {
    if listed == [] {
    } else {
      var front, last := listed[..|listed| - 1], listed[|listed| - 1];
      assert forall i | 0 <= i < |front| :: IntLess(listed[i], listed[|front|]);
      if last in others {
        AscendingExcept(front, high, others - {last});
      } else {
        AscendingExcept(front, last, others);
      }
    }
  }

  /** Inside the window truncation and rounding down give the same bucket. */
  lemma XrayBucketInRange(now: int, since: int, limit: int, at: real)
    requires limit > 0 && since as real <= at < (now + 1) as real
    ensures XrayIndex(ReaderGrid(now, since, limit), at) == Index(ReaderGrid(now, since, limit), at)
    ensures 0 <= XrayIndex(ReaderGrid(now, since, limit), at) <= limit
  {
    var grid := ReaderGrid(now, since, limit);
    GridSpansWindow(now, since, limit);
    QuotientAtMost(at - since as real, grid.width, limit);
  }

  /** Only one whole hour overlaps a start. */
  lemma OneOverlap(since: int, start: int)
    requires start % 3600 == 0 && SinceHour(since) <= start < since
    ensures start == SinceHour(since)
  {
    assert since < 0 ==> SinceHour(since) >= since;
    assert start / 3600 < since / 3600 + 1;
  }

  /** No record is later than the second called now, and rollup buckets are whole hours. */
  predicate UpToNow(t: Tables, now: int) {
    && (forall i | 0 <= i < |t.rows| :: t.rows[i].at < (now + 1) as real)
    && forall key | key in t.rollups :: key.start % 3600 == 0 && key.start <= now
  }

  predicate RowsUpTo(rows: seq<Row>, now: int) {
    forall i | 0 <= i < |rows| :: rows[i].at < (now + 1) as real
  }

  lemma {:induction false} SinceUpTo(rows: seq<Row>, cutoff: real, now: int)
    requires RowsUpTo(rows, now)
    ensures RowsUpTo(Since(rows, RowTime, cutoff), now)
  {
    if rows == [] {
    } else {
      SinceUpTo(rows[..|rows| - 1], cutoff, now);
    }
  }

  lemma PartsUpTo(a: seq<Row>, b: seq<Row>, now: int)
    ensures RowsUpTo(a + b, now) <==> RowsUpTo(a, now) && RowsUpTo(b, now)
  {
    var all := a + b;
    assert forall i | 0 <= i < |a| :: all[i] == a[i];
    assert forall i | 0 <= i < |b| :: all[|a| + i] == b[i];
  }

  lemma RecordUpTo(t: Tables, u: Tables, batch: Batch, now: int)
    requires t.cursors == u.cursors && RowsUpTo(Apply(u, Record(batch)).rows, now)
    ensures RowsUpTo(u.rows, now)
    ensures RowsUpTo(t.rows, now) ==> RowsUpTo(Apply(t, Record(batch)).rows, now)
  {
    hide RowsUpTo, Apply;
    var added := SameRowsAdded(t, u, batch);
    PartsUpTo(t.rows, added, now);
    PartsUpTo(u.rows, added, now);
  }

  lemma {:induction false} RunRowsUpTo(events: seq<Event>, now: int)
    requires RowsUpTo(Unpruned(events).rows, now)
    ensures RowsUpTo(Run(events).rows, now)
  {
    if events == [] {
    } else {
      var front, last := events[..|events| - 1], events[|events| - 1];
      UnprunedStep(events);
      SameCursors(front);
      hide RowsUpTo;
      match last
      case Record(batch) =>
        RecordUpTo(Run(front), Unpruned(front), batch, now);
        RunRowsUpTo(front, now);
      case Retain(passAt, days) =>
        RunRowsUpTo(front, now);
        SinceUpTo(Run(front).rows, RawCutoff(passAt, days), now);
    }
  }

  lemma BucketUpTo(events: seq<Event>, now: int, key: BucketKey)
    requires RowsUpTo(Unpruned(events).rows, now) && Lookup(Run(events).rollups, key).Some?
    ensures key.start % 3600 == 0 && key.start <= now
  {
    hide Run, Unpruned;
    if NoSuchHour(key.start) {
      NoBucketOutsideHours(events, key);
    } else {
      BucketConservation(events, key);
      TallyPresent(Unpruned(events).rows, key, key.start as real, (key.start + 3600) as real);
    }
  }

  /** A database in which nothing was recorded ahead of the clock is up to now. */
  lemma RunIsUpToNow(events: seq<Event>, now: int)
    requires RowsUpTo(Unpruned(events).rows, now)
    ensures UpToNow(Run(events), now)
  {
    hide Run, Unpruned;
    RunRowsUpTo(events, now);
    forall key | key in Run(events).rollups ensures key.start % 3600 == 0 && key.start <= now {
      BucketUpTo(events, now, key);
    }
  }

  lemma BeforeTheStart(grid: TimeGrid, start: int)
    requires start <= grid.origin
    ensures XrayIndex(grid, start as real) <= 0
  {
    var x, w := (start - grid.origin) as real, grid.width as real;
    assert start as real - grid.origin as real == x;
    assert x / w <= 0.0;
  }

  /** What the Xray half returns: buckets of the window, or that of the hour across its start. */
  lemma XrayBucketsRead(t: Tables, now: int, since: int, limit: int, xray: map<int, XrayBucket>, bucket: int)
    requires limit > 0 && UpToNow(t, now)
    requires IsXrayHalf(t, since, ReaderGrid(now, since, limit), limit, xray) && bucket in xray
    ensures || 0 <= bucket <= limit
            || (OverlapRead(t, since) && bucket < 0
                && bucket == XrayIndex(ReaderGrid(now, since, limit), SinceHour(since) as real))
  {
    hide XraySelects, XrayIndex, SinceHour, CursorScopes;
    var grid := ReaderGrid(now, since, limit);
    var scope := PreferredScope(CursorScopes(t.cursors)).value;
    assert IsGroup(t, since, grid, scope, bucket, xray[bucket]);
    var time := (bucket, xray[bucket].observedAt);
    if time in XrayRowTimes(t.rows, since, grid, scope) {
      XrayBucketInRange(now, since, limit, time.1);
    } else {
      var key :| key in t.rollups && key.start >= SinceHour(since) && XraySelects(key.series, scope)
                 && time == (XrayIndex(grid, key.start as real), key.start as real);
      if key.start >= since {
        XrayBucketInRange(now, since, limit, key.start as real);
      } else {
        OneOverlap(since, key.start);
        BeforeTheStart(grid, key.start);
      }
    }
  }

  /** The buckets before the window: those of an hour across its start that is already compacted. The
      Xray half, which truncates, may count that hour to the first bucket of the window. */
  function Overlaps(t: Tables, now: int, since: int, limit: int, xray: map<int, XrayBucket>): (buckets: set<int>)
    requires limit > 0
    ensures |buckets| <= 2 && (since % 3600 == 0 || since <= 0 || t.rollups == map[] ==> buckets == {})
    ensures forall bucket | bucket in buckets :: bucket < 0
  {
    var grid := ReaderGrid(now, since, limit);
    var start := SinceHour(since) as real;
    var other := XrayIndex(grid, start);
    if OverlapRead(t, since) then
      BeforeTheWindow(t, now, since, limit);
      {Index(grid, start)} + if other < 0 && other in xray then {other} else {}
    else
      {}
  }

  lemma BeforeTheWindow(t: Tables, now: int, since: int, limit: int)
    requires limit > 0 && OverlapRead(t, since)
    ensures since % 3600 != 0 && since > 0 && t.rollups != map[]
    ensures Index(ReaderGrid(now, since, limit), SinceHour(since) as real) < 0
  {
    if since % 3600 == 0 || since <= 0 {
      NoOverlap(t, since);
    }
    var x, w := SinceHour(since) as real - since as real, ReaderGrid(now, since, limit).width as real;
    assert x < 0.0 ==> x / w < 0.0;
  }

  lemma HostBucketInRange(t: Tables, now: int, since: int, limit: int, bucket: int)
    requires limit > 0 && UpToNow(t, now)
    requires bucket in HostBuckets(Cells(t, since, ReaderGrid(now, since, limit)))
    ensures || 0 <= bucket <= limit
            || (OverlapRead(t, since) && bucket == Index(ReaderGrid(now, since, limit), SinceHour(since) as real))
  {
    hide HostBytesRead, Index, SinceHour;
    var grid := ReaderGrid(now, since, limit);
    var time := HostBucketHasTime(t, since, grid, bucket);
    if time in RowTimes(t.rows, since, grid) {
      BucketInRange(now, since, limit, time.1);
    } else {
      var key :| key in t.rollups && key.start >= SinceHour(since) && HostBytesRead(key.series)
                 && time == (Index(grid, key.start as real), key.start as real);
      if key.start >= since {
        BucketInRange(now, since, limit, key.start as real);
      } else {
        OneOverlap(since, key.start);
      }
    }
  }

  /** From a whole hour the cut drops at most the oldest point; a start inside an hour that is already
      compacted adds at most one bucket of each half, before the window. */
  lemma CutDropsFew(t: Tables, now: int, since: int, limit: int, xray: map<int, XrayBucket>)
    requires limit > 0 && UpToNow(t, now) && IsXrayHalf(t, since, ReaderGrid(now, since, limit), limit, xray)
    ensures |ReaderSeries(t, since, ReaderGrid(now, since, limit), xray)|
            <= limit + 1 + |Overlaps(t, now, since, limit, xray)|
  {
    hide Cells, Index, SinceHour, OverlapRead, IsXrayHalf, XrayIndex;
    var grid := ReaderGrid(now, since, limit);
    var listed := Buckets(t, since, grid, xray);
    forall i | 0 <= i < |listed|
      ensures 0 <= listed[i] < limit + 1 || listed[i] in Overlaps(t, now, since, limit, xray)
    {
      assert listed[i] in Elements(listed);
      if listed[i] in xray {
        XrayBucketsRead(t, now, since, limit, xray, listed[i]);
      } else {
        HostBucketInRange(t, now, since, limit, listed[i]);
      }
    }
    AscendingExcept(listed, limit + 1, Overlaps(t, now, since, limit, xray));
  }

  lemma {:induction false} TotalConcat(a: seq<ReaderPoint>, b: seq<ReaderPoint>, rx: bool)
    ensures ReaderTotal(a + b, rx) == ReaderTotal(a, rx) + ReaderTotal(b, rx)
    decreases |b|
  {
    if b == [] {
      assert a + b == a;
    } else {
      TotalConcat(a, b[..|b| - 1], rx);
      assert (a + b)[..|a + b| - 1] == a + b[..|b| - 1] && (a + b)[|a + b| - 1] == b[|b| - 1];
    }
  }

  /** What the cut takes from a host total: the traffic of the oldest points, no more than one for a
      start on a whole hour. */
  lemma CutTotals(t: Tables, now: int, since: int, limit: int, xray: map<int, XrayBucket>, rx: bool)
    returns (dropped: seq<ReaderPoint>)
    requires limit > 0 && UpToNow(t, now) && IsXrayHalf(t, since, ReaderGrid(now, since, limit), limit, xray)
    ensures var all := ReaderSeries(t, since, ReaderGrid(now, since, limit), xray);
            && all == dropped + Newest(all, limit)
            && ReaderTotal(all, rx) == ReaderTotal(dropped, rx) + ReaderTotal(Newest(all, limit), rx)
    ensures |dropped| <= 1 + |Overlaps(t, now, since, limit, xray)|
    ensures since % 3600 == 0 ==> |dropped| <= 1
  {
    hide ReaderSeries, ReaderTotal, UpToNow, IsXrayHalf;
    var all := ReaderSeries(t, since, ReaderGrid(now, since, limit), xray);
    dropped := all[..|all| - |Newest(all, limit)|];
    CutDropsFew(t, now, since, limit, xray);
    assert Overlaps(t, now, since, limit, xray) == {} ==> |Overlaps(t, now, since, limit, xray)| == 0;
    TotalConcat(dropped, Newest(all, limit), rx);
  }

  // ---------- the 24-hour window ----------

  lemma ClassifyHost(series: Series, field: NetworkField)
    ensures Classify(series) == Some(Host(field)) <==>
            series.source == "host" && External(series.labels) && FieldOf(series.name) == Some(field)
  {
    hide External, FieldOf;
  }

  lemma ClassifyHosts(series: Series)
    ensures forall field: NetworkField :: Classify(series) == Some(Host(field)) <==>
              series.source == "host" && External(series.labels) && FieldOf(series.name) == Some(field)
  {
    forall field: NetworkField ensures Classify(series) == Some(Host(field)) <==>
        series.source == "host" && External(series.labels) && FieldOf(series.name) == Some(field)
    {
      ClassifyHost(series, field);
    }
  }

  /** Each of the eight figures of the window is what the counter of its name recorded on real interfaces. */
  predicate AreWindowFigures(rows: seq<Row>, since: real, values: map<NetworkField, nat>) {
    && values.Keys == {RxBytes, RxPackets, RxErrors, RxDrops, TxBytes, TxPackets, TxErrors, TxDrops}
    && values[RxBytes] == WindowFed(rows, HostNamed("network_receive_bytes_total"), since)
    && values[RxPackets] == WindowFed(rows, HostNamed("network_receive_packets_total"), since)
    && values[RxErrors] == WindowFed(rows, HostNamed("network_receive_errors_total"), since)
    && values[RxDrops] == WindowFed(rows, HostNamed("network_receive_drops_total"), since)
    && values[TxBytes] == WindowFed(rows, HostNamed("network_transmit_bytes_total"), since)
    && values[TxPackets] == WindowFed(rows, HostNamed("network_transmit_packets_total"), since)
    && values[TxErrors] == WindowFed(rows, HostNamed("network_transmit_errors_total"), since)
    && values[TxDrops] == WindowFed(rows, HostNamed("network_transmit_drops_total"), since)
  }

  lemma WindowByName(rows: seq<Row>, since: real, values: map<NetworkField, nat>)
    requires forall field: NetworkField :: field in values && values[field] == WindowSum(rows, field, since)
    ensures AreWindowFigures(rows, since, values)
  {
    hide HostNamed, WindowSum, WindowFed;
    WindowIsNamed(rows, RxBytes, since);
    WindowIsNamed(rows, RxPackets, since);
    WindowIsNamed(rows, RxErrors, since);
    WindowIsNamed(rows, RxDrops, since);
    WindowIsNamed(rows, TxBytes, since);
    WindowIsNamed(rows, TxPackets, since);
    WindowIsNamed(rows, TxErrors, since);
    WindowIsNamed(rows, TxDrops, since);
    forall field: NetworkField | field in values
      ensures field in {RxBytes, RxPackets, RxErrors, RxDrops, TxBytes, TxPackets, TxErrors, TxDrops}
    {
      match field
      case RxBytes => case RxPackets => case RxErrors => case RxDrops =>
      case TxBytes => case TxPackets => case TxErrors => case TxDrops =>
    }
  }

  /** The eight host figures over the rows observed at or after `since`, by the names of their counters. */
  method HostWindow(rows: seq<Row>, since: real) returns (values: map<NetworkField, nat>)
    ensures forall field: NetworkField :: field in values && values[field] == WindowSum(rows, field, since)
    ensures AreWindowFigures(rows, since, values)
  {
    hide Classify, External, FieldOf, AreWindowFigures;
    values := map[RxBytes := 0, RxPackets := 0, RxErrors := 0, RxDrops := 0, TxBytes := 0, TxPackets := 0,
        TxErrors := 0, TxDrops := 0];
    forall field: NetworkField ensures field in values && values[field] == 0 {
      match field
      case RxBytes => case RxPackets => case RxErrors => case RxDrops =>
      case TxBytes => case TxPackets => case TxErrors => case TxDrops =>
    }
    for i := 0 to |rows|
      invariant forall field: NetworkField :: field in values && values[field] == WindowSum(rows[..i], field, since)
    {
      assert rows[..i + 1][..|rows[..i + 1]| - 1] == rows[..i];
      var row := rows[i];
      ClassifyHosts(row.series);
      if row.series.source == "host" && row.at >= since && External(row.series.labels) {
        var field := FieldOf(row.series.name);
        if field.Some? {
          values := values[field.value := values[field.value] + row.delta];
        }
      }
    }
    assert rows[..|rows|] == rows;
    WindowByName(rows, since, values);
  }
}
