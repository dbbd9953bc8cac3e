/** The Xray half of the web reader's series: one scope, chosen by the cursors, grouped in SQL. */
module XrayHalf {
  import opened Models
  import opened Ledger
  import opened Orders
  import opened Queries

  // ---------- earliest times ----------

  /** A bucket and the time of a record in it. */
  type TimeRead = (int, real)

  /** The dictionary holds the earliest time of every bucket. */
  predicate Earliest(first: map<int, real>, times: set<TimeRead>) {
    && (forall time | time in times :: time.0 in first && first[time.0] <= time.1)
    && forall bucket | bucket in first :: (bucket, first[bucket]) in times
  }

  function Earlier(first: map<int, real>, time: TimeRead): map<int, real> {
    if time.0 in first && first[time.0] <= time.1 then first else first[time.0 := time.1]
  }

  lemma EarlierKeeps(first: map<int, real>, times: set<TimeRead>, time: TimeRead)
    requires Earliest(first, times)
    ensures Earliest(Earlier(first, time), times + {time})
  {
    var after := Earlier(first, time);
    forall bucket | bucket in after ensures (bucket, after[bucket]) in times + {time} {
      if after[bucket] == time.1 && bucket == time.0 {
        assert (bucket, after[bucket]) == time;
      } else {
        assert (bucket, first[bucket]) in times;
      }
    }
  }

  lemma NoTimes()
    ensures Earliest(map[], {})
  {
  }

  // ---------- what the query selects ----------

  /** What the SQL of the Xray half returned for one bucket. */
  datatype XrayBucket = XrayBucket(observedAt: real, up: nat, down: nat)

  /** The Xray half counts with truncation where the host half rounds down. */
  function XrayIndex(grid: TimeGrid, at: real): int {
    Truncate((at - grid.origin as real) / grid.width as real)
  }

  /** The scopes of the counters that were ever recorded. */
  function CursorScopes(cursors: Cursors): set<Scope> {
    set series | series in cursors && series.source == "xray" && series.name == "traffic_bytes_total"
                 && ScopeOf(series.labels).Some? :: ScopeOf(series.labels).value
  }

  predicate XraySelects(series: Series, scope: Scope) {
    series.source == "xray" && series.name == "traffic_bytes_total" && ScopeOf(series.labels) == Some(scope)
  }

  /** One direction of one bucket. */
  datatype XrayQuery = XrayQuery(since: int, grid: TimeGrid, scope: Scope, direction: Direction, bucket: int)

  predicate XrayHitsRow(q: XrayQuery, row: Row) {
    && row.at >= q.since as real && XraySelects(row.series, q.scope)
    && DirectionOf(row.series.labels) == Some(q.direction) && XrayIndex(q.grid, row.at) == q.bucket
  }

  predicate XrayHitsBucket(q: XrayQuery, key: BucketKey) {
    && key.start >= SinceHour(q.since) && XraySelects(key.series, q.scope)
    && DirectionOf(key.series.labels) == Some(q.direction) && XrayIndex(q.grid, key.start as real) == q.bucket
  }

  function XrayRowSum(rows: seq<Row>, q: XrayQuery): nat {
    if rows == [] then 0
    else
      var last := rows[|rows| - 1];
      XrayRowSum(rows[..|rows| - 1], q) + if XrayHitsRow(q, last) then last.delta else 0
  }

  ghost function XrayRollupSum(rollups: Rollups, q: XrayQuery): nat
    decreases |rollups|
  {
    if rollups == map[] then
      0
    else
      var key :| key in rollups;
      assert |rollups - {key}| < |rollups| by { Smaller(rollups, key); }
      XrayRollupSum(rollups - {key}, q) + if XrayHitsBucket(q, key) then rollups[key].delta else 0
  }

  lemma {:induction false} XrayRollupSumWithout(rollups: Rollups, key: BucketKey, q: XrayQuery)
    requires key in rollups
    ensures XrayRollupSum(rollups, q) ==
            XrayRollupSum(rollups - {key}, q) + if XrayHitsBucket(q, key) then rollups[key].delta else 0
    decreases |rollups|
  {
    hide XrayHitsBucket;
    var first :| first in rollups && XrayRollupSum(rollups, q) ==
                   XrayRollupSum(rollups - {first}, q) + if XrayHitsBucket(q, first) then rollups[first].delta else 0;
    if first != key {
      Smaller(rollups, first);
      Smaller(rollups, key);
      XrayRollupSumWithout(rollups - {first}, key, q);
      XrayRollupSumWithout(rollups - {key}, first, q);
      assert rollups - {first} - {key} == rollups - {key} - {first};
    }
  }

  /** SUM(CASE WHEN direction ... THEN delta_value ELSE 0 END) over the union of both tables. */
  ghost function XraySum(t: Tables, q: XrayQuery): nat {
    XrayRowSum(t.rows, q) + XrayRollupSum(t.rollups, q)
  }

  function XrayRowTimes(rows: seq<Row>, since: int, grid: TimeGrid, scope: Scope): set<TimeRead> {
    set i | 0 <= i < |rows| && rows[i].at >= since as real && XraySelects(rows[i].series, scope) ::
      (XrayIndex(grid, rows[i].at), rows[i].at)
  }

  function XrayBucketTimes(rollups: Rollups, since: int, grid: TimeGrid, scope: Scope): set<TimeRead> {
    set key | key in rollups && key.start >= SinceHour(since) && XraySelects(key.series, scope) ::
      (XrayIndex(grid, key.start as real), key.start as real)
  }

  /** The times of the records the query selects, whatever their direction. */
  function XrayTimes(t: Tables, since: int, grid: TimeGrid, scope: Scope): set<TimeRead> {
    XrayRowTimes(t.rows, since, grid, scope) + XrayBucketTimes(t.rollups, since, grid, scope)
  }

  function Groups(times: set<TimeRead>): set<int> {
    set time | time in times :: time.0
  }

  function Oldest<T>(listed: seq<T>, limit: nat): (oldest: seq<T>)
    ensures |oldest| <= limit && (|listed| <= limit ==> oldest == listed)
    ensures limit <= |listed| ==> oldest == listed[..limit]
  {
    if |listed| <= limit then listed else listed[..limit]
  }

  /** One row of the result. */
  ghost predicate IsGroup(t: Tables, since: int, grid: TimeGrid, scope: Scope, bucket: int, group: XrayBucket) {
    && group.up == XraySum(t, XrayQuery(since, grid, scope, Uplink, bucket))
    && group.down == XraySum(t, XrayQuery(since, grid, scope, Downlink, bucket))
    && (bucket, group.observedAt) in XrayTimes(t, since, grid, scope)
    && forall time | time in XrayTimes(t, since, grid, scope) && time.0 == bucket :: group.observedAt <= time.1
  }

  /** The result of the query: the oldest groups of the preferred scope, and nothing without a scope. */
  ghost predicate IsXrayHalf(t: Tables, since: int, grid: TimeGrid, limit: nat, xray: map<int, XrayBucket>) {
    match PreferredScope(CursorScopes(t.cursors))
    case None => xray == map[]
    case Some(scope) =>
      && xray.Keys == Elements(Oldest(Listing(IntLess, Groups(XrayTimes(t, since, grid, scope))), limit))
      && forall bucket | bucket in xray :: IsGroup(t, since, grid, scope, bucket, xray[bucket])
  }

  // ---------- grouping ----------

  type GroupSums = map<int, (nat, nat)>

  function UpAt(sums: GroupSums, bucket: int): nat {
    if bucket in sums then sums[bucket].0 else 0
  }

  function DownAt(sums: GroupSums, bucket: int): nat {
    if bucket in sums then sums[bucket].1 else 0
  }

  /** Adds one record to its group. */
  function Added(sums: GroupSums, bucket: int, direction: Option<Direction>, delta: nat): GroupSums {
    sums[bucket := (UpAt(sums, bucket) + if direction == Some(Uplink) then delta else 0,
                    DownAt(sums, bucket) + if direction == Some(Downlink) then delta else 0)]
  }

  /** What is summed so far: the rows, and of the rollups all but the rest. */
  ghost predicate Summed(sums: GroupSums, rows: seq<Row>, read: Rollups, rest: Rollups, since: int, grid: TimeGrid,
                         scope: Scope) {
    forall bucket: int ::
      && UpAt(sums, bucket) + XrayRollupSum(rest, XrayQuery(since, grid, scope, Uplink, bucket))
         == XrayRowSum(rows, XrayQuery(since, grid, scope, Uplink, bucket))
            + XrayRollupSum(read, XrayQuery(since, grid, scope, Uplink, bucket))
      && DownAt(sums, bucket) + XrayRollupSum(rest, XrayQuery(since, grid, scope, Downlink, bucket))
         == XrayRowSum(rows, XrayQuery(since, grid, scope, Downlink, bucket))
            + XrayRollupSum(read, XrayQuery(since, grid, scope, Downlink, bucket))
  }

  lemma XrayRowSumSnoc(rows: seq<Row>, n: nat, q: XrayQuery)
    requires n < |rows|
    ensures XrayRowSum(rows[..n + 1], q) == XrayRowSum(rows[..n], q)
            + if XrayHitsRow(q, rows[n]) then rows[n].delta else 0
  {
    assert rows[..n + 1][..n] == rows[..n];
  }

  lemma SumRow(sums: GroupSums, rows: seq<Row>, n: nat, since: int, grid: TimeGrid, scope: Scope)
    requires n < |rows| && Summed(sums, rows[..n], map[], map[], since, grid, scope)
    ensures var row := rows[n];
            Summed(if row.at >= since as real && XraySelects(row.series, scope)
                   then Added(sums, XrayIndex(grid, row.at), DirectionOf(row.series.labels), row.delta) else sums,
                   rows[..n + 1], map[], map[], since, grid, scope)
  {
    hide XraySelects, XrayIndex, DirectionOf;
    forall bucket: int, direction: Direction
      ensures XrayRowSum(rows[..n + 1], XrayQuery(since, grid, scope, direction, bucket)) ==
              XrayRowSum(rows[..n], XrayQuery(since, grid, scope, direction, bucket))
              + if XrayHitsRow(XrayQuery(since, grid, scope, direction, bucket), rows[n]) then rows[n].delta else 0
    {
      XrayRowSumSnoc(rows, n, XrayQuery(since, grid, scope, direction, bucket));
    }
  }

  lemma SumBucket(sums: GroupSums, rows: seq<Row>, read: Rollups, rest: Rollups, key: BucketKey, since: int,
                  grid: TimeGrid, scope: Scope)
    requires key in rest && Summed(sums, rows, read, rest, since, grid, scope)
    ensures Summed(if key.start >= SinceHour(since) && XraySelects(key.series, scope)
                   then Added(sums, XrayIndex(grid, key.start as real), DirectionOf(key.series.labels),
                       rest[key].delta) else sums,
                   rows, read, rest - {key}, since, grid, scope)
  {
    hide XraySelects, XrayIndex, DirectionOf, SinceHour;
    forall bucket: int, direction: Direction
      ensures XrayRollupSum(rest, XrayQuery(since, grid, scope, direction, bucket)) ==
              XrayRollupSum(rest - {key}, XrayQuery(since, grid, scope, direction, bucket))
              + if XrayHitsBucket(XrayQuery(since, grid, scope, direction, bucket), key) then rest[key].delta else 0
    {
      XrayRollupSumWithout(rest, key, XrayQuery(since, grid, scope, direction, bucket));
    }
  }

  lemma GroupsStartWithBuckets(sums: GroupSums, rows: seq<Row>, rollups: Rollups, since: int, grid: TimeGrid,
                               scope: Scope)
    requires Summed(sums, rows, map[], map[], since, grid, scope)
    ensures Summed(sums, rows, rollups, rollups, since, grid, scope)
  {
    hide XrayHitsRow;
  }

  lemma AllSummed(sums: GroupSums, t: Tables, since: int, grid: TimeGrid, scope: Scope, bucket: int)
    requires Summed(sums, t.rows, t.rollups, map[], since, grid, scope)
    ensures UpAt(sums, bucket) == XraySum(t, XrayQuery(since, grid, scope, Uplink, bucket))
    ensures DownAt(sums, bucket) == XraySum(t, XrayQuery(since, grid, scope, Downlink, bucket))
  {
    hide XrayHitsRow;
  }

  lemma NothingSummed(since: int, grid: TimeGrid, scope: Scope)
    ensures Summed(map[], [], map[], map[], since, grid, scope)
  {
  }

  lemma XrayRowTimesSnoc(rows: seq<Row>, n: nat, since: int, grid: TimeGrid, scope: Scope)
    requires n < |rows|
    ensures XrayRowTimes(rows[..n + 1], since, grid, scope) == XrayRowTimes(rows[..n], since, grid, scope)
            + if rows[n].at >= since as real && XraySelects(rows[n].series, scope)
              then {(XrayIndex(grid, rows[n].at), rows[n].at)} else {}
  {
    hide XraySelects, XrayIndex;
    var before, after := rows[..n], rows[..n + 1];
    assert forall i | 0 <= i < n :: after[i] == before[i];
    assert after[n] == rows[n];
    forall time | time in XrayRowTimes(before, since, grid, scope)
      ensures time in XrayRowTimes(after, since, grid, scope)
    {
      var i :| 0 <= i < n && before[i].at >= since as real && XraySelects(before[i].series, scope)
               && time == (XrayIndex(grid, before[i].at), before[i].at);
      assert after[i] == before[i];
    }
  }

  lemma XrayBucketTimesWithout(rollups: Rollups, key: BucketKey, since: int, grid: TimeGrid, scope: Scope)
    requires key in rollups
    ensures XrayBucketTimes(rollups, since, grid, scope)
            == SelectedTime(key, since, grid, scope) + XrayBucketTimes(rollups - {key}, since, grid, scope)
  {
    hide XraySelects, XrayIndex, SinceHour;
  }

  method GroupRows(rows: seq<Row>, since: int, grid: TimeGrid, scope: Scope)
    returns (sums: GroupSums, first: map<int, real>)
    ensures Summed(sums, rows, map[], map[], since, grid, scope)
    ensures Earliest(first, XrayRowTimes(rows, since, grid, scope))
    ensures sums.Keys == first.Keys
  {
    hide XraySelects, XrayIndex, DirectionOf, Earliest, Earlier, Summed;
    sums, first := map[], map[];
    NothingSummed(since, grid, scope);
    NoTimes();
    assert rows[..0] == [] && XrayRowTimes(rows[..0], since, grid, scope) == {};
    for n := 0 to |rows|
      invariant Summed(sums, rows[..n], map[], map[], since, grid, scope)
      invariant Earliest(first, XrayRowTimes(rows[..n], since, grid, scope))
      invariant sums.Keys == first.Keys
    {
      SumRow(sums, rows, n, since, grid, scope);
      XrayRowTimesSnoc(rows, n, since, grid, scope);
      if rows[n].at >= since as real && XraySelects(rows[n].series, scope) {
        var time := (XrayIndex(grid, rows[n].at), rows[n].at);
        EarlierKeeps(first, XrayRowTimes(rows[..n], since, grid, scope), time);
        EarlierKeys(first, time);
        sums, first := Added(sums, time.0, DirectionOf(rows[n].series.labels), rows[n].delta), Earlier(first, time);
      } else {
        assert XrayRowTimes(rows[..n + 1], since, grid, scope) == XrayRowTimes(rows[..n], since, grid, scope);
      }
    }
    assert rows[..|rows|] == rows;
  }

  lemma EarlierKeys(first: map<int, real>, time: TimeRead)
    ensures Earlier(first, time).Keys == first.Keys + {time.0}
  {
  }

  /** What a rollup adds to the times, if it is selected. */
  function SelectedTime(key: BucketKey, since: int, grid: TimeGrid, scope: Scope): set<TimeRead> {
    if key.start >= SinceHour(since) && XraySelects(key.series, scope)
    then {(XrayIndex(grid, key.start as real), key.start as real)} else {}
  }

  /** One rollup, counted in its group when it is selected. */
  method GroupBucket(before: GroupSums, earliest: map<int, real>, ghost times: set<TimeRead>, ghost rows: seq<Row>,
                     ghost read: Rollups, rest: Rollups, key: BucketKey, since: int, grid: TimeGrid, scope: Scope)
    returns (sums: GroupSums, first: map<int, real>)
    requires key in rest && Summed(before, rows, read, rest, since, grid, scope)
    requires Earliest(earliest, times) && before.Keys == earliest.Keys
    ensures Summed(sums, rows, read, rest - {key}, since, grid, scope)
    ensures Earliest(first, times + SelectedTime(key, since, grid, scope)) && sums.Keys == first.Keys
  {
    hide XraySelects, XrayIndex, DirectionOf, SinceHour, Earliest, Earlier, Summed;
    sums, first := before, earliest;
    SumBucket(sums, rows, read, rest, key, since, grid, scope);
    if key.start >= SinceHour(since) && XraySelects(key.series, scope) {
      var time := (XrayIndex(grid, key.start as real), key.start as real);
      EarlierKeeps(first, times, time);
      EarlierKeys(first, time);
      sums, first := Added(sums, time.0, DirectionOf(key.series.labels), rest[key].delta), Earlier(first, time);
    } else {
      assert times + SelectedTime(key, since, grid, scope) == times;
    }
  }

  /** GROUP BY bucket, over the rows and then over the rollups. */
  method Group(t: Tables, since: int, grid: TimeGrid, scope: Scope) returns (sums: GroupSums, first: map<int, real>)
    ensures Summed(sums, t.rows, t.rollups, map[], since, grid, scope)
    ensures Earliest(first, XrayTimes(t, since, grid, scope))
    ensures sums.Keys == first.Keys
  {
    hide *;
    sums, first := GroupRows(t.rows, since, grid, scope);
    GroupsStartWithBuckets(sums, t.rows, t.rollups, since, grid, scope);
    ghost var times := XrayRowTimes(t.rows, since, grid, scope);
    var rest := t.rollups;
    TimesOfBoth(t, since, grid, scope);
    while rest != map[]
      invariant Summed(sums, t.rows, t.rollups, rest, since, grid, scope)
      invariant Earliest(first, times) && sums.Keys == first.Keys
      invariant times + XrayBucketTimes(rest, since, grid, scope) == XrayTimes(t, since, grid, scope)
      decreases |rest|
    {
      var key :| key in rest;
      Smaller(rest, key);
      XrayBucketTimesWithout(rest, key, since, grid, scope);
      MoveOver(times, SelectedTime(key, since, grid, scope), XrayBucketTimes(rest - {key}, since, grid, scope));
      sums, first := GroupBucket(sums, first, times, t.rows, t.rollups, rest, key, since, grid, scope);
      times := times + SelectedTime(key, since, grid, scope);
      rest := rest - {key};
    }
    NoBucketTimes(since, grid, scope);
    assert times + {} == times;
  }

  lemma TimesOfBoth(t: Tables, since: int, grid: TimeGrid, scope: Scope)
    ensures XrayTimes(t, since, grid, scope)
            == XrayRowTimes(t.rows, since, grid, scope) + XrayBucketTimes(t.rollups, since, grid, scope)
  {
  }

  lemma MoveOver<T>(a: set<T>, b: set<T>, c: set<T>)
    ensures (a + b) + c == a + (b + c)
  {
  }

  lemma NoBucketTimes(since: int, grid: TimeGrid, scope: Scope)
    ensures XrayBucketTimes(map[], since, grid, scope) == {}
  {
  }

  lemma EarliestKeys(first: map<int, real>, times: set<TimeRead>)
    requires Earliest(first, times)
    ensures first.Keys == Groups(times)
  {
    forall bucket | bucket in first ensures bucket in Groups(times) {
      assert (bucket, first[bucket]).0 == bucket;
    }
  }

  lemma GroupIsExact(t: Tables, since: int, grid: TimeGrid, scope: Scope, sums: GroupSums, first: map<int, real>,
                     bucket: int)
    requires Summed(sums, t.rows, t.rollups, map[], since, grid, scope)
    requires Earliest(first, XrayTimes(t, since, grid, scope)) && sums.Keys == first.Keys && bucket in first
    ensures IsGroup(t, since, grid, scope, bucket, XrayBucket(first[bucket], sums[bucket].0, sums[bucket].1))
  {
    hide Summed, XrayTimes, XraySum;
    AllSummed(sums, t, since, grid, scope, bucket);
  }

  /** The whole query. */
  method QueryXray(t: Tables, since: int, grid: TimeGrid, limit: nat) returns (xray: map<int, XrayBucket>)
    ensures IsXrayHalf(t, since, grid, limit, xray)
  {
    hide Summed, XrayTimes, IsGroup, Earliest, CursorScopes;
    var scope := PreferredScope(CursorScopes(t.cursors));
    if scope.None? {
      return map[];
    }
    var sums, first := Group(t, since, grid, scope.value);
    EarliestKeys(first, XrayTimes(t, since, grid, scope.value));
    var listed := Sorted(IntLess, first.Keys);
    var kept := Oldest(listed, limit);
    forall i | 0 <= i < |kept| ensures kept[i] in first.Keys {
      assert kept[i] == listed[i] && listed[i] in Elements(listed);
    }
    forall bucket | bucket in Elements(kept)
      ensures bucket in first.Keys
      ensures IsGroup(t, since, grid, scope.value, bucket, XrayBucket(first[bucket], sums[bucket].0, sums[bucket].1))
    {
      GroupIsExact(t, since, grid, scope.value, sums, first, bucket);
    }
    xray := map bucket | bucket in Elements(kept) :: XrayBucket(first[bucket], sums[bucket].0, sums[bucket].1);
  }
}
