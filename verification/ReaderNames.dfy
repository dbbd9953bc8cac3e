/** The reader's chart said in the names the collectors use. */
module ReaderNames {
  import opened Models
  import opened Ledger
  import opened Orders
  import opened Queries
  import opened SourceNames
  import opened XrayHalf
  import opened Reader

  /** Every point of the reader shows, for its bucket, what the byte counters of real interfaces recorded. */
  lemma ReaderPointIsNamed(t: Tables, since: int, grid: TimeGrid, xray: map<int, XrayBucket>, bucket: int)
    ensures ReaderPointAt(t, since, grid, xray, bucket).hostRx ==
            Fed(t, HostNamed("network_receive_bytes_total"), since, CellTime(grid, bucket))
    ensures ReaderPointAt(t, since, grid, xray, bucket).hostTx ==
            Fed(t, HostNamed("network_transmit_bytes_total"), since, CellTime(grid, bucket))
    ensures var point := ReaderPointAt(t, since, grid, xray, bucket);
            && point.bucket == bucket
            && point.xrayUp == (if bucket in xray then xray[bucket].up else 0)
            && point.xrayDown == (if bucket in xray then xray[bucket].down else 0)
    ensures bucket in HostBuckets(Cells(t, since, grid)) <==>
            AnyFed(t, HostNamed("network_receive_bytes_total"), since, CellTime(grid, bucket))
            || AnyFed(t, HostNamed("network_transmit_bytes_total"), since, CellTime(grid, bucket))
  {
    hide Cells, AnyFed, Fed, CellTraffic, HostNamed, CellTime;
    CellIsFed(t, since, grid, Host(RxBytes), bucket);
    CellIsFed(t, since, grid, Host(TxBytes), bucket);
    var cells := Cells(t, since, grid);
    if (Host(RxBytes), bucket) in cells {
      assert (Host(RxBytes), bucket).1 == bucket;
    }
    if (Host(TxBytes), bucket) in cells {
      assert (Host(TxBytes), bucket).1 == bucket;
    }
  }

  /** The chart of the reader before it is cut: in ascending order, the point of every bucket in which a byte
      counter of a real interface has a record or the Xray half returned something. */
  lemma ReaderChartIs(t: Tables, since: int, grid: TimeGrid, xray: map<int, XrayBucket>)
    ensures var points := ReaderSeries(t, since, grid, xray);
            && (forall i, j | 0 <= i < j < |points| :: points[i].bucket < points[j].bucket)
            && (forall i | 0 <= i < |points| ::
                  points[i] == ReaderPointAt(t, since, grid, xray, points[i].bucket))
    ensures forall bucket :: ReaderPointAt(t, since, grid, xray, bucket) in ReaderSeries(t, since, grid, xray) <==>
              || AnyFed(t, HostNamed("network_receive_bytes_total"), since, CellTime(grid, bucket))
              || AnyFed(t, HostNamed("network_transmit_bytes_total"), since, CellTime(grid, bucket))
              || bucket in xray
  {
    hide Cells, AnyFed, CellTraffic, HostNamed, CellTime, HostBuckets;
    var buckets, points := Buckets(t, since, grid, xray), ReaderSeries(t, since, grid, xray);
    forall i, j | 0 <= i < j < |points| ensures points[i].bucket < points[j].bucket {
      assert IntLess(buckets[i], buckets[j]);
    }
    forall bucket ensures ReaderPointAt(t, since, grid, xray, bucket) in points <==>
              || AnyFed(t, HostNamed("network_receive_bytes_total"), since, CellTime(grid, bucket))
              || AnyFed(t, HostNamed("network_transmit_bytes_total"), since, CellTime(grid, bucket))
              || bucket in xray
    {
      ReaderPointIsNamed(t, since, grid, xray, bucket);
      var point := ReaderPointAt(t, since, grid, xray, bucket);
      if point in points {
        var i :| 0 <= i < |points| && points[i] == point;
        assert points[i].bucket == buckets[i] && buckets[i] in Elements(buckets);
      }
      if bucket in Elements(buckets) {
        var i :| 0 <= i < |buckets| && buckets[i] == bucket;
        assert points[i] == point;
      }
    }
  }

  predicate HostBytesNamed(series: Series) {
    HostNamed("network_receive_bytes_total")(series) || HostNamed("network_transmit_bytes_total")(series)
  }

  /** The times a point may bear: those of the records of such counters in its bucket. */
  lemma HostTimeIs(t: Tables, since: int, grid: TimeGrid, bucket: int, at: real)
    ensures (bucket, at) in HostTimes(t, since, grid) <==>
            && CellTime(grid, bucket)(at)
            && (|| (exists i :: 0 <= i < |t.rows| && t.rows[i].at == at && at >= since as real
                                && HostBytesNamed(t.rows[i].series))
                || (exists key :: key in t.rollups && key.start as real == at && key.start >= SinceHour(since)
                                  && HostBytesNamed(key.series)))
  {
    hide Classify, HostNamed, Index, SinceHour;
    CellSpan(grid, at, bucket);
    forall series: Series ensures HostBytesRead(series) <==> HostBytesNamed(series) {
      HostByName(series, RxBytes);
      HostByName(series, TxBytes);
    }
    hide HostBytesRead, HostBytesNamed, CellTime;
    var times := HostTimes(t, since, grid);
    if i :| 0 <= i < |t.rows| && t.rows[i].at == at && at >= since as real && HostBytesRead(t.rows[i].series) {
      assert (Index(grid, t.rows[i].at), t.rows[i].at) in RowTimes(t.rows, since, grid);
    }
    if key :| key in t.rollups && key.start as real == at && key.start >= SinceHour(since)
              && HostBytesRead(key.series) {
      assert (Index(grid, key.start as real), key.start as real) in BucketTimes(t.rollups, since, grid);
    }
  }

  lemma TruncateIs(x: real, n: int)
    ensures Truncate(x) == n <==>
            if x >= 0.0 then n as real <= x < (n + 1) as real else (n - 1) as real < x <= n as real
  {
  }

  lemma InTruncated(grid: TimeGrid, at: real, bucket: int)
    ensures XrayIndex(grid, at) == bucket <==> Truncated(grid.origin, grid.width, bucket)(at)
  {
    TruncateIs((at - grid.origin as real) / grid.width as real, bucket);
    hide Truncate;
  }

  lemma SelectedByName(series: Series, scope: Scope, direction: Direction)
    ensures XraySelects(series, scope) && DirectionOf(series.labels) == Some(direction) <==>
            XrayNamed(ScopeText(scope), DirectionText(direction))(series)
  {
    hide ScopeOf, DirectionOf, ScopeText, DirectionText, Labelled;
    ScopeHasText(series.labels, scope);
    DirectionHasText(series.labels, direction);
  }

  lemma XrayRowHits(q: XrayQuery, row: Row)
    ensures XrayHitsRow(q, row) <==>
            RowFeeds(row, XrayNamed(ScopeText(q.scope), DirectionText(q.direction)), q.since,
                     Truncated(q.grid.origin, q.grid.width, q.bucket))
  {
    hide XraySelects, DirectionOf, XrayNamed, ScopeText, DirectionText, XrayIndex, Truncated;
    SelectedByName(row.series, q.scope, q.direction);
    InTruncated(q.grid, row.at, q.bucket);
  }

  lemma XrayBucketHits(q: XrayQuery, key: BucketKey)
    ensures XrayHitsBucket(q, key) <==>
            BucketFeeds(key, XrayNamed(ScopeText(q.scope), DirectionText(q.direction)), q.since,
                        Truncated(q.grid.origin, q.grid.width, q.bucket))
  {
    hide XraySelects, DirectionOf, XrayNamed, ScopeText, DirectionText, XrayIndex, Truncated, SinceHour;
    SelectedByName(key.series, q.scope, q.direction);
    InTruncated(q.grid, key.start as real, q.bucket);
  }

  lemma {:induction false} XrayRowsFed(rows: seq<Row>, q: XrayQuery)
    ensures XrayRowSum(rows, q) ==
            RowsFed(rows, XrayNamed(ScopeText(q.scope), DirectionText(q.direction)), q.since,
                    Truncated(q.grid.origin, q.grid.width, q.bucket))
  {
    hide XrayHitsRow, RowFeeds, XrayNamed, ScopeText, DirectionText, Truncated;
    if rows == [] {
    } else {
      XrayRowsFed(rows[..|rows| - 1], q);
      XrayRowHits(q, rows[|rows| - 1]);
    }
  }

  lemma {:induction false} XrayBucketsFed(rollups: Rollups, q: XrayQuery)
    ensures XrayRollupSum(rollups, q) ==
            BucketsFed(rollups, XrayNamed(ScopeText(q.scope), DirectionText(q.direction)), q.since,
                       Truncated(q.grid.origin, q.grid.width, q.bucket))
    decreases |rollups|
  {
    hide XrayHitsBucket, BucketFeeds, XrayNamed, ScopeText, DirectionText, Truncated;
    var feeds := XrayNamed(ScopeText(q.scope), DirectionText(q.direction));
    var within := Truncated(q.grid.origin, q.grid.width, q.bucket);
    if rollups == map[] {
    } else {
      var key :| key in rollups && BucketsFed(rollups, feeds, q.since, within) ==
                   BucketsFed(rollups - {key}, feeds, q.since, within)
                   + if BucketFeeds(key, feeds, q.since, within) then rollups[key].delta else 0;
      Smaller(rollups, key);
      XrayBucketsFed(rollups - {key}, q);
      XrayRollupSumWithout(rollups, key, q);
      XrayBucketHits(q, key);
    }
  }

  /** A scope for which a counter was ever recorded. */
  predicate ScopeKnown(cursors: Cursors, scope: string) {
    exists series :: series in cursors && series.source == "xray" && series.name == "traffic_bytes_total"
                     && Labelled(series.labels, "scope", scope)
  }

  /** The scope of the query: users before inbound before outbound, among those ever recorded. */
  function ScopeKept(cursors: Cursors): Option<string> {
    if ScopeKnown(cursors, "user") then Some("user")
    else if ScopeKnown(cursors, "inbound") then Some("inbound")
    else if ScopeKnown(cursors, "outbound") then Some("outbound")
    else None
  }

  lemma ScopeIsKnown(cursors: Cursors, scope: Scope)
    ensures scope in CursorScopes(cursors) <==> ScopeKnown(cursors, ScopeText(scope))
  {
    hide ScopeOf, ScopeText, Labelled;
    forall series: Series
      ensures ScopeOf(series.labels) == Some(scope) <==> Labelled(series.labels, "scope", ScopeText(scope))
    {
      ScopeHasText(series.labels, scope);
    }
  }

  lemma ScopeIsKept(cursors: Cursors)
    ensures var preferred := PreferredScope(CursorScopes(cursors));
            ScopeKept(cursors) == if preferred.Some? then Some(ScopeText(preferred.value)) else None
  {
    hide CursorScopes, ScopeKnown;
    ScopeIsKnown(cursors, User);
    ScopeIsKnown(cursors, Inbound);
    ScopeIsKnown(cursors, Outbound);
  }

  /** Every bucket the Xray half returns holds what the counters of one scope recorded in it, by direction. */
  lemma XrayHalfIsNamed(t: Tables, since: int, grid: TimeGrid, limit: nat, xray: map<int, XrayBucket>)
    requires IsXrayHalf(t, since, grid, limit, xray)
    ensures ScopeKept(t.cursors).None? ==> xray == map[]
    ensures ScopeKept(t.cursors).Some? ==> forall bucket | bucket in xray ::
              var scope, within := ScopeKept(t.cursors).value, Truncated(grid.origin, grid.width, bucket);
              && xray[bucket].up == Fed(t, XrayNamed(scope, "uplink"), since, within)
              && xray[bucket].down == Fed(t, XrayNamed(scope, "downlink"), since, within)
  {
    hide CursorScopes, ScopeKept, XrayNamed, Truncated;
    ScopeIsKept(t.cursors);
    if PreferredScope(CursorScopes(t.cursors)).Some? {
      var scope := PreferredScope(CursorScopes(t.cursors)).value;
      forall bucket | bucket in xray
        ensures xray[bucket].up == Fed(t, XrayNamed(ScopeText(scope), "uplink"), since,
                                       Truncated(grid.origin, grid.width, bucket))
        ensures xray[bucket].down == Fed(t, XrayNamed(ScopeText(scope), "downlink"), since,
                                         Truncated(grid.origin, grid.width, bucket))
      {
        GroupIsNamed(t, since, grid, scope, bucket, xray[bucket]);
      }
    }
  }

  lemma GroupIsNamed(t: Tables, since: int, grid: TimeGrid, scope: Scope, bucket: int, group: XrayBucket)
    requires IsGroup(t, since, grid, scope, bucket, group)
    ensures group.up == Fed(t, XrayNamed(ScopeText(scope), "uplink"), since,
                            Truncated(grid.origin, grid.width, bucket))
    ensures group.down == Fed(t, XrayNamed(ScopeText(scope), "downlink"), since,
                              Truncated(grid.origin, grid.width, bucket))
  {
    hide XrayNamed, Truncated, XrayTimes, XrayRowSum, XrayRollupSum, RowsFed, BucketsFed, ScopeText;
    var up, down := XrayQuery(since, grid, scope, Uplink, bucket), XrayQuery(since, grid, scope, Downlink, bucket);
    XrayRowsFed(t.rows, up);
    XrayRowsFed(t.rows, down);
    XrayBucketsFed(t.rollups, up);
    XrayBucketsFed(t.rollups, down);
  }

  /** An Xray traffic counter of a scope, whatever its direction. */
  function ScopeNamed(scope: string): Series -> bool {
    (series: Series) => series.source == "xray" && series.name == "traffic_bytes_total"
      && Labelled(series.labels, "scope", scope)
  }

  lemma GroupsAreNamed(t: Tables, since: int, grid: TimeGrid, scope: Scope, bucket: int)
    ensures bucket in Groups(XrayTimes(t, since, grid, scope)) <==>
            AnyFed(t, ScopeNamed(ScopeText(scope)), since, Truncated(grid.origin, grid.width, bucket))
  {
    hide Truncated, XrayIndex, ScopeOf, ScopeText, Labelled, SinceHour;
    var feeds, within := ScopeNamed(ScopeText(scope)), Truncated(grid.origin, grid.width, bucket);
    forall series: Series ensures XraySelects(series, scope) <==> feeds(series) {
      ScopeHasText(series.labels, scope);
    }
    forall at: real ensures XrayIndex(grid, at) == bucket <==> within(at) {
      InTruncated(grid, at, bucket);
    }
    hide XraySelects, ScopeNamed;
    var times := XrayTimes(t, since, grid, scope);
    if bucket in Groups(times) {
      var time :| time in times && time.0 == bucket;
    }
    if i :| 0 <= i < |t.rows| && RowFeeds(t.rows[i], feeds, since, within) {
      assert (XrayIndex(grid, t.rows[i].at), t.rows[i].at) in times;
    }
    if key :| key in t.rollups && BucketFeeds(key, feeds, since, within) {
      assert (XrayIndex(grid, key.start as real), key.start as real) in times;
    }
  }

  lemma OldestAreFirst(listed: seq<int>, limit: nat, kept: int, cut: int)
    requires Ascending(IntLess, listed) && kept in Elements(Oldest(listed, limit))
    requires cut in Elements(listed) && cut !in Elements(Oldest(listed, limit))
    ensures kept < cut
  {
    var oldest := Oldest(listed, limit);
    var i :| 0 <= i < |oldest| && oldest[i] == kept;
    var j :| 0 <= j < |listed| && listed[j] == cut;
    assert forall k | 0 <= k < |oldest| :: oldest[k] == listed[k] && oldest[k] in Elements(oldest);
    assert IntLess(listed[i], listed[j]);
  }

  lemma ElementsOfOldest(listed: seq<int>, limit: nat)
    requires Ascending(IntLess, listed)
    ensures Elements(Oldest(listed, limit)) <= Elements(listed)
    ensures |listed| <= limit ==> Elements(Oldest(listed, limit)) == Elements(listed)
    ensures |Elements(Oldest(listed, limit))| == if |listed| <= limit then |listed| else limit
  {
    var oldest := Oldest(listed, limit);
    forall x | x in Elements(oldest) ensures x in Elements(listed) {
      var i :| 0 <= i < |oldest| && oldest[i] == x;
      assert listed[i] == x;
    }
    ListingSize(oldest);
  }

  /** A bucket with a record of the scope. */
  predicate InScope(t: Tables, since: int, grid: TimeGrid, scope: Scope, bucket: int) {
    AnyFed(t, ScopeNamed(ScopeText(scope)), since, Truncated(grid.origin, grid.width, bucket))
  }

  /** Which buckets the Xray half returns: those with a record of the scope, of either direction or none, the
      oldest ones if there are more than the limit. */
  lemma XrayBucketsAre(t: Tables, since: int, grid: TimeGrid, limit: nat, xray: map<int, XrayBucket>, scope: Scope)
    ensures IsXrayHalf(t, since, grid, limit, xray) && ScopeKept(t.cursors) == Some(ScopeText(scope)) ==>
              && |xray.Keys| <= limit
              && (forall bucket | bucket in xray :: InScope(t, since, grid, scope, bucket))
              && (forall bucket, cut | bucket in xray && cut !in xray && InScope(t, since, grid, scope, cut) ::
                    bucket < cut)
              && (forall cut | cut !in xray && InScope(t, since, grid, scope, cut) :: |xray.Keys| == limit)
  {
    hide Truncated, AnyFed, CursorScopes, XrayTimes, IsGroup, Oldest, Groups, InScope;
    if IsXrayHalf(t, since, grid, limit, xray) && ScopeKept(t.cursors) == Some(ScopeText(scope)) {
      ScopeIsKept(t.cursors);
      SameScope(PreferredScope(CursorScopes(t.cursors)).value, scope);
      var groups := Groups(XrayTimes(t, since, grid, scope));
      var listed := Listing(IntLess, groups);
      ElementsOfOldest(listed, limit);
      forall bucket: int ensures bucket in groups <==> InScope(t, since, grid, scope, bucket) {
        GroupIsInScope(t, since, grid, scope, bucket);
      }
      forall bucket, cut | bucket in xray && cut in groups && cut !in xray ensures bucket < cut {
        OldestAreFirst(listed, limit, bucket, cut);
      }
      assert |listed| <= limit ==> xray.Keys == groups;
    }
  }

  lemma GroupIsInScope(t: Tables, since: int, grid: TimeGrid, scope: Scope, bucket: int)
    ensures bucket in Groups(XrayTimes(t, since, grid, scope)) <==> InScope(t, since, grid, scope, bucket)
  {
    hide AnyFed, Truncated, XrayTimes, Groups;
    GroupsAreNamed(t, since, grid, scope, bucket);
  }

  lemma SameScope(a: Scope, b: Scope)
    ensures ScopeText(a) == ScopeText(b) ==> a == b
  {
    assert |"user"| == 4 && |"inbound"| == 7 && |"outbound"| == 8;
  }

  lemma {:induction false} ListingSize(listed: seq<int>)
    requires Ascending(IntLess, listed)
    ensures |Elements(listed)| == |listed|
  {
    if listed == [] {
    } else {
      var front, last := listed[..|listed| - 1], listed[|listed| - 1];
      ListingSize(front);
      ElementsSnoc(front, last);
      assert listed == front + [last];
      forall i | 0 <= i < |front| ensures front[i] != last {
        assert IntLess(listed[i], listed[|front|]);
      }
    }
  }
}
