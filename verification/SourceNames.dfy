/** The figures of the dashboard said in the names the collectors use: which counter feeds which figure,
    and what every point of the chart and of the day window adds up. */
module SourceNames {
  import opened Models
  import opened Ledger
  import opened Orders
  import opened Queries

  // ---------- counters by their names ----------

  /** A label that names a network interface which is neither the loopback nor a virtual one. */
  predicate RealInterface(labels: map<string, string>) {
    && "interface" in labels
    && var name := labels["interface"];
       && name != "" && name != "lo"
       && !("br-" <= name) && !("cni" <= name) && !("docker" <= name) && !("dummy" <= name) && !("flannel" <= name)
       && !("tap" <= name) && !("tailscale" <= name) && !("tun" <= name) && !("veth" <= name) && !("virbr" <= name)
       && !("wg" <= name)
  }

  /** A host counter of this name on a real interface. */
  function HostNamed(name: string): Series -> bool {
    (series: Series) => series.source == "host" && series.name == name && RealInterface(series.labels)
  }

  predicate Labelled(labels: map<string, string>, key: string, value: string) {
    key in labels && labels[key] == value
  }

  /** An Xray traffic counter with these labels. */
  function XrayNamed(scope: string, direction: string): Series -> bool {
    (series: Series) => series.source == "xray" && series.name == "traffic_bytes_total"
      && Labelled(series.labels, "scope", scope) && Labelled(series.labels, "direction", direction)
  }

  lemma InterfaceIsReal(labels: map<string, string>)
    ensures External(labels) <==> RealInterface(labels)
  {
    var p := VIRTUAL_INTERFACE_PREFIXES;
    assert |p| == 11;
    assert p[0] == "br-" && p[1] == "cni" && p[2] == "docker" && p[3] == "dummy" && p[4] == "flannel" && p[5] == "tap";
    assert p[6] == "tailscale" && p[7] == "tun" && p[8] == "veth" && p[9] == "virbr" && p[10] == "wg";
  }

  /** The names of the eight host counters. */
  lemma FieldIsNamed(name: string)
    ensures FieldOf(name) == Some(RxBytes) <==> name == "network_receive_bytes_total"
    ensures FieldOf(name) == Some(RxPackets) <==> name == "network_receive_packets_total"
    ensures FieldOf(name) == Some(RxErrors) <==> name == "network_receive_errors_total"
    ensures FieldOf(name) == Some(RxDrops) <==> name == "network_receive_drops_total"
    ensures FieldOf(name) == Some(TxBytes) <==> name == "network_transmit_bytes_total"
    ensures FieldOf(name) == Some(TxPackets) <==> name == "network_transmit_packets_total"
    ensures FieldOf(name) == Some(TxErrors) <==> name == "network_transmit_errors_total"
    ensures FieldOf(name) == Some(TxDrops) <==> name == "network_transmit_drops_total"
  {
  }

  lemma ScopeIsLabelled(labels: map<string, string>)
    ensures ScopeOf(labels) == Some(User) <==> Labelled(labels, "scope", "user")
    ensures ScopeOf(labels) == Some(Inbound) <==> Labelled(labels, "scope", "inbound")
    ensures ScopeOf(labels) == Some(Outbound) <==> Labelled(labels, "scope", "outbound")
  {
  }

  lemma DirectionIsLabelled(labels: map<string, string>)
    ensures DirectionOf(labels) == Some(Uplink) <==> Labelled(labels, "direction", "uplink")
    ensures DirectionOf(labels) == Some(Downlink) <==> Labelled(labels, "direction", "downlink")
  {
  }

  function ScopeText(scope: Scope): string {
    match scope
    case User => "user"
    case Inbound => "inbound"
    case Outbound => "outbound"
  }

  function DirectionText(direction: Direction): string {
    match direction
    case Uplink => "uplink"
    case Downlink => "downlink"
  }

  function FieldText(field: NetworkField): string {
    match field
    case RxBytes => "network_receive_bytes_total"
    case RxPackets => "network_receive_packets_total"
    case RxErrors => "network_receive_errors_total"
    case RxDrops => "network_receive_drops_total"
    case TxBytes => "network_transmit_bytes_total"
    case TxPackets => "network_transmit_packets_total"
    case TxErrors => "network_transmit_errors_total"
    case TxDrops => "network_transmit_drops_total"
  }

  function Named(selector: Selector): Series -> bool {
    match selector
    case Host(field) => HostNamed(FieldText(field))
    case Xray(scope, direction) => XrayNamed(ScopeText(scope), DirectionText(direction))
  }

  lemma FieldHasText(name: string, field: NetworkField)
    ensures FieldOf(name) == Some(field) <==> name == FieldText(field)
  {
    hide FieldOf;
    FieldIsNamed(name);
  }

  lemma ScopeHasText(labels: map<string, string>, scope: Scope)
    ensures ScopeOf(labels) == Some(scope) <==> Labelled(labels, "scope", ScopeText(scope))
  {
    hide ScopeOf;
    ScopeIsLabelled(labels);
  }

  lemma DirectionHasText(labels: map<string, string>, direction: Direction)
    ensures DirectionOf(labels) == Some(direction) <==> Labelled(labels, "direction", DirectionText(direction))
  {
    hide DirectionOf;
    DirectionIsLabelled(labels);
  }

  lemma HostByName(series: Series, field: NetworkField)
    ensures Classify(series) == Some(Host(field)) <==> HostNamed(FieldText(field))(series)
  {
    hide External, RealInterface, FieldOf, FieldText, ScopeOf, DirectionOf;
    InterfaceIsReal(series.labels);
    FieldHasText(series.name, field);
  }

  lemma XrayByName(series: Series, scope: Scope, direction: Direction)
    ensures Classify(series) == Some(Xray(scope, direction)) <==>
            XrayNamed(ScopeText(scope), DirectionText(direction))(series)
  {
    hide External, FieldOf, ScopeOf, DirectionOf, Labelled, ScopeText, DirectionText;
    assert "host"[0] != "xray"[0];
    ScopeHasText(series.labels, scope);
    DirectionHasText(series.labels, direction);
  }

  /** A counter feeds a figure exactly when its name and labels say so. */
  lemma ClassifiedByName(series: Series, selector: Selector)
    ensures Classify(series) == Some(selector) <==> Named(selector)(series)
  {
    hide Classify, HostNamed, XrayNamed;
    match selector
    case Host(field) => HostByName(series, field);
    case Xray(scope, direction) => XrayByName(series, scope, direction);
  }

  // ---------- what a stretch of time adds up to ----------

  /** A stretch of time. */
  function Stretch(from: real, to: real): real -> bool {
    (at: real) => from <= at < to
  }

  /** A bucket counted with truncation: the first one reaches back as far as it reaches forward. */
  function Truncated(origin: int, width: int, bucket: int): real -> bool
    requires width > 0
  {
    (at: real) =>
      var x := (at - origin as real) / width as real;
      if x >= 0.0 then bucket as real <= x < (bucket + 1) as real else (bucket - 1) as real < x <= bucket as real
  }

  predicate RowFeeds(row: Row, feeds: Series -> bool, since: int, within: real -> bool) {
    row.at >= since as real && feeds(row.series) && within(row.at)
  }

  predicate BucketFeeds(key: BucketKey, feeds: Series -> bool, since: int, within: real -> bool) {
    key.start >= SinceHour(since) && feeds(key.series) && within(key.start as real)
  }

  /** What the raw rows of some counters add up to over some time. */
  function RowsFed(rows: seq<Row>, feeds: Series -> bool, since: int, within: real -> bool): nat {
    if rows == [] then 0
    else
      var last := rows[|rows| - 1];
      RowsFed(rows[..|rows| - 1], feeds, since, within) + if RowFeeds(last, feeds, since, within) then last.delta else 0
  }

  ghost function BucketsFed(rollups: Rollups, feeds: Series -> bool, since: int, within: real -> bool): nat
    decreases |rollups|
  {
    if rollups == map[] then
      0
    else
      var key :| key in rollups;
      assert |rollups - {key}| < |rollups| by { Smaller(rollups, key); }
      BucketsFed(rollups - {key}, feeds, since, within)
      + if BucketFeeds(key, feeds, since, within) then rollups[key].delta else 0
  }

  /** Raw rows and rollups together. A rollup is read from the hour that holds the start. */
  ghost function Fed(t: Tables, feeds: Series -> bool, since: int, within: real -> bool): nat {
    RowsFed(t.rows, feeds, since, within) + BucketsFed(t.rollups, feeds, since, within)
  }

  /** Whether there is any record of these counters. */
  predicate AnyFed(t: Tables, feeds: Series -> bool, since: int, within: real -> bool) {
    || (exists i :: 0 <= i < |t.rows| && RowFeeds(t.rows[i], feeds, since, within))
    || exists key :: key in t.rollups && BucketFeeds(key, feeds, since, within)
  }

  /** The hour that holds the start, as a truncating division finds it. */
  lemma SinceHourIs(since: int)
    ensures SinceHour(since) % 3600 == 0
    ensures since >= 0 ==> SinceHour(since) <= since < SinceHour(since) + 3600
    ensures since < 0 ==> since <= SinceHour(since) < since + 3600
  {
  }

  /** A cell of a grid is a stretch of time. */
  lemma CellSpan(grid: TimeGrid, at: real, index: int)
    ensures Index(grid, at) == index <==>
            (grid.origin + index * grid.width) as real <= at < (grid.origin + (index + 1) * grid.width) as real
  {
    var w, x := grid.width as real, at - grid.origin as real;
    var q := x / w;
    assert q * w == x;
    Scaled(index, q, grid.width);
    Scaled(index + 1, q, grid.width);
    assert (grid.origin + index * grid.width) as real == grid.origin as real + (index * grid.width) as real;
    assert (grid.origin + (index + 1) * grid.width) as real
           == grid.origin as real + ((index + 1) * grid.width) as real;
    assert q.Floor == index <==> index as real <= q && !((index + 1) as real <= q);
  }

  lemma Scaled(n: int, q: real, width: int)
    requires width > 0
    ensures n as real <= q <==> (n * width) as real <= q * width as real
  {
    var a, w := n as real, width as real;
    assert (n * width) as real == a * w;
    if a > q {
      assert (a - q) * w > 0.0;
    } else {
      assert (q - a) * w >= 0.0;
    }
  }

  /** The time of a grid cell. */
  function CellTime(grid: TimeGrid, index: int): real -> bool {
    Stretch((grid.origin + index * grid.width) as real, (grid.origin + (index + 1) * grid.width) as real)
  }

  lemma RowHits(row: Row, since: int, grid: TimeGrid, selector: Selector, index: int)
    ensures HitsRow(CellQuery(since, grid, (selector, index)), row) <==>
            RowFeeds(row, Named(selector), since, CellTime(grid, index))
  {
    hide Classify, Index, Named;
    ClassifiedByName(row.series, selector);
    CellSpan(grid, row.at, index);
  }

  lemma BucketHits(key: BucketKey, since: int, grid: TimeGrid, selector: Selector, index: int)
    ensures HitsBucket(CellQuery(since, grid, (selector, index)), key) <==>
            BucketFeeds(key, Named(selector), since, CellTime(grid, index))
  {
    hide Classify, Index, Named, SinceHour;
    ClassifiedByName(key.series, selector);
    CellSpan(grid, key.start as real, index);
  }

  lemma {:induction false} RowsFedIs(rows: seq<Row>, since: int, grid: TimeGrid, selector: Selector, index: int)
    ensures RowSum(rows, CellQuery(since, grid, (selector, index))) ==
            RowsFed(rows, Named(selector), since, CellTime(grid, index))
  {
    hide HitsRow, RowFeeds, Named, CellTime;
    if rows == [] {
    } else {
      RowsFedIs(rows[..|rows| - 1], since, grid, selector, index);
      RowHits(rows[|rows| - 1], since, grid, selector, index);
    }
  }

  lemma {:induction false} BucketsFedIs(rollups: Rollups, since: int, grid: TimeGrid, selector: Selector, index: int)
    ensures RollupSum(rollups, CellQuery(since, grid, (selector, index))) ==
            BucketsFed(rollups, Named(selector), since, CellTime(grid, index))
    decreases |rollups|
  {
    hide HitsBucket, BucketFeeds, Named, CellTime, CellQuery;
    var q, feeds, within := CellQuery(since, grid, (selector, index)), Named(selector), CellTime(grid, index);
    if rollups == map[] {
    } else {
      var key :| key in rollups && BucketsFed(rollups, feeds, since, within) ==
                   BucketsFed(rollups - {key}, feeds, since, within)
                   + if BucketFeeds(key, feeds, since, within) then rollups[key].delta else 0;
      Smaller(rollups, key);
      BucketsFedIs(rollups - {key}, since, grid, selector, index);
      RollupSumWithout(rollups, key, q);
      BucketHits(key, since, grid, selector, index);
    }
  }

  lemma CellIsRecorded(t: Tables, since: int, grid: TimeGrid, selector: Selector, index: int)
    ensures (selector, index) in Cells(t, since, grid) <==>
            AnyFed(t, Named(selector), since, CellTime(grid, index))
  {
    hide Classify, Index, Named, SinceHour, CellTime;
    forall i | 0 <= i < |t.rows|
      ensures RowFeeds(t.rows[i], Named(selector), since, CellTime(grid, index)) <==>
              t.rows[i].at >= since as real && Classify(t.rows[i].series) == Some(selector)
              && Index(grid, t.rows[i].at) == index
    {
      RowHits(t.rows[i], since, grid, selector, index);
    }
    forall key | key in t.rollups
      ensures BucketFeeds(key, Named(selector), since, CellTime(grid, index)) <==>
              key.start >= SinceHour(since) && Classify(key.series) == Some(selector)
              && Index(grid, key.start as real) == index
    {
      BucketHits(key, since, grid, selector, index);
    }
  }

  /** A cell of any grid holds what the named counters recorded in its time. */
  lemma CellIsFed(t: Tables, since: int, grid: TimeGrid, selector: Selector, index: int)
    ensures CellTraffic(t, since, grid, (selector, index)) == Fed(t, Named(selector), since, CellTime(grid, index))
    ensures (selector, index) in Cells(t, since, grid) <==> AnyFed(t, Named(selector), since, CellTime(grid, index))
  {
    RowsFedIs(t.rows, since, grid, selector, index);
    BucketsFedIs(t.rollups, since, grid, selector, index);
    CellIsRecorded(t, since, grid, selector, index);
    hide Cells, AnyFed;
  }

  // ---------- the writer's chart ----------

  function MinuteTime(minute: int): real -> bool {
    Stretch((minute * 60) as real, (minute * 60 + 60) as real)
  }

  /** A figure of the chart: absent without a record. */
  ghost function FedIf(t: Tables, feeds: Series -> bool, since: int, within: real -> bool): Option<nat> {
    if AnyFed(t, feeds, since, within) then Some(Fed(t, feeds, since, within)) else None
  }

  /** Whether any traffic of an Xray scope is read. */
  predicate ScopeRead(t: Tables, since: int, scope: string) {
    || (exists i :: 0 <= i < |t.rows| && t.rows[i].at >= since as real
                    && (XrayNamed(scope, "uplink")(t.rows[i].series) || XrayNamed(scope, "downlink")(t.rows[i].series)))
    || exists key :: key in t.rollups && key.start >= SinceHour(since)
                     && (XrayNamed(scope, "uplink")(key.series) || XrayNamed(scope, "downlink")(key.series))
  }

  /** Scopes overlap; users come before inbound, inbound before outbound. */
  function ScopeShown(t: Tables, since: int): Option<string> {
    if ScopeRead(t, since, "user") then Some("user")
    else if ScopeRead(t, since, "inbound") then Some("inbound")
    else if ScopeRead(t, since, "outbound") then Some("outbound")
    else None
  }

  ghost function XrayFed(t: Tables, since: int, direction: string, minute: int): Option<nat> {
    match ScopeShown(t, since)
    case None => None
    case Some(scope) =>
      if AnyFed(t, XrayNamed(scope, "uplink"), since, MinuteTime(minute))
         || AnyFed(t, XrayNamed(scope, "downlink"), since, MinuteTime(minute))
      then Some(Fed(t, XrayNamed(scope, direction), since, MinuteTime(minute))) else None
  }

  /** The point of a minute. */
  ghost function MinutePoint(t: Tables, since: int, minute: int): Point {
    Point(minute * 60,
          FedIf(t, HostNamed("network_receive_bytes_total"), since, MinuteTime(minute)),
          FedIf(t, HostNamed("network_transmit_bytes_total"), since, MinuteTime(minute)),
          XrayFed(t, since, "uplink", minute), XrayFed(t, since, "downlink", minute))
  }

  lemma ScopeCells(t: Tables, since: int, scope: Scope)
    ensures scope in ScopesOf(Cells(t, since, MINUTES)) <==> ScopeRead(t, since, ScopeText(scope))
  {
    hide Classify, Index, XrayNamed, ScopeText, SinceHour;
    var cells := Cells(t, since, MINUTES);
    forall series: Series
      ensures Classify(series).Some? && Classify(series).value.Xray? && Classify(series).value.scope == scope <==>
              XrayNamed(ScopeText(scope), "uplink")(series) || XrayNamed(ScopeText(scope), "downlink")(series)
    {
      XrayByName(series, scope, Uplink);
      XrayByName(series, scope, Downlink);
      BothDirections(series, scope);
    }
    if scope in ScopesOf(cells) {
      var cell :| cell in cells && cell.0.Xray? && cell.0.scope == scope;
    }
    if i: nat :| i < |t.rows| && t.rows[i].at >= since as real
                 && (XrayNamed(ScopeText(scope), "uplink")(t.rows[i].series)
                     || XrayNamed(ScopeText(scope), "downlink")(t.rows[i].series)) {
      var cell := (Classify(t.rows[i].series).value, Index(MINUTES, t.rows[i].at));
      assert cell in cells;
    }
    if key :| key in t.rollups && key.start >= SinceHour(since)
              && (XrayNamed(ScopeText(scope), "uplink")(key.series)
                  || XrayNamed(ScopeText(scope), "downlink")(key.series)) {
      var cell := (Classify(key.series).value, Index(MINUTES, key.start as real));
      assert cell in cells;
    }
  }

  lemma BothDirections(series: Series, scope: Scope)
    ensures Classify(series).Some? && Classify(series).value.Xray? && Classify(series).value.scope == scope <==>
            Classify(series) == Some(Xray(scope, Uplink)) || Classify(series) == Some(Xray(scope, Downlink))
  {
    hide Classify;
    if Classify(series).Some? && Classify(series).value.Xray? {
      match Classify(series).value.direction
      case Uplink =>
      case Downlink =>
    }
  }

  lemma ShownIsNamed(t: Tables, since: int)
    ensures Shown(t, since).None? <==> ScopeShown(t, since).None?
    ensures Shown(t, since).Some? ==> ScopeShown(t, since) == Some(ScopeText(Shown(t, since).value))
  {
    hide ScopeRead, Cells, ScopesOf;
    ScopeCells(t, since, User);
    ScopeCells(t, since, Inbound);
    ScopeCells(t, since, Outbound);
  }

  /** Every point of the chart shows, for its minute, what the counters of these names recorded. */
  lemma PointIsNamed(t: Tables, since: int, minute: int)
    ensures PointAt(t, since, minute) == MinutePoint(t, since, minute)
  {
    hide Cells, AnyFed, Fed, CellTraffic, HostNamed, XrayNamed, Shown, ScopeShown, Stretch;
    assert CellTime(MINUTES, minute) == MinuteTime(minute);
    CellIsFed(t, since, MINUTES, Host(RxBytes), minute);
    CellIsFed(t, since, MINUTES, Host(TxBytes), minute);
    ShownIsNamed(t, since);
    if Shown(t, since).Some? {
      CellIsFed(t, since, MINUTES, Xray(Shown(t, since).value, Uplink), minute);
      CellIsFed(t, since, MINUTES, Xray(Shown(t, since).value, Downlink), minute);
    }
  }

  predicate Drawn(point: Point) {
    point.hostRx.Some? || point.hostTx.Some? || point.xrayUp.Some? || point.xrayDown.Some?
  }

  /** The whole chart before it is cut: in ascending minutes, the point of every minute that has one. */
  ghost predicate IsChart(t: Tables, since: int, points: seq<Point>) {
    && (forall i, j | 0 <= i < j < |points| :: points[i].timestamp < points[j].timestamp)
    && (forall i | 0 <= i < |points| ::
          points[i] == MinutePoint(t, since, points[i].timestamp / 60) && Drawn(points[i]))
    && forall minute | Drawn(MinutePoint(t, since, minute)) :: MinutePoint(t, since, minute) in points
  }

  lemma DrawnMinute(t: Tables, since: int, minute: int)
    ensures minute in ChartedMinutes(Cells(t, since, MINUTES)) <==> Drawn(PointAt(t, since, minute))
  {
    hide Cells, ScopesOf, CellTraffic;
    var cells := Cells(t, since, MINUTES);
    if minute in ChartedMinutes(cells) {
      var cell :| cell in cells && Charted(cell.0, Shown(t, since)) && cell.1 == minute;
      assert cell == (cell.0, minute);
      CellDraws(t, since, cell);
    }
    if Drawn(PointAt(t, since, minute)) {
      var cell := DrawnBy(t, since, minute);
      assert cell in cells && Charted(cell.0, PreferredScope(ScopesOf(cells)));
    }
  }

  lemma CellDraws(t: Tables, since: int, cell: Cell)
    requires cell in Cells(t, since, MINUTES) && Charted(cell.0, Shown(t, since))
    ensures Drawn(PointAt(t, since, cell.1))
  {
    hide Cells, ScopesOf, CellTraffic, Shown;
    match cell.0
    case Host(field) =>
      assert cell == (Host(field), cell.1);
    case Xray(scope, direction) =>
      assert cell == (Xray(scope, direction), cell.1);
      assert direction == Uplink || direction == Downlink;
  }

  lemma DrawnBy(t: Tables, since: int, minute: int) returns (cell: Cell)
    requires Drawn(PointAt(t, since, minute))
    ensures cell in Cells(t, since, MINUTES) && Charted(cell.0, Shown(t, since)) && cell.1 == minute
  {
    hide Cells, ScopesOf, CellTraffic, Shown;
    var cells := Cells(t, since, MINUTES);
    if (Host(RxBytes), minute) in cells {
      cell := (Host(RxBytes), minute);
    } else if (Host(TxBytes), minute) in cells {
      cell := (Host(TxBytes), minute);
    } else if (Xray(Shown(t, since).value, Uplink), minute) in cells {
      cell := (Xray(Shown(t, since).value, Uplink), minute);
    } else {
      cell := (Xray(Shown(t, since).value, Downlink), minute);
    }
  }

  lemma ChartIsNamed(t: Tables, since: int)
    ensures IsChart(t, since, WriterSeries(t, since))
  {
    hide Cells, MinutePoint, PointAt, ChartedMinutes;
    var minutes, points := Minutes(t, since), WriterSeries(t, since);
    forall i | 0 <= i < |points|
      ensures points[i] == MinutePoint(t, since, minutes[i]) && points[i].timestamp == minutes[i] * 60
      ensures Drawn(points[i])
    {
      PointIsNamed(t, since, minutes[i]);
      assert minutes[i] in Elements(minutes);
      DrawnMinute(t, since, minutes[i]);
      TimestampOf(t, since, minutes[i]);
    }
    forall i, j | 0 <= i < j < |points| ensures points[i].timestamp < points[j].timestamp {
      assert IntLess(minutes[i], minutes[j]);
    }
    forall minute | Drawn(MinutePoint(t, since, minute)) ensures MinutePoint(t, since, minute) in points {
      PointIsNamed(t, since, minute);
      DrawnMinute(t, since, minute);
      assert minute in Elements(minutes);
      var i :| 0 <= i < |minutes| && minutes[i] == minute;
      assert points[i] == MinutePoint(t, since, minute);
    }
  }

  lemma TimestampOf(t: Tables, since: int, minute: int)
    ensures MinutePoint(t, since, minute).timestamp == minute * 60
  {
  }

  // ---------- the day window ----------

  function WindowFed(rows: seq<Row>, feeds: Series -> bool, since: real): nat {
    if rows == [] then 0
    else
      var last := rows[|rows| - 1];
      WindowFed(rows[..|rows| - 1], feeds, since) + if last.at >= since && feeds(last.series) then last.delta else 0
  }

  lemma {:induction false} WindowIsNamed(rows: seq<Row>, field: NetworkField, since: real)
    ensures WindowSum(rows, field, since) == WindowFed(rows, HostNamed(FieldText(field)), since)
  {
    hide Classify, HostNamed, FieldText;
    if rows == [] {
    } else {
      WindowIsNamed(rows[..|rows| - 1], field, since);
      HostByName(rows[|rows| - 1].series, field);
    }
  }
}
