/** What the dashboard queries read: the union of the raw rows and of the rollups,
    grouped by what a counter measures and by a time grid. */
module Queries {
  import opened Models
  import opened Ledger
  import opened Orders

  // ---------- what a counter measures ----------

  datatype NetworkField = RxBytes | RxPackets | RxErrors | RxDrops | TxBytes | TxPackets | TxErrors | TxDrops

  datatype Scope = User | Inbound | Outbound

  datatype Direction = Uplink | Downlink

  datatype Selector = Host(field: NetworkField) | Xray(scope: Scope, direction: Direction)

  function FieldOf(name: string): Option<NetworkField> {
    match name
    case "network_receive_bytes_total" => Some(RxBytes)
    case "network_receive_packets_total" => Some(RxPackets)
    case "network_receive_errors_total" => Some(RxErrors)
    case "network_receive_drops_total" => Some(RxDrops)
    case "network_transmit_bytes_total" => Some(TxBytes)
    case "network_transmit_packets_total" => Some(TxPackets)
    case "network_transmit_errors_total" => Some(TxErrors)
    case "network_transmit_drops_total" => Some(TxDrops)
    case _ => None
  }

  const VIRTUAL_INTERFACE_PREFIXES: seq<string> :=
    ["br-", "cni", "docker", "dummy", "flannel", "tap", "tailscale", "tun", "veth", "virbr", "wg"]

  predicate External(labels: map<string, string>) {
    var name := if "interface" in labels then labels["interface"] else "";
    && name != "" && name != "lo"
    && !exists i :: 0 <= i < |VIRTUAL_INTERFACE_PREFIXES| && VIRTUAL_INTERFACE_PREFIXES[i] <= name
  }

  function ScopeOf(labels: map<string, string>): Option<Scope> {
    if "scope" !in labels then None
    else match labels["scope"]
      case "user" => Some(User)
      case "inbound" => Some(Inbound)
      case "outbound" => Some(Outbound)
      case _ => None
  }

  function DirectionOf(labels: map<string, string>): Option<Direction> {
    if "direction" !in labels then None
    else match labels["direction"]
      case "uplink" => Some(Uplink)
      case "downlink" => Some(Downlink)
      case _ => None
  }

  /** The dashboard figure a counter feeds, if any. Overlapping Xray scopes stay apart. */
  function Classify(series: Series): Option<Selector> {
    if series.source == "host" then
      match FieldOf(series.name)
      case Some(field) => if External(series.labels) then Some(Host(field)) else None
      case None => None
    else if series.source == "xray" && series.name == "traffic_bytes_total" then
      match (ScopeOf(series.labels), DirectionOf(series.labels))
      case (Some(scope), Some(direction)) => Some(Xray(scope, direction))
      case _ => None
    else
      None
  }

  // ---------- time grids ----------

  datatype Grid = Grid(origin: int, width: int)

  type TimeGrid = g: Grid | g.width > 0 witness Grid(0, 60)

  const MINUTES: TimeGrid := Grid(0, 60)

  /** Python's floor division on the grid. */
  function Index(grid: TimeGrid, at: real): int {
    ((at - grid.origin as real) / grid.width as real).Floor
  }

  // ---------- traffic ----------

  /** One figure over the grid cells [low, high), among what a series query for `since` reads. */
  datatype Query = Query(since: int, selector: Selector, grid: TimeGrid, low: int, high: int)

  /** SQL integer division truncates. */
  function SinceHour(since: int): int {
    (if since >= 0 then since / 3600 else -((-since) / 3600)) * 3600
  }

  predicate Selects(q: Query, series: Series, at: real) {
    Classify(series) == Some(q.selector) && q.low <= Index(q.grid, at) < q.high
  }

  predicate HitsRow(q: Query, row: Row) {
    row.at >= q.since as real && Selects(q, row.series, row.at)
  }

  predicate HitsBucket(q: Query, key: BucketKey) {
    key.start >= SinceHour(q.since) && Selects(q, key.series, key.start as real)
  }

  function RowSum(rows: seq<Row>, q: Query): nat {
    if rows == [] then 0
    else RowSum(rows[..|rows| - 1], q) + if HitsRow(q, rows[|rows| - 1]) then rows[|rows| - 1].delta else 0
  }

  ghost function RollupSum(rollups: Rollups, q: Query): nat
    decreases |rollups|
  {
    if rollups == map[] then
      0
    else
      var key :| key in rollups;
      assert |rollups - {key}| < |rollups| by { Smaller(rollups, key); }
      RollupSum(rollups - {key}, q) + if HitsBucket(q, key) then rollups[key].delta else 0
  }

  lemma Smaller(rollups: Rollups, key: BucketKey)
    requires key in rollups
    ensures |rollups - {key}| < |rollups|
  {
    assert (rollups - {key}).Keys == rollups.Keys - {key};
    assert |rollups| == |rollups.Keys| && |rollups - {key}| == |(rollups - {key}).Keys|;
  }

  ghost function Traffic(t: Tables, q: Query): nat {
    RowSum(t.rows, q) + RollupSum(t.rollups, q)
  }

  /** The sum over a table does not depend on the order it is read in. */
  lemma {:induction false} RollupSumWithout(rollups: Rollups, key: BucketKey, q: Query)
    requires key in rollups
    ensures RollupSum(rollups, q) == RollupSum(rollups - {key}, q)
            + if HitsBucket(q, key) then rollups[key].delta else 0
    decreases |rollups|
  {
    hide HitsBucket;
    var first :| first in rollups && RollupSum(rollups, q) ==
                   RollupSum(rollups - {first}, q) + if HitsBucket(q, first) then rollups[first].delta else 0;
    if first != key {
      Smaller(rollups, first);
      Smaller(rollups, key);
      RollupSumWithout(rollups - {first}, key, q);
      RollupSumWithout(rollups - {key}, first, q);
      assert rollups - {first} - {key} == rollups - {key} - {first};
    }
  }

  // ---------- the writer's series ----------

  /** One chart point; a figure no counter fed is absent. */
  datatype Point = Point(timestamp: int, hostRx: Option<nat>, hostTx: Option<nat>, xrayUp: Option<nat>,
      xrayDown: Option<nat>)

  /** A figure and a grid cell. */
  type Cell = (Selector, int)

  function RowCells(rows: seq<Row>, since: int, grid: TimeGrid): set<Cell> {
    set i | 0 <= i < |rows| && rows[i].at >= since as real && Classify(rows[i].series).Some? ::
      (Classify(rows[i].series).value, Index(grid, rows[i].at))
  }

  function BucketCells(rollups: Rollups, since: int, grid: TimeGrid): set<Cell> {
    set key | key in rollups && key.start >= SinceHour(since) && Classify(key.series).Some? ::
      (Classify(key.series).value, Index(grid, key.start as real))
  }

  /** The cells in which a query for `since` finds any record. */
  function Cells(t: Tables, since: int, grid: TimeGrid): set<Cell> {
    RowCells(t.rows, since, grid) + BucketCells(t.rollups, since, grid)
  }

  function CellQuery(since: int, grid: TimeGrid, cell: Cell): Query {
    Query(since, cell.0, grid, cell.1, cell.1 + 1)
  }

  /** What the tables hold in one cell. */
  ghost function CellTraffic(t: Tables, since: int, grid: TimeGrid, cell: Cell): nat {
    Traffic(t, CellQuery(since, grid, cell))
  }

  /** Scopes overlap, so only one is shown: users before inbound before outbound. */
  function PreferredScope(scopes: set<Scope>): Option<Scope> {
    if User in scopes then Some(User)
    else if Inbound in scopes then Some(Inbound)
    else if Outbound in scopes then Some(Outbound)
    else None
  }

  function ScopesOf(cells: set<Cell>): set<Scope> {
    set cell | cell in cells && cell.0.Xray? :: cell.0.scope
  }

  /** Whether a cell is on the chart: host bytes always, Xray only in the shown scope. */
  predicate Charted(selector: Selector, shown: Option<Scope>) {
    match selector
    case Host(field) => field == RxBytes || field == TxBytes
    case Xray(scope, _) => shown == Some(scope)
  }

  function ChartedMinutes(cells: set<Cell>): set<int> {
    set cell | cell in cells && Charted(cell.0, PreferredScope(ScopesOf(cells))) :: cell.1
  }

  ghost function HostFigure(t: Tables, since: int, field: NetworkField, minute: int): Option<nat> {
    if (Host(field), minute) in Cells(t, since, MINUTES)
        then Some(CellTraffic(t, since, MINUTES, (Host(field), minute))) else None
  }

  /** The Xray scope a chart shows. */
  function Shown(t: Tables, since: int): Option<Scope> {
    PreferredScope(ScopesOf(Cells(t, since, MINUTES)))
  }

  /** Both directions of the shown scope appear as soon as one of them has a record. */
  ghost function XrayFigure(t: Tables, since: int, direction: Direction, minute: int): Option<nat> {
    var cells := Cells(t, since, MINUTES);
    match Shown(t, since)
    case Some(scope) =>
      if (Xray(scope, Uplink), minute) in cells || (Xray(scope, Downlink), minute) in cells
      then Some(CellTraffic(t, since, MINUTES, (Xray(scope, direction), minute))) else None
    case None => None
  }

  ghost function PointAt(t: Tables, since: int, minute: int): Point {
    Point(minute * 60,
          HostFigure(t, since, RxBytes, minute), HostFigure(t, since, TxBytes, minute),
          XrayFigure(t, since, Uplink, minute), XrayFigure(t, since, Downlink, minute))
  }

  ghost function PointsAt(t: Tables, since: int, minutes: seq<int>): seq<Point> {
    seq(|minutes|, i requires 0 <= i < |minutes| => PointAt(t, since, minutes[i]))
  }

  ghost function Minutes(t: Tables, since: int): seq<int> {
    Listing(IntLess, ChartedMinutes(Cells(t, since, MINUTES)))
  }

  /** The chart before it is cut to its newest points. */
  ghost function WriterSeries(t: Tables, since: int): seq<Point> {
    PointsAt(t, since, Minutes(t, since))
  }

  /** The newest points, at most `limit` of them. */
  function Newest<T>(points: seq<T>, limit: nat): (newest: seq<T>)
    ensures |newest| <= limit && (|points| <= limit ==> newest == points)
    ensures limit <= |points| ==> |newest| == limit && forall i | 0 <= i < limit ::
            newest[i] == points[|points| - limit + i]
  {
    if |points| <= limit then points else points[|points| - limit..]
  }

  // ---------- the 24-hour host window ----------

  function WindowSum(rows: seq<Row>, field: NetworkField, since: real): nat {
    if rows == [] then
      0
    else
      var row := rows[|rows| - 1];
      WindowSum(rows[..|rows| - 1], field, since)
      + if row.at >= since && Classify(row.series) == Some(Host(field)) then row.delta else 0
  }
}
