/** The tables of MetricStore as values, and what each of its two writing
    transactions does to them. A run is a sequence of committed or refused
    batches and of retention passes, in any order. */
module Ledger {
  import opened Models

  datatype Row = Row(at: Timestamp, series: Series, resetId: Name, raw: Reading, delta: nat, isBaseline: bool,
      isReset: bool)

  datatype Cursor = Cursor(resetId: Name, raw: Reading, at: Timestamp)

  type Cursors = map<Series, Cursor>

  datatype Disorder = NotTimeOrdered | ConflictingTimestamp

  datatype Outcome<+T> = Done(value: T) | Abort(error: Disorder)

  // ---------- recording ----------

  function CursorAt(row: Row): Cursor {
    Cursor(row.resetId, row.raw, row.at)
  }

  function Advance(cursors: Cursors, row: Row): Cursors {
    cursors[row.series := CursorAt(row)]
  }

  /** The row one observation adds, given where its counter stands. */
  function Derive(cursors: Cursors, o: CounterObservation): Outcome<Row> {
    if o.series !in cursors then
      Done(Row(o.at, o.series, o.resetId, o.value, 0, true, false))
    else
      var prior := cursors[o.series];
      if o.at < prior.at then
        Abort(NotTimeOrdered)
      else if o.at == prior.at && (o.value != prior.raw || o.resetId != prior.resetId) then
        Abort(ConflictingTimestamp)
      else
        var isReset := o.resetId != prior.resetId || o.value < prior.raw;
        Done(Row(o.at, o.series, o.resetId, o.value, if isReset then 0 else o.value - prior.raw, false, isReset))
  }

  datatype Recorded = Recorded(rows: seq<Row>, cursors: Cursors)

  /** The counter half of a batch: each observation sees its predecessors. */
  function RecordAll(cursors: Cursors, counters: seq<CounterObservation>): Outcome<Recorded> {
    if counters == [] then
      Done(Recorded([], cursors))
    else
      match RecordAll(cursors, counters[..|counters| - 1])
      case Abort(error) => Abort(error)
      case Done(before) =>
        match Derive(before.cursors, counters[|counters| - 1])
        case Abort(error) => Abort(error)
        case Done(row) => Done(Recorded(before.rows + [row], Advance(before.cursors, row)))
  }

  lemma RecordOneMore(cursors: Cursors, counters: seq<CounterObservation>, o: CounterObservation)
    ensures RecordAll(cursors, counters + [o]) ==
            match RecordAll(cursors, counters)
            case Abort(error) => Abort(error)
            case Done(before) =>
              match Derive(before.cursors, o)
              case Abort(error) => Abort(error)
              case Done(row) => Done(Recorded(before.rows + [row], Advance(before.cursors, row)))
  {
    assert (counters + [o])[..|counters + [o]| - 1] == counters;
  }

  function ResultOf(row: Row): CounterResult {
    CounterResult(row.series, row.raw, row.delta, row.resetId, row.isBaseline, row.isReset)
  }

  function Results(rows: seq<Row>): seq<CounterResult> {
    seq(|rows|, i requires 0 <= i < |rows| => ResultOf(rows[i]))
  }

  datatype Tables = Tables(
    gauges: seq<GaugeObservation>,
    rows: seq<Row>,
    cursors: Cursors,
    rollups: Rollups,
    health: seq<HealthObservation>)

  const EMPTY_TABLES := Tables([], [], map[], map[], [])

  datatype Batch = Batch(gauges: seq<GaugeObservation>, counters: seq<CounterObservation>,
      health: seq<HealthObservation>)

  datatype Committed = Committed(tables: Tables, results: seq<CounterResult>)

  /** One batch: everything it carries is stored, or nothing is. */
  function Commit(t: Tables, batch: Batch): Outcome<Committed> {
    match RecordAll(t.cursors, batch.counters)
    case Abort(error) => Abort(error)
    case Done(recorded) =>
      Done(Committed(
             Tables(t.gauges + batch.gauges, t.rows + recorded.rows, recorded.cursors, t.rollups,
                 t.health + batch.health),
             Results(recorded.rows)))
  }

  // ---------- hours ----------

  /** A float-to-integer cast in SQL and in Python drops the fraction. */
  function Truncate(x: real): int {
    if x >= 0.0 then x.Floor else -((-x).Floor)
  }

  /** The rollup bucket SQL assigns to an observation time. */
  function BucketStart(at: Timestamp): int {
    Truncate(at / 3600.0) * 3600
  }

  /** Python's floor division: the start of the hour that holds a cutoff, which may be negative. */
  function HourFloor(cutoff: real): int {
    (cutoff / 3600.0).Floor * 3600
  }

  lemma HourBounds(t: real)
    ensures HourFloor(t) as real <= t < (HourFloor(t) + 3600) as real
    ensures HourFloor(t) % 3600 == 0
    ensures t >= 0.0 ==> BucketStart(t) == HourFloor(t)
  {
    var h := (t / 3600.0).Floor;
    assert h as real <= t / 3600.0 < (h + 1) as real;
  }

  /** The hour of an instant is the only one that holds it. */
  lemma HourUnique(t: real, hour: int)
    requires hour % 3600 == 0 && hour as real <= t < (hour + 3600) as real
    ensures HourFloor(t) == hour
  {
    HourBounds(t);
    var floor := HourFloor(t);
    assert floor < hour + 3600 && hour < floor + 3600;
    assert floor / 3600 == hour / 3600;
  }

  // ---------- retention ----------

  /** One hour of one counter, as the rollup table stores it. */
  datatype Bucket = Bucket(delta: nat, resets: nat)

  datatype BucketKey = BucketKey(start: int, series: Series)

  type Rollups = map<BucketKey, Bucket>

  /** A bucket that may not exist. Existing with zero traffic is not the same as not existing. */
  type Slot = Option<Bucket>

  function Plus(a: Slot, b: Slot): Slot {
    match (a, b)
    case (None, _) => b
    case (_, None) => a
    case (Some(x), Some(y)) => Some(Bucket(x.delta + y.delta, x.resets + y.resets))
  }

  function Contribution(row: Row): Bucket {
    Bucket(row.delta, if row.isReset then 1 else 0)
  }

  function KeyOf(row: Row): BucketKey {
    BucketKey(BucketStart(row.at), row.series)
  }

  function Lookup(rollups: Rollups, key: BucketKey): Slot {
    if key in rollups then Some(rollups[key]) else None
  }

  predicate Falls(row: Row, key: BucketKey, from: real, until: real) {
    from <= row.at < until && KeyOf(row) == key
  }

  /** What the rows observed in [from, until) add up to in one bucket. */
  function Tally(rows: seq<Row>, key: BucketKey, from: real, until: real): Slot {
    if rows == [] then
      None
    else
      var row := rows[|rows| - 1];
      Plus(Tally(rows[..|rows| - 1], key, from, until),
           if Falls(row, key, from, until) then Some(Contribution(row)) else None)
  }

  lemma {:induction false} TallyPresent(rows: seq<Row>, key: BucketKey, from: real, until: real)
    ensures Tally(rows, key, from, until).Some? <==> exists i :: 0 <= i < |rows| && Falls(rows[i], key, from, until)
  {
    if rows == [] {
    } else {
      var front := rows[..|rows| - 1];
      TallyPresent(front, key, from, until);
      if i :| 0 <= i < |rows| && Falls(rows[i], key, from, until) {
        assert i < |front| ==> Falls(front[i], key, from, until);
      }
      if i :| 0 <= i < |front| && Falls(front[i], key, from, until) {
        assert Falls(rows[i], key, from, until);
      }
    }
  }

  /** The bucket keys the rows observed in [from, until) group into. */
  function GroupKeys(rows: seq<Row>, from: real, until: real): set<BucketKey> {
    set i | 0 <= i < |rows| && from <= rows[i].at < until :: KeyOf(rows[i])
  }

  /** The rollup table after the rows observed in [from, until) are grouped and added to it. */
  function Merge(rollups: Rollups, rows: seq<Row>, from: real, until: real): Rollups {
    map key | key in rollups.Keys + GroupKeys(rows, from, until) ::
      (TallyPresent(rows, key, from, until);
       assert key !in rollups ==> exists i :: 0 <= i < |rows| && Falls(rows[i], key, from, until);
       Plus(Lookup(rollups, key), Tally(rows, key, from, until)).value)
  }

  function Prune(rollups: Rollups, before: int): Rollups {
    map key | key in rollups && key.start >= before :: rollups[key]
  }

  /** The records observed at or after a cutoff, in their order. */
  function Since<T>(records: seq<T>, at: T -> real, cutoff: real): seq<T> {
    if records == [] then
      []
    else
      var last := records[|records| - 1];
      Since(records[..|records| - 1], at, cutoff) + if at(last) >= cutoff then [last] else []
  }

  function RowTime(row: Row): real { row.at }
  function GaugeTime(gauge: GaugeObservation): real { gauge.at }
  function HealthTime(health: HealthObservation): real { health.at }

  datatype DaySettings = DaySettings(raw: int, rollup: int)

  predicate ValidDays(d: DaySettings) {
    1 <= d.raw <= 30 && 30 <= d.rollup <= 800 && d.raw < d.rollup
  }

  type Days = d: DaySettings | ValidDays(d) witness DaySettings(7, 400)

  function RawCutoff(now: real, days: Days): real {
    now - (days.raw * 86400) as real
  }

  function RollupCutoff(now: real, days: Days): real {
    now - (days.rollup * 86400) as real
  }

  /** One retention pass. Cursors are left alone. */
  function Retained(t: Tables, now: real, days: Days): Tables {
    var raw, rollup := RawCutoff(now, days), RollupCutoff(now, days);
    Tables(
      Since(t.gauges, GaugeTime, raw),
      Since(t.rows, RowTime, raw),
      t.cursors,
      Prune(Merge(t.rollups, t.rows, rollup, raw), HourFloor(rollup)),
      Since(t.health, HealthTime, raw))
  }

  // ---------- runs ----------

  datatype Event = Record(batch: Batch) | Retain(now: real, days: Days)

  /** A refused batch leaves the tables as they were. */
  function Apply(t: Tables, event: Event): Tables {
    match event
    case Record(batch) => (match Commit(t, batch) case Done(c) => c.tables case Abort(_) => t)
    case Retain(now, days) => Retained(t, now, days)
  }

  /** The tables after a whole run from an empty database. */
  function Run(events: seq<Event>): Tables {
    if events == [] then EMPTY_TABLES else Apply(Run(events[..|events| - 1]), events[|events| - 1])
  }

  /** The same run with every retention pass erased. */
  function Batches(events: seq<Event>): seq<Event> {
    if events == [] then
      []
    else
      Batches(events[..|events| - 1]) + if events[|events| - 1].Record? then [events[|events| - 1]] else []
  }

  /** The database that never forgets: the full, unpruned history of the run. */
  function Unpruned(events: seq<Event>): Tables {
    Run(Batches(events))
  }
}
