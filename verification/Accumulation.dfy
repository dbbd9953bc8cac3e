/** The loops of the two series readers: they fold the union of raw rows and rollups into a
    dictionary, one addition at a time, and list its keys in order. */
module Accumulation {
  import opened Models
  import opened Ledger
  import opened Queries

  type Sums = map<Cell, nat>

  function At(sums: Sums, cell: Cell): nat {
    if cell in sums then sums[cell] else 0
  }

  /** The dictionary holds what the given rows and buckets put into every cell. */
  ghost predicate Holds(sums: Sums, rows: seq<Row>, read: Rollups, rest: Rollups, since: int, grid: TimeGrid) {
    && sums.Keys + BucketCells(rest, since, grid) == RowCells(rows, since, grid) + BucketCells(read, since, grid)
    && forall cell: Cell :: At(sums, cell) + RollupSum(rest, CellQuery(since, grid, cell))
                         == RowSum(rows, CellQuery(since, grid, cell)) + RollupSum(read, CellQuery(since, grid, cell))
  }

  lemma RowCellsSnoc(rows: seq<Row>, row: Row, since: int, grid: TimeGrid)
    ensures RowCells(rows + [row], since, grid) == RowCells(rows, since, grid)
            + if RowCell(row, since, grid).Some? then {RowCell(row, since, grid).value} else {}
  {
    var all := rows + [row];
    assert forall i | 0 <= i < |rows| :: all[i] == rows[i];
    assert all[|rows|] == row;
    forall cell | cell in RowCells(rows, since, grid) ensures cell in RowCells(all, since, grid) {
      var i :| 0 <= i < |rows| && rows[i].at >= since as real && Classify(rows[i].series).Some?
               && cell == (Classify(rows[i].series).value, Index(grid, rows[i].at));
      assert all[i] == rows[i];
    }
  }

  lemma RowSumSnoc(rows: seq<Row>, row: Row, q: Query)
    ensures RowSum(rows + [row], q) == RowSum(rows, q) + if HitsRow(q, row) then row.delta else 0
  {
    assert (rows + [row])[..|rows + [row]| - 1] == rows;
  }

  /** The cell a record is counted in, if it is read at all. */
  function RowCell(row: Row, since: int, grid: TimeGrid): Option<Cell> {
    if row.at >= since as real && Classify(row.series).Some?
    then Some((Classify(row.series).value, Index(grid, row.at))) else None
  }

  function BucketCell(key: BucketKey, since: int, grid: TimeGrid): Option<Cell> {
    if key.start >= SinceHour(since) && Classify(key.series).Some?
    then Some((Classify(key.series).value, Index(grid, key.start as real))) else None
  }

  /** sums[cell] = sums.get(cell, 0) + delta */
  function Counted(sums: Sums, into: Option<Cell>, delta: nat): Sums {
    if into.Some? then sums[into.value := At(sums, into.value) + delta] else sums
  }

  lemma CountedAt(sums: Sums, into: Option<Cell>, delta: nat, cell: Cell)
    ensures At(Counted(sums, into, delta), cell) == At(sums, cell) + if into == Some(cell) then delta else 0
  {
  }

  lemma RowHitsItsCell(row: Row, since: int, grid: TimeGrid, cell: Cell)
    ensures HitsRow(CellQuery(since, grid, cell), row) <==> RowCell(row, since, grid) == Some(cell)
  {
  }

  lemma BucketHitsItsCell(key: BucketKey, since: int, grid: TimeGrid, cell: Cell)
    ensures HitsBucket(CellQuery(since, grid, cell), key) <==> BucketCell(key, since, grid) == Some(cell)
  {
  }

  lemma HoldsAt(sums: Sums, rows: seq<Row>, read: Rollups, rest: Rollups, since: int, grid: TimeGrid, cell: Cell)
    requires Holds(sums, rows, read, rest, since, grid)
    ensures At(sums, cell) + RollupSum(rest, CellQuery(since, grid, cell))
         == RowSum(rows, CellQuery(since, grid, cell)) + RollupSum(read, CellQuery(since, grid, cell))
  {
  }

  lemma ReadRow(sums: Sums, rows: seq<Row>, row: Row, since: int, grid: TimeGrid)
    requires Holds(sums, rows, map[], map[], since, grid)
    ensures Holds(Counted(sums, RowCell(row, since, grid), row.delta), rows + [row], map[], map[], since, grid)
  {
    var after := Counted(sums, RowCell(row, since, grid), row.delta);
    RowCellsSnoc(rows, row, since, grid);
    assert after.Keys == RowCells(rows + [row], since, grid);
    forall cell: Cell ensures At(after, cell) == RowSum(rows + [row], CellQuery(since, grid, cell)) {
      HoldsAt(sums, rows, map[], map[], since, grid, cell);
      RowSumSnoc(rows, row, CellQuery(since, grid, cell));
      CountedAt(sums, RowCell(row, since, grid), row.delta, cell);
      RowHitsItsCell(row, since, grid, cell);
    }
  }

  lemma StartWithBuckets(sums: Sums, rows: seq<Row>, rollups: Rollups, since: int, grid: TimeGrid)
    requires Holds(sums, rows, map[], map[], since, grid)
    ensures Holds(sums, rows, rollups, rollups, since, grid)
  {
    forall cell: Cell ensures At(sums, cell) == RowSum(rows, CellQuery(since, grid, cell)) {
      assert At(sums, cell) + RollupSum(map[], CellQuery(since, grid, cell))
          == RowSum(rows, CellQuery(since, grid, cell)) + RollupSum(map[], CellQuery(since, grid, cell));
    }
    assert sums.Keys == RowCells(rows, since, grid);
  }

  lemma BucketCellsWithout(rollups: Rollups, key: BucketKey, since: int, grid: TimeGrid)
    requires key in rollups
    ensures BucketCells(rollups, since, grid) == BucketCells(rollups - {key}, since, grid)
            + if BucketCell(key, since, grid).Some? then {BucketCell(key, since, grid).value} else {}
  {
  }

  lemma ReadBucket(sums: Sums, rows: seq<Row>, read: Rollups, rest: Rollups, key: BucketKey, since: int, grid: TimeGrid)
    requires key in rest && Holds(sums, rows, read, rest, since, grid)
    ensures Holds(Counted(sums, BucketCell(key, since, grid), rest[key].delta), rows, read, rest - {key}, since, grid)
  {
    var after := Counted(sums, BucketCell(key, since, grid), rest[key].delta);
    BucketCellsWithout(rest, key, since, grid);
    assert after.Keys + BucketCells(rest - {key}, since, grid) == sums.Keys + BucketCells(rest, since, grid);
    forall cell: Cell ensures At(after, cell) + RollupSum(rest - {key}, CellQuery(since, grid, cell))
                           == RowSum(rows, CellQuery(since, grid, cell)) + RollupSum(read, CellQuery(since, grid, cell))
    {
      HoldsAt(sums, rows, read, rest, since, grid, cell);
      RollupSumWithout(rest, key, CellQuery(since, grid, cell));
      CountedAt(sums, BucketCell(key, since, grid), rest[key].delta, cell);
      BucketHitsItsCell(key, since, grid, cell);
    }
  }

  lemma NothingRead(since: int, grid: TimeGrid)
    ensures Holds(map[], [], map[], map[], since, grid)
  {
    assert RowCells([], since, grid) == {};
  }

  method ReadRows(rows: seq<Row>, since: int, grid: TimeGrid) returns (sums: Sums)
    ensures Holds(sums, rows, map[], map[], since, grid)
  {
    sums := map[];
    NothingRead(since, grid);
    assert rows[..0] == [];
    for i := 0 to |rows|
      invariant Holds(sums, rows[..i], map[], map[], since, grid)
    {
      var row := rows[i];
      assert rows[..i + 1] == rows[..i] + [row];
      ReadRow(sums, rows[..i], row, since, grid);
      sums := Counted(sums, RowCell(row, since, grid), row.delta);
    }
    assert rows[..|rows|] == rows;
  }

  method ReadBuckets(before: Sums, ghost rows: seq<Row>, rollups: Rollups, since: int, grid: TimeGrid)
    returns (sums: Sums)
    requires Holds(before, rows, rollups, rollups, since, grid)
    ensures Holds(sums, rows, rollups, map[], since, grid)
  {
    sums := before;
    var rest := rollups;
    while rest != map[]
      invariant Holds(sums, rows, rollups, rest, since, grid)
      decreases |rest|
    {
      var key :| key in rest;
      Smaller(rest, key);
      ReadBucket(sums, rows, rollups, rest, key, since, grid);
      sums := Counted(sums, BucketCell(key, since, grid), rest[key].delta);
      rest := rest - {key};
    }
  }

  /** One entry per cell with a record, holding the traffic of that cell. */
  ghost predicate Exact(sums: Sums, t: Tables, since: int, grid: TimeGrid) {
    && sums.Keys == Cells(t, since, grid)
    && forall cell: Cell :: At(sums, cell) == CellTraffic(t, since, grid, cell)
  }

  lemma ExactAt(sums: Sums, t: Tables, since: int, grid: TimeGrid, cell: Cell)
    requires Exact(sums, t, since, grid)
    ensures At(sums, cell) == CellTraffic(t, since, grid, cell)
    ensures cell in sums <==> cell in Cells(t, since, grid)
  {
  }

  lemma HeldTraffic(sums: Sums, t: Tables, since: int, grid: TimeGrid)
    requires Holds(sums, t.rows, t.rollups, map[], since, grid)
    ensures Exact(sums, t, since, grid)
  {
    forall cell: Cell ensures At(sums, cell) == CellTraffic(t, since, grid, cell) {
      HoldsAt(sums, t.rows, t.rollups, map[], since, grid, cell);
    }
    assert BucketCells(map[], since, grid) == {};
  }

  /** The dictionary of a series query. */
  method Accumulate(t: Tables, since: int, grid: TimeGrid) returns (sums: Sums)
    ensures Exact(sums, t, since, grid)
  {
    sums := ReadRows(t.rows, since, grid);
    StartWithBuckets(sums, t.rows, t.rollups, since, grid);
    sums := ReadBuckets(sums, t.rows, t.rollups, since, grid);
    HeldTraffic(sums, t, since, grid);
  }
}
