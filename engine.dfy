/**
 * The IMPaCS engine (class IMPAaCS): a store of SiO2 columns, one per cell of
 * the working grid, that every impact mixes where its crater lands. Each
 * method is proved against the functions of the other modules: the grid
 * subset (Subset), the footprint (Locator), the target average (Averaging),
 * the column mixing (Mixing) and the area histogram (Reporting).
 */
module Engine {
  import opened Numerics
  import opened Params
  import opened Mixing
  import opened CellKeys
  import opened Locator
  import opened Averaging
  import opened Subset
  import opened Reporting

  /** n copies of v: np.ones(n) * v, and what n appends of v add to a trace. */
  function Repeat(v: real, n: nat): (r: seq<real>)
    ensures |r| == n && forall i :: 0 <= i < n ==> r[i] == v
  {
    seq(n, _ => v)
  }

  /** The record of the monitoring cell: count_test_hits and its four lists. */
  datatype TestRecord = TestRecord(count: nat, times: seq<real>, impactors: seq<real>, targets: seq<real>, tops: seq<real>)

  /** Each list holds one entry per hit after its initial entry. */
  predicate Aligned(r: TestRecord) {
    && |r.times| == r.count + 1
    && |r.impactors| == r.count + 1
    && |r.targets| == r.count + 1
    && |r.tops| == r.count + 1
  }

  /** One hit of the monitoring cell (test_one_grid_cell): one more count, one more entry in every list. */
  function Hit(r: TestRecord, time: real, diameter: real, target: real, top: real): TestRecord {
    TestRecord(r.count + 1, r.times + [time], r.impactors + [diameter], r.targets + [target], r.tops + [top])
  }

  /** n hits by the same impact, with the same top layer value. */
  function HitTimes(r: TestRecord, n: nat, time: real, diameter: real, target: real, top: real): TestRecord {
    if n == 0 then r else Hit(HitTimes(r, n - 1, time, diameter, target, top), time, diameter, target, top)
  }

  /** The store after every key of `keys` is (re)bound to a fresh copy of `col`. */
  function Reset(cols: map<Key, seq<real>>, keys: set<Key>, col: seq<real>): (r: map<Key, seq<real>>)
    ensures r.Keys == cols.Keys + keys
  {
    map k | k in cols.Keys + keys :: if k in keys then col else cols[k]
  }

  /** The keys of the cells of a footprint. */
  function CellKeysOf(cells: seq<Cell>): set<Key> {
    if |cells| == 0 then {}
    else CellKeysOf(cells[..|cells| - 1]) + {KeyOf(cells[|cells| - 1].lon, cells[|cells| - 1].lat)}
  }

  /** How many cells of a footprint carry the monitoring key. */
  function Hits(cells: seq<Cell>): nat {
    if |cells| == 0 then 0
    else Hits(cells[..|cells| - 1]) + (if KeyOf(cells[|cells| - 1].lon, cells[|cells| - 1].lat) == IMPACT_TEST_ID then 1 else 0)
  }

  /** The store after one impact: every column keyed by the footprint is mixed once. */
  function MixKeys(cols: map<Key, seq<real>>, keys: set<Key>, c: Config, diameter: real, averageTarget: real): map<Key, seq<real>>
    requires ValidConfig(c)
  {
    map k | k in cols :: if k in keys && 1 <= |cols[k]| then MixColumn(c, cols[k], diameter, averageTarget) else cols[k]
  }

  /** The columns of the store and the record of the monitoring cell: what loop_impact_grid changes. */
  datatype Snapshot = Snapshot(columns: map<Key, seq<real>>, record: TestRecord)

  /**
   * One pass of loop_impact_grid: mix the cell's column with the impact, then,
   * if it is the monitoring cell, record the hit with the new top layer. A key
   * without a column (which the engine never passes) changes nothing.
   */
  function ImpactStep(c: Config, s: Snapshot, id: Key, time: real, diameter: real, averageTarget: real): Snapshot
    requires ValidConfig(c)
  {
    if id !in s.columns || |s.columns[id]| == 0 then s
    else
      var column := MixColumn(c, s.columns[id], diameter, averageTarget);
      var record := if id == IMPACT_TEST_ID then Hit(s.record, time, diameter, averageTarget, column[0]) else s.record;
      Snapshot(s.columns[id := column], record)
  }

  /** loop_impact_grid over the footprint `cells`, one pass per cell in order. */
  function ImpactCells(c: Config, s: Snapshot, cells: seq<Cell>, time: real, diameter: real, averageTarget: real): Snapshot
    requires ValidConfig(c)
  {
    if |cells| == 0 then s
    else
      var n := |cells| - 1;
      ImpactStep(c, ImpactCells(c, s, cells[..n], time, diameter, averageTarget),
                 KeyOf(cells[n].lon, cells[n].lat), time, diameter, averageTarget)
  }

  // ---------------------------------------------------------------------------
  // Properties of the store-level functions.

  /**
   * What loop_impact_grid does to the store, whatever the order of the
   * footprint and its repetitions: every footprint column is mixed once, every
   * other column is kept.
   */
  lemma {:induction false} ImpactCellsColumns(c: Config, s: Snapshot, cells: seq<Cell>, time: real, diameter: real,
                                               averageTarget: real)
    requires ValidConfig(c)
    requires forall x :: x in cells ==> KeyOf(x.lon, x.lat) in s.columns && 1 <= |s.columns[KeyOf(x.lon, x.lat)]|
    ensures ImpactCells(c, s, cells, time, diameter, averageTarget).columns
            == MixKeys(s.columns, CellKeysOf(cells), c, diameter, averageTarget)
  {
    if |cells| == 0 {
      assert MixKeys(s.columns, {}, c, diameter, averageTarget) == s.columns;
    } else {
      var n := |cells| - 1;
      var init := cells[..n];
      var id := KeyOf(cells[n].lon, cells[n].lat);
      assert cells[n] in cells;
      assert forall x :: x in init ==> x in cells;
      ImpactCellsColumns(c, s, init, time, diameter, averageTarget);
      FootprintStep(cells, n);
      assert cells[..n + 1] == cells;
      MixKeysInsert(s.columns, CellKeysOf(init), id, c, diameter, averageTarget);
    }
  }

  /**
   * What loop_impact_grid does to the monitoring record: one entry per
   * footprint cell that carries the monitoring key, all with that cell's new
   * top layer, and nothing when no footprint cell carries it.
   */
  lemma {:induction false} ImpactCellsRecord(c: Config, s: Snapshot, cells: seq<Cell>, time: real, diameter: real,
                                              averageTarget: real)
    requires ValidConfig(c)
    requires forall x :: x in cells ==> KeyOf(x.lon, x.lat) in s.columns && 1 <= |s.columns[KeyOf(x.lon, x.lat)]|
    ensures var r := ImpactCells(c, s, cells, time, diameter, averageTarget);
            && (Hits(cells) == 0 ==> r.record == s.record)
            && (Hits(cells) > 0 ==>
                  && IMPACT_TEST_ID in r.columns && 1 <= |r.columns[IMPACT_TEST_ID]|
                  && r.record == HitTimes(s.record, Hits(cells), time, diameter, averageTarget, r.columns[IMPACT_TEST_ID][0]))
  {
    if |cells| > 0 {
      var n := |cells| - 1;
      var init := cells[..n];
      var id := KeyOf(cells[n].lon, cells[n].lat);
      assert cells[n] in cells;
      assert forall x :: x in init ==> x in cells;
      var prev := ImpactCells(c, s, init, time, diameter, averageTarget);
      assert ImpactCells(c, s, cells, time, diameter, averageTarget) == ImpactStep(c, prev, id, time, diameter, averageTarget);
      assert Hits(cells) == Hits(init) + if id == IMPACT_TEST_ID then 1 else 0;
      ImpactCellsRecord(c, s, init, time, diameter, averageTarget);
      assert id in prev.columns && 1 <= |prev.columns[id]|
             && (Hits(init) > 0 && id == IMPACT_TEST_ID ==>
                   MixColumn(c, prev.columns[id], diameter, averageTarget) == prev.columns[id]) by {
        ImpactCellsColumns(c, s, init, time, diameter, averageTarget);
        HitsOfTestCell(init);
        MixKeysInsert(s.columns, CellKeysOf(init), id, c, diameter, averageTarget);
      }
      ImpactStepRecord(c, s.record, prev, id, Hits(init), time, diameter, averageTarget);
    }
  }

  /** One pass of loop_impact_grid adds an entry to the record exactly when it visits the monitoring cell. */
  lemma ImpactStepRecord(c: Config, r0: TestRecord, prev: Snapshot, id: Key, hits: nat, time: real, diameter: real,
                         averageTarget: real)
    requires ValidConfig(c)
    requires id in prev.columns && 1 <= |prev.columns[id]|
    requires hits == 0 ==> prev.record == r0
    requires hits > 0 ==>
               && IMPACT_TEST_ID in prev.columns && 1 <= |prev.columns[IMPACT_TEST_ID]|
               && prev.record == HitTimes(r0, hits, time, diameter, averageTarget, prev.columns[IMPACT_TEST_ID][0])
    requires hits > 0 && id == IMPACT_TEST_ID ==> MixColumn(c, prev.columns[id], diameter, averageTarget) == prev.columns[id]
    ensures var r := ImpactStep(c, prev, id, time, diameter, averageTarget);
            var h := hits + if id == IMPACT_TEST_ID then 1 else 0;
            && (h == 0 ==> r.record == r0)
            && (h > 0 ==>
                  && IMPACT_TEST_ID in r.columns && 1 <= |r.columns[IMPACT_TEST_ID]|
                  && r.record == HitTimes(r0, h, time, diameter, averageTarget, r.columns[IMPACT_TEST_ID][0]))
  {
    MixColumnLayers(c, prev.columns[id], diameter, averageTarget);
  }

  /** A hit keeps the four lists in step with the count. */
  lemma HitKeepsAligned(r: TestRecord, time: real, diameter: real, target: real, top: real)
    requires Aligned(r)
    ensures Aligned(Hit(r, time, diameter, target, top))
    ensures Hit(r, time, diameter, target, top).count == r.count + 1
  {
  }

  /** n hits add n to the count and n copies of the same entry to each list. */
  lemma {:induction false} HitTimesAppends(r: TestRecord, n: nat, time: real, diameter: real, target: real, top: real)
    ensures var h := HitTimes(r, n, time, diameter, target, top);
            && h.count == r.count + n
            && h.times == r.times + Repeat(time, n)
            && h.impactors == r.impactors + Repeat(diameter, n)
            && h.targets == r.targets + Repeat(target, n)
            && h.tops == r.tops + Repeat(top, n)
  {
    if n > 0 {
      HitTimesAppends(r, n - 1, time, diameter, target, top);
      RepeatStep(r.times, time, n - 1);
      RepeatStep(r.impactors, diameter, n - 1);
      RepeatStep(r.targets, target, n - 1);
      RepeatStep(r.tops, top, n - 1);
    }
  }

  /** A list that received n + 1 copies of v received n of them and then one more. */
  lemma RepeatStep(trace: seq<real>, v: real, n: nat)
    ensures trace + Repeat(v, n + 1) == trace + Repeat(v, n) + [v]
  {
    assert Repeat(v, n + 1) == Repeat(v, n) + [v];
  }

  /** The footprint's keys and hits, cell by cell. */
  lemma FootprintStep(cells: seq<Cell>, idx: int)
    requires 0 <= idx < |cells|
    ensures var id := KeyOf(cells[idx].lon, cells[idx].lat);
            && CellKeysOf(cells[..idx + 1]) == CellKeysOf(cells[..idx]) + {id}
            && Hits(cells[..idx + 1]) == Hits(cells[..idx]) + (if id == IMPACT_TEST_ID then 1 else 0)
  {
    assert cells[..idx + 1][..idx] == cells[..idx];
  }

  /** A key belongs to the footprint's keys exactly when some footprint cell has it. */
  lemma {:induction false} CellKeysOfMembers(cells: seq<Cell>, k: Key)
    ensures k in CellKeysOf(cells) <==> exists c :: c in cells && KeyOf(c.lon, c.lat) == k
  {
    if |cells| > 0 {
      var init := cells[..|cells| - 1];
      CellKeysOfMembers(init, k);
      assert cells == init + [cells[|cells| - 1]];
    }
  }

  /** The monitoring cell is hit exactly when its key is among the footprint's keys. */
  lemma {:induction false} HitsOfTestCell(cells: seq<Cell>)
    ensures Hits(cells) > 0 <==> IMPACT_TEST_ID in CellKeysOf(cells)
    ensures Hits(cells) <= |cells|
  {
    if |cells| > 0 {
      HitsOfTestCell(cells[..|cells| - 1]);
    }
  }

  /**
   * One impact on the store: the same keys, columns of the same length, every
   * column outside the footprint as it was, and every footprint column as
   * MixColumn leaves it (layers below the melt depth untouched).
   */
  lemma MixKeysShape(cols: map<Key, seq<real>>, keys: set<Key>, c: Config, diameter: real, averageTarget: real)
    requires ValidConfig(c)
    ensures var r := MixKeys(cols, keys, c, diameter, averageTarget);
            && r.Keys == cols.Keys
            && (forall k :: k in cols ==> |r[k]| == |cols[k]|)
            && (forall k :: k in cols && k !in keys ==> r[k] == cols[k])
            && (forall k, i :: k in cols && 0 <= i < |cols[k]| && MeltLayers(c, diameter) <= i ==> r[k][i] == cols[k][i])
  {
    forall k | k in cols && k in keys && 1 <= |cols[k]|
      ensures |MixColumn(c, cols[k], diameter, averageTarget)| == |cols[k]|
      ensures forall i :: 0 <= i < |cols[k]| && MeltLayers(c, diameter) <= i ==>
                MixColumn(c, cols[k], diameter, averageTarget)[i] == cols[k][i]
    {
      MixColumnLayers(c, cols[k], diameter, averageTarget);
    }
  }

  /** Mixing the same footprint twice with the same impact is mixing it once. */
  lemma MixKeysIdempotent(cols: map<Key, seq<real>>, keys: set<Key>, c: Config, diameter: real, averageTarget: real)
    requires ValidConfig(c)
    ensures var r := MixKeys(cols, keys, c, diameter, averageTarget);
            MixKeys(r, keys, c, diameter, averageTarget) == r
  {
    var r := MixKeys(cols, keys, c, diameter, averageTarget);
    forall k | k in cols && k in keys && 1 <= |cols[k]|
      ensures MixColumn(c, r[k], diameter, averageTarget) == r[k]
    {
      MixColumnIdempotent(c, cols[k], diameter, averageTarget);
    }
    MixKeysShape(cols, keys, c, diameter, averageTarget);
  }

  /**
   * Mixing one more key: that key's column is mixed once more (which leaves an
   * already mixed column as it is), every other column is as before.
   */
  lemma MixKeysInsert(cols: map<Key, seq<real>>, keys: set<Key>, id: Key, c: Config, diameter: real, averageTarget: real)
    requires ValidConfig(c) && id in cols
    ensures var before := MixKeys(cols, keys, c, diameter, averageTarget);
            && id in before && |before[id]| == |cols[id]|
            && (1 <= |cols[id]| ==>
                  && MixKeys(cols, keys + {id}, c, diameter, averageTarget)
                     == before[id := MixColumn(c, before[id], diameter, averageTarget)]
                  && (id in keys ==> MixColumn(c, before[id], diameter, averageTarget) == before[id]))
  {
    if 1 <= |cols[id]| {
      MixColumnLayers(c, cols[id], diameter, averageTarget);
      MixColumnIdempotent(c, cols[id], diameter, averageTarget);
    }
  }

  /** Resetting some keys and then more keys to the same column resets them all. */
  lemma ResetUnion(cols: map<Key, seq<real>>, a: set<Key>, b: set<Key>, col: seq<real>)
    ensures Reset(Reset(cols, a, col), b, col) == Reset(cols, a + b, col)
  {
  }

  /** Resetting one key is binding it. */
  lemma ResetOne(cols: map<Key, seq<real>>, k: Key, col: seq<real>)
    ensures Reset(cols, {k}, col) == cols[k := col]
  {
  }

  /** Every cell listed is a cell of the grid, so its key is bound when the grid's keys are. */
  lemma GridCellsCovered(lons: seq<real>, lats: seq<real>, keys: set<Key>, cells: seq<Cell>)
    requires GridKeys(lons, lats) <= keys
    requires forall c :: c in cells ==> c.lon in lons && c.lat in lats
    ensures forall c :: c in cells ==> KeyOf(c.lon, c.lat) in keys
  {
    forall c | c in cells
      ensures KeyOf(c.lon, c.lat) in keys
    {
      assert KeyOf(c.lon, c.lat) in GridKeys(lons, lats);
    }
  }

  /** The sample scan, one cell further on: the cell's bin is appended, if its column has a layer. */
  lemma SampleBinsStep(cols: map<Key, seq<real>>, lons: seq<real>, lats: seq<real>, i: int, j: int)
    requires 0 <= i < |lons| && 0 <= j < |lats|
    requires forall c :: c in Scanned(lons, lats, i, j) ==> KeyOf(c.lon, c.lat) in cols
    requires KeyOf(lons[i], lats[j]) in cols
    ensures forall c :: c in Scanned(lons, lats, i, j + 1) ==> KeyOf(c.lon, c.lat) in cols
    ensures var top := Prefix(cols[KeyOf(lons[i], lats[j])], 2);
            SampleBins(cols, Scanned(lons, lats, i, j + 1))
              == SampleBins(cols, Scanned(lons, lats, i, j)) + (if |top| == 0 then [] else [ReBin(Mean(top))])
  {
    ScannedStep(lons, lats, i, j);
    SampleBinsAppend(cols, Scanned(lons, lats, i, j), Cell(lons[i], lats[j]));
  }

  // ---------------------------------------------------------------------------
  // The engine.

  class IMPAaCS {
    const config: Config
    /** lon_subset and lat_subset: the working grid, fixed once the engine is built. */
    const lonSubset: seq<real>
    const latSubset: seq<real>
    /** grid_cell_state: one column of SiO2 values per key, layer 0 at the surface. */
    var gridCellState: map<Key, array<real>>
    /** The contents of the store: the column of every key. */
    ghost var columns: map<Key, seq<real>>
    /** The key each column array was created for: distinct keys own distinct arrays. */
    ghost var owner: map<array<real>, Key>
    var impactedGridCells: seq<Cell>
    var averageTarget: real
    var simTime: real
    var craterDiameter: real
    var craterRadius: real
    var zLayers: int
    /** The record of the monitoring cell: one entry per hit, after an initial entry. */
    var countTestHits: nat
    var testTime: seq<real>
    var impactorsAtTestCell: seq<real>
    var averageTestTargetList: seq<real>
    var topLayerAtTestCell: seq<real>
    var samplePercents: map<int, real>

    /**
     * `columns` holds what the arrays hold, distinct keys own distinct arrays,
     * and every column has the configured length.
     */
    ghost predicate StoreValid()
      reads this`gridCellState, this`owner, this`columns, gridCellState.Values
    {
      && ValidConfig(config)
      && columns.Keys == gridCellState.Keys
      && (forall k :: k in gridCellState ==>
            && gridCellState[k] in owner && owner[gridCellState[k]] == k
            && gridCellState[k].Length == TotalLayers(config)
            && gridCellState[k][..] == columns[k])
    }

    /** The record of the monitoring cell. */
    ghost function Record(): TestRecord
      reads this`countTestHits, this`testTime, this`impactorsAtTestCell
      reads this`averageTestTargetList, this`topLayerAtTestCell
    {
      TestRecord(countTestHits, testTime, impactorsAtTestCell, averageTestTargetList, topLayerAtTestCell)
    }

    /** The columns and the monitoring record together. */
    ghost function Snap(): Snapshot
      reads this`columns, this`countTestHits, this`testTime, this`impactorsAtTestCell
      reads this`averageTestTargetList, this`topLayerAtTestCell
    {
      Snapshot(columns, Record())
    }

    /** The store is coherent and covers the working grid; the monitoring lists are in step with the hit count. */
    ghost predicate Valid()
      reads this`gridCellState, this`owner, this`columns, gridCellState.Values
      reads this`countTestHits, this`testTime, this`impactorsAtTestCell
      reads this`averageTestTargetList, this`topLayerAtTestCell
    {
      && StoreValid()
      && GridKeys(lonSubset, latSubset) <= gridCellState.Keys
      && Aligned(Record())
    }

    /** __init__: the subset of the grid inside the limits, every one of its cells at the primitive state. */
    constructor (londim: seq<real>, latdim: seq<real>, config: Config, simTime: real)
      requires ValidConfig(config)
      ensures Valid()
      ensures this.config == config && this.simTime == simTime
      ensures lonSubset == LonSubset([], londim, latdim, config.lonLo, config.lonHi, config.latLo, config.latHi)
      ensures latSubset == LatSubset([], londim, latdim, config.lonLo, config.lonHi, config.latLo, config.latHi)
      ensures gridCellState.Keys == GridKeys(lonSubset, latSubset)
      ensures columns == Reset(map[], GridKeys(lonSubset, latSubset), Repeat(config.primitive, TotalLayers(config)))
      ensures averageTarget == config.primitive
      ensures impactedGridCells == [] && samplePercents == map[]
      ensures Record() == TestRecord(0, [0.0], [0.0], [config.primitive], [config.primitive])
      ensures forall a :: a in gridCellState.Values ==> fresh(a)
    {
      this.config := config;
      this.simTime := simTime;
      var lons, lats := GetSubsetOfGrids(londim, latdim, config);
      lonSubset, latSubset := lons, lats;
      gridCellState := map[];
      owner := map[];
      columns := map[];
      impactedGridCells := [];
      averageTarget := config.primitive;
      craterDiameter := 0.0;
      craterRadius := 0.0;
      zLayers := 0;
      countTestHits := 0;
      testTime := [0.0];
      impactorsAtTestCell := [0.0];
      averageTestTargetList := [config.primitive];
      topLayerAtTestCell := [config.primitive];
      samplePercents := map[];
      new;
      StatePrep();
    }

    /** get_subset_of_grids: scan londim x latdim and collect the coordinates strictly inside the limits. */
    static method GetSubsetOfGrids(londim: seq<real>, latdim: seq<real>, c: Config) returns (lons: seq<real>, lats: seq<real>)
      ensures lons == LonSubset([], londim, latdim, c.lonLo, c.lonHi, c.latLo, c.latHi)
      ensures lats == LatSubset([], londim, latdim, c.lonLo, c.lonHi, c.latLo, c.latHi)
    {
      lons, lats := [], [];
      var i := 0;
      while i < |londim|
        invariant 0 <= i <= |londim|
        invariant lons == LonSubset([], londim[..i], latdim, c.lonLo, c.lonHi, c.latLo, c.latHi)
        invariant lats == LatSubset([], londim[..i], latdim, c.lonLo, c.lonHi, c.latLo, c.latHi)
      {
        RowStart([], [], londim, latdim, i, c.lonLo, c.lonHi, c.latLo, c.latHi);
        lons, lats := ScanRow(londim, latdim, i, c, lons, lats);
        RowEnd([], [], londim, latdim, i, c.lonLo, c.lonHi, c.latLo, c.latHi);
        i := i + 1;
      }
      assert londim[..|londim|] == londim;
    }

    /** The inner loop of get_subset_of_grids, over the latitudes for longitude londim[i]. */
    static method ScanRow(londim: seq<real>, latdim: seq<real>, i: int, c: Config, lons0: seq<real>, lats0: seq<real>)
      returns (lons: seq<real>, lats: seq<real>)
      requires 0 <= i < |londim|
      requires lons0 == LonsMidRow([], londim, latdim, i, 0, c.lonLo, c.lonHi, c.latLo, c.latHi)
      requires lats0 == LatsMidRow([], londim, latdim, i, 0, c.lonLo, c.lonHi, c.latLo, c.latHi)
      ensures lons == LonsMidRow([], londim, latdim, i, |latdim|, c.lonLo, c.lonHi, c.latLo, c.latHi)
      ensures lats == LatsMidRow([], londim, latdim, i, |latdim|, c.lonLo, c.lonHi, c.latLo, c.latHi)
    {
      var lonLo, lonHi, latLo, latHi := c.lonLo, c.lonHi, c.latLo, c.latHi;
      var ilon := londim[i];
      lons, lats := lons0, lats0;
      var j := 0;
      while j < |latdim|
        invariant 0 <= j <= |latdim|
        invariant lons == LonsMidRow([], londim, latdim, i, j, lonLo, lonHi, latLo, latHi)
        invariant lats == LatsMidRow([], londim, latdim, i, j, lonLo, lonHi, latLo, latHi)
      {
        var ilat := latdim[j];
        ScanStep([], [], londim, latdim, i, j, lonLo, lonHi, latLo, latHi, lons, lats);
        if latLo < ilat && ilat < latHi {
          if lonLo < ilon && ilon < lonHi {
            if ilat !in lats {
              lats := lats + [ilat];
            }
            if ilon !in lons {
              lons := lons + [ilon];
            }
          }
        }
        j := j + 1;
      }
    }

    /** state_prep: every cell of the working grid gets a fresh column at the primitive state. */
    method StatePrep()
      requires StoreValid() && Aligned(Record())
      modifies this`gridCellState, this`owner, this`columns
      ensures Valid()
      ensures columns == Reset(old(columns), GridKeys(lonSubset, latSubset), Repeat(config.primitive, TotalLayers(config)))
      ensures forall a :: a in gridCellState.Values ==> a in old(gridCellState.Values) || fresh(a)
    {
      ghost var cols0 := columns;
      ghost var primitiveColumn := Repeat(config.primitive, TotalLayers(config));
      var i := 0;
      while i < |lonSubset|
        invariant 0 <= i <= |lonSubset|
        invariant StoreValid()
        invariant columns == Reset(cols0, GridKeys(lonSubset[..i], latSubset), primitiveColumn)
        invariant forall a :: a in gridCellState.Values ==> a in old(gridCellState.Values) || fresh(a)
      {
        GridKeysStep(lonSubset, latSubset, i);
        ResetUnion(cols0, GridKeys(lonSubset[..i], latSubset), RowKeys(lonSubset[i], latSubset), primitiveColumn);
        PrepRow(lonSubset[i]);
        i := i + 1;
      }
      assert lonSubset[..|lonSubset|] == lonSubset;
    }

    /** np.ones(n) * v as a fresh column. */
    static method NewColumn(n: nat, v: real) returns (column: array<real>)
      ensures fresh(column) && column[..] == Repeat(v, n)
    {
      column := new real[n](_ => v);
    }

    /** The inner loop of state_prep, over the latitudes for longitude ilon. */
    method PrepRow(ilon: real)
      requires StoreValid()
      modifies this`gridCellState, this`owner, this`columns
      ensures StoreValid()
      ensures columns == Reset(old(columns), RowKeys(ilon, latSubset), Repeat(config.primitive, TotalLayers(config)))
      ensures forall a :: a in gridCellState.Values ==> a in old(gridCellState.Values) || fresh(a)
    {
      var total := Trunc(config.maxDepth / config.zKm);
      assert total == TotalLayers(config);
      ghost var cols0 := columns;
      ghost var primitiveColumn := Repeat(config.primitive, total);
      var j := 0;
      while j < |latSubset|
        invariant 0 <= j <= |latSubset|
        invariant StoreValid()
        invariant columns == Reset(cols0, RowKeys(ilon, latSubset[..j]), primitiveColumn)
        invariant forall a :: a in gridCellState.Values ==> a in old(gridCellState.Values) || fresh(a)
      {
        var ilat := latSubset[j];
        var key := KeyOf(ilon, ilat);
        var column := NewColumn(total, config.primitive);
        RowKeysStep(ilon, latSubset, j);
        ResetUnion(cols0, RowKeys(ilon, latSubset[..j]), {key}, primitiveColumn);
        ResetOne(Reset(cols0, RowKeys(ilon, latSubset[..j]), primitiveColumn), key, primitiveColumn);
        Bind(key, column);
        j := j + 1;
      }
      assert latSubset[..|latSubset|] == latSubset;
    }

    /** self.grid_cell_state[key] = column, for a column not yet in the store. */
    method Bind(key: Key, column: array<real>)
      requires StoreValid()
      requires column !in owner && column.Length == TotalLayers(config)
      modifies this`gridCellState, this`owner, this`columns
      ensures StoreValid()
      ensures gridCellState == old(gridCellState)[key := column]
      ensures columns == old(columns)[key := column[..]]
    {
      gridCellState := gridCellState[key := column];
      owner := owner[column := key];
      columns := columns[key := column[..]];
    }

    /** impact_dimensions: the crater is ten diameters wide; z_layers covers one diameter of depth. */
    method ImpactDimensions(impactorDiameter: real)
      requires ValidConfig(config)
      modifies this`craterDiameter, this`craterRadius, this`zLayers
      ensures craterDiameter == 10.0 * impactorDiameter
      ensures craterRadius == CraterRadius(impactorDiameter) == craterDiameter / 2.0
      ensures zLayers == ZLayers(config, impactorDiameter)
    {
      craterDiameter := 10.0 * impactorDiameter;
      craterRadius := craterDiameter / 2.0;
      zLayers := Ceil(impactorDiameter / config.zKm);
    }

    /**
     * find_the_grid: the cells within the crater radius, in scan order; when
     * there are none and the nearest cell is under 30 km away, every cell at
     * that minimum distance.
     */
    method FindTheGrid(impactLoc: Location, distance: DistanceFn)
      modifies this`impactedGridCells
      ensures impactedGridCells == Footprint(distance, impactLoc, craterRadius, lonSubset, latSubset)
      ensures forall c :: c in impactedGridCells ==> c.lon in lonSubset && c.lat in latSubset
    {
      FootprintInGrid(distance, impactLoc, craterRadius, lonSubset, latSubset);
      var grid := Grid(lonSubset, latSubset);
      var dmin, inside := ScanGrid(impactLoc, distance, Within(craterRadius));
      impactedGridCells := inside;
      if |impactedGridCells| < 1 {
        if dmin < PROXIMITY_KM {
          var _, nearest := ScanGrid(impactLoc, distance, At(dmin));
          impactedGridCells := nearest;
        }
      }
    }

    /**
     * One nested scan of find_the_grid over the working grid: the running
     * minimum distance Dmin and the cells that pass the test, in scan order.
     */
    method ScanGrid(impactLoc: Location, distance: DistanceFn, test: Test) returns (dmin: real, cells: seq<Cell>)
      ensures dmin == MinDistance(distance, impactLoc, Grid(lonSubset, latSubset))
      ensures cells == Select(distance, impactLoc, test, Grid(lonSubset, latSubset))
    {
      dmin := DMIN_START;
      cells := [];
      var i := 0;
      while i < |lonSubset|
        invariant 0 <= i <= |lonSubset|
        invariant dmin == MinDistance(distance, impactLoc, Grid(lonSubset[..i], latSubset))
        invariant cells == Select(distance, impactLoc, test, Grid(lonSubset[..i], latSubset))
      {
        var ilon := lonSubset[i];
        ScannedStart(lonSubset, latSubset, i);
        var j := 0;
        while j < |latSubset|
          invariant 0 <= j <= |latSubset|
          invariant dmin == MinDistance(distance, impactLoc, Scanned(lonSubset, latSubset, i, j))
          invariant cells == Select(distance, impactLoc, test, Scanned(lonSubset, latSubset, i, j))
        {
          var ilat := latSubset[j];
          ScannedStep(lonSubset, latSubset, i, j);
          var d := distance(impactLoc.lat, ilat, impactLoc.lon, ilon);
          if d < dmin {
            dmin := d;
          }
          if Passes(distance, impactLoc, test, Cell(ilon, ilat)) {
            cells := cells + [Cell(ilon, ilat)];
          }
          j := j + 1;
        }
        ScannedRow(lonSubset, latSubset, i);
        i := i + 1;
      }
      assert lonSubset[..|lonSubset|] == lonSubset;
    }

    /**
     * get_average_target: the mean of the top z_layers values over the
     * footprint, a cell missing from the store counting as primitive.
     */
    method GetAverageTarget()
      requires StoreValid()
      requires |impactedGridCells| > 0 && zLayers != 0
      modifies this`averageTarget
      ensures averageTarget == AverageTarget(columns, config.primitive, zLayers, impactedGridCells)
    {
      var total := TargetTotal();
      averageTarget := total / (|impactedGridCells| as real * zLayers as real);
    }

    /** The loop of get_average_target: the running total over the footprint, read from the store. */
    method TargetTotal() returns (total: real)
      requires StoreValid()
      ensures total == TargetSum(columns, config.primitive, zLayers, impactedGridCells)
    {
      total := 0.0;
      var idx := 0;
      while idx < |impactedGridCells|
        invariant 0 <= idx <= |impactedGridCells|
        invariant total == TargetSum(columns, config.primitive, zLayers, impactedGridCells[..idx])
      {
        var cell := impactedGridCells[idx];
        var key := KeyOf(cell.lon, cell.lat);
        assert impactedGridCells[..idx + 1][..idx] == impactedGridCells[..idx];
        if key in gridCellState {
          total := total + Sum(Prefix(gridCellState[key][..], zLayers));
        } else {
          total := total + config.primitive * zLayers as real;
        }
        idx := idx + 1;
      }
      assert impactedGridCells[..idx] == impactedGridCells;
    }

    /**
     * state_dynamics: mix one column in place, pass by pass, with the current
     * average target.
     */
    method StateDynamics(impactorDiameter: real, gridCellId: Key)
      requires Valid()
      requires gridCellId in gridCellState
      requires 1 <= TotalLayers(config) && MeltLayers(config, impactorDiameter) <= TotalLayers(config)
      modifies gridCellState[gridCellId], this`columns
      ensures Valid()
      ensures columns == old(columns)[gridCellId := MixColumn(config, old(columns)[gridCellId], impactorDiameter, averageTarget)]
    {
      var column := gridCellState[gridCellId];
      MixPasses(config, column, impactorDiameter, averageTarget);
      columns := columns[gridCellId := column[..]];
      forall k | k in gridCellState && k != gridCellId
        ensures gridCellState[k][..] == columns[k]
      {
        assert owner[gridCellState[k]] != owner[column];
      }
    }

    /** The four passes of state_dynamics over one column array. */
    static method MixPasses(c: Config, column: array<real>, impactorDiameter: real, averageTarget: real)
      requires ValidConfig(c)
      requires 1 <= column.Length && MeltLayers(c, impactorDiameter) <= column.Length
      modifies column
      ensures column[..] == MixColumn(c, old(column[..]), impactorDiameter, averageTarget)
    {
      var meltLayers := MeltLayers(c, impactorDiameter);
      var split := UpperCount(c, meltLayers);
      // set the lower range to primitive, the upper range to the upper melt value
      FillRange(column, split, meltLayers, c.primitive);
      FillRange(column, 0, split, UpperValue(c, averageTarget));
      // the lower range to the mass-balance value, from the (unrounded) top layer
      var wtSiO2Upper := column[0];
      FillRange(column, split, meltLayers, LowerValue(c, averageTarget, wtSiO2Upper));
      RoundRange(column, meltLayers);
    }

    /** One `for i in range(lo, hi): column[i] = v` pass of state_dynamics. */
    static method FillRange(column: array<real>, lo: int, hi: int, v: real)
      requires lo < hi ==> 0 <= lo && hi <= column.Length
      modifies column
      ensures column[..] == Fill(old(column[..]), lo, hi, v)
    {
      ghost var s0 := column[..];
      if hi <= lo {
        FillEmpty(s0, lo, hi, v);
        return;
      }
      FillEmpty(s0, lo, lo, v);
      var i := lo;
      while i < hi
        invariant lo <= i <= hi
        invariant column[..] == Fill(s0, lo, i, v)
      {
        FillStep(s0, lo, i, v);
        column[i] := v;
        i := i + 1;
      }
    }

    /** The last pass of state_dynamics: `np.round(column[i], 1)` for i in range(m). */
    static method RoundRange(column: array<real>, m: int)
      requires m <= column.Length
      modifies column
      ensures column[..] == RoundPrefix(old(column[..]), m)
    {
      ghost var s0 := column[..];
      RoundPrefixEmpty(s0, 0);
      if m <= 0 {
        RoundPrefixEmpty(s0, m);
        return;
      }
      var i := 0;
      while i < m
        invariant 0 <= i <= m
        invariant column[..] == RoundPrefix(s0, i)
      {
        RoundPrefixStep(s0, i);
        RoundPrefixLayers(s0, i);
        column[i] := Round1(column[i]);
        i := i + 1;
      }
    }

    /** test_one_grid_cell: when the monitoring cell is hit, append to its four lists. */
    method TestOneGridCell(gridCellId: Key, impactorDiameter: real)
      requires Valid()
      requires gridCellId == IMPACT_TEST_ID ==> IMPACT_TEST_ID in gridCellState && 1 <= TotalLayers(config)
      modifies this`countTestHits, this`testTime, this`impactorsAtTestCell
      modifies this`averageTestTargetList, this`topLayerAtTestCell
      ensures Valid()
      ensures Record() == if gridCellId == IMPACT_TEST_ID
                          then Hit(old(Record()), simTime, impactorDiameter, averageTarget, columns[IMPACT_TEST_ID][0])
                          else old(Record())
    {
      if gridCellId == IMPACT_TEST_ID {
        countTestHits := countTestHits + 1;
        testTime := testTime + [simTime];
        impactorsAtTestCell := impactorsAtTestCell + [impactorDiameter];
        averageTestTargetList := averageTestTargetList + [averageTarget];
        topLayerAtTestCell := topLayerAtTestCell + [gridCellState[IMPACT_TEST_ID][0]];
      }
    }
  
    /** One pass of the loop of loop_impact_grid: mix the cell's column, then record a hit of the monitoring cell. */
    method ImpactCell(impactorDiameter: real, gridCellId: Key)
      requires Valid()
      requires gridCellId in gridCellState
      requires 1 <= TotalLayers(config) && MeltLayers(config, impactorDiameter) <= TotalLayers(config)
      modifies gridCellState[gridCellId], this`columns, this`countTestHits, this`testTime, this`impactorsAtTestCell
      modifies this`averageTestTargetList, this`topLayerAtTestCell
      ensures Valid()
      ensures Snap() == ImpactStep(config, old(Snap()), gridCellId, simTime, impactorDiameter, averageTarget)
    {
      StateDynamics(impactorDiameter, gridCellId);
      TestOneGridCell(gridCellId, impactorDiameter);
    }

    /**
     * loop_impact_grid: mix every footprint column in turn and record each hit
     * of the monitoring cell. A cell listed twice is mixed twice, which leaves
     * it as mixing it once.
     */
    method LoopImpactGrid(impactorDiameter: real)
      requires Valid()
      requires forall c :: c in impactedGridCells ==> KeyOf(c.lon, c.lat) in gridCellState
      requires impactedGridCells != [] ==>
                 1 <= TotalLayers(config) && MeltLayers(config, impactorDiameter) <= TotalLayers(config)
      modifies gridCellState.Values, this`columns, this`countTestHits, this`testTime, this`impactorsAtTestCell
      modifies this`averageTestTargetList, this`topLayerAtTestCell
      ensures Valid()
      ensures Snap() == ImpactCells(config, old(Snap()), impactedGridCells, simTime, impactorDiameter, averageTarget)
    {
      ghost var s0 := Snap();
      var idx := 0;
      while idx < |impactedGridCells|
        invariant 0 <= idx <= |impactedGridCells|
        invariant Valid()
        invariant Snap() == ImpactCells(config, s0, impactedGridCells[..idx], simTime, impactorDiameter, averageTarget)
      {
        var gridCell := impactedGridCells[idx];
        var gridCellId := KeyOf(gridCell.lon, gridCell.lat);
        assert impactedGridCells[..idx + 1][..idx] == impactedGridCells[..idx];
        ImpactCell(impactorDiameter, gridCellId);
        idx := idx + 1;
      }
      assert impactedGridCells[..idx] == impactedGridCells;
    }

    /**
     * update: one impact. The crater's footprint is located; when it reaches
     * some cell, the target average is taken over the footprint before any of
     * it is mixed, then every footprint column is mixed with it.
     */
    method Update(impactLoc: Location, impactorDiameter: real, simTime: real, distance: DistanceFn)
      requires Valid()
      requires Footprint(distance, impactLoc, CraterRadius(impactorDiameter), lonSubset, latSubset) != [] ==>
                 && 1 <= TotalLayers(config)
                 && MeltLayers(config, impactorDiameter) <= TotalLayers(config)
                 && ZLayers(config, impactorDiameter) != 0
      modifies this`simTime, this`craterDiameter, this`craterRadius, this`zLayers, this`impactedGridCells
      modifies this`averageTarget, gridCellState.Values, this`columns, this`countTestHits, this`testTime
      modifies this`impactorsAtTestCell, this`averageTestTargetList, this`topLayerAtTestCell
      ensures Valid()
      ensures this.simTime == simTime
      ensures craterDiameter == 10.0 * impactorDiameter && craterRadius == CraterRadius(impactorDiameter)
      ensures zLayers == ZLayers(config, impactorDiameter)
      ensures impactedGridCells == Footprint(distance, impactLoc, craterRadius, lonSubset, latSubset)
      ensures averageTarget == if impactedGridCells == [] then old(averageTarget)
                               else AverageTarget(old(columns), config.primitive, zLayers, impactedGridCells)
      ensures Snap() == ImpactCells(config, old(Snap()), impactedGridCells, simTime, impactorDiameter, averageTarget)
      ensures impactedGridCells == [] ==> Snap() == old(Snap())
    {
      this.simTime := simTime;
      ImpactDimensions(impactorDiameter);
      Strike(impactLoc, impactorDiameter, distance);
    }

    /** update once the crater's dimensions are set: find_the_grid, then the mixing of a non-empty footprint. */
    method Strike(impactLoc: Location, impactorDiameter: real, distance: DistanceFn)
      requires Valid()
      requires Footprint(distance, impactLoc, craterRadius, lonSubset, latSubset) != [] ==>
                 && 1 <= TotalLayers(config)
                 && MeltLayers(config, impactorDiameter) <= TotalLayers(config)
                 && zLayers != 0
      modifies this`impactedGridCells
      modifies this`averageTarget, gridCellState.Values, this`columns, this`countTestHits, this`testTime
      modifies this`impactorsAtTestCell, this`averageTestTargetList, this`topLayerAtTestCell
      ensures Valid()
      ensures impactedGridCells == Footprint(distance, impactLoc, craterRadius, lonSubset, latSubset)
      ensures averageTarget == if impactedGridCells == [] then old(averageTarget)
                               else AverageTarget(old(columns), config.primitive, zLayers, impactedGridCells)
      ensures Snap() == ImpactCells(config, old(Snap()), impactedGridCells, simTime, impactorDiameter, averageTarget)
    {
      FindTheGrid(impactLoc, distance);
      MixFootprint(impactorDiameter);
    }

    /** The branch of update on a non-empty footprint: the target average, then the mixing. */
    method MixFootprint(impactorDiameter: real)
      requires Valid()
      requires forall c :: c in impactedGridCells ==> c.lon in lonSubset && c.lat in latSubset
      requires impactedGridCells != [] ==>
                 && 1 <= TotalLayers(config) && MeltLayers(config, impactorDiameter) <= TotalLayers(config)
                 && zLayers != 0
      modifies this`averageTarget, gridCellState.Values, this`columns, this`countTestHits, this`testTime
      modifies this`impactorsAtTestCell, this`averageTestTargetList, this`topLayerAtTestCell
      ensures Valid()
      ensures averageTarget == if impactedGridCells == [] then old(averageTarget)
                               else AverageTarget(old(columns), config.primitive, zLayers, impactedGridCells)
      ensures Snap() == ImpactCells(config, old(Snap()), impactedGridCells, simTime, impactorDiameter, averageTarget)
    {
      if |impactedGridCells| > 0 {
        GridCellsCovered(lonSubset, latSubset, gridCellState.Keys, impactedGridCells);
        GetAverageTarget();
        LoopImpactGrid(impactorDiameter);
      }
    }

    /**
     * do_sample_percents: the share of the working grid, in percent, whose
     * top-two-layer mean falls in each SiO2 bin.
     */
    method DoSamplePercents()
      requires Valid()
      modifies this`samplePercents
      ensures forall c :: c in Grid(lonSubset, latSubset) ==> KeyOf(c.lon, c.lat) in columns
      ensures samplePercents == Histogram(Retained(SampleBins(columns, Grid(lonSubset, latSubset))))
    {
      var barList := SampleScan();
      samplePercents := BarData(Retained(barList));
    }

    /** bar_data: one entry per distinct bin, its share of bar_list in percent. */
    static method BarData(bars: seq<int>) returns (barData: map<int, real>)
      ensures barData == Histogram(bars)
    {
      barData := map[];
      var remaining := set u | u in bars;
      ghost var bins := remaining;
      while remaining != {}
        invariant remaining <= bins
        invariant barData == map u | u in bins - remaining :: 100.0 * Count(bars, u) as real / |bars| as real
        decreases |remaining|
      {
        var u :| u in remaining;
        barData := barData[u := 100.0 * Count(bars, u) as real / |bars| as real];
        remaining := remaining - {u};
      }
    }

    /** The scan of do_sample_percents: the bin of every cell's top-two-layer mean, NaN means passed over. */
    method SampleScan() returns (barList: seq<Option<int>>)
      requires Valid()
      ensures forall c :: c in Grid(lonSubset, latSubset) ==> KeyOf(c.lon, c.lat) in columns
      ensures barList == SampleBins(columns, Grid(lonSubset, latSubset))
    {
      barList := [];
      var i := 0;
      while i < |lonSubset|
        invariant 0 <= i <= |lonSubset|
        invariant forall c :: c in Grid(lonSubset[..i], latSubset) ==> KeyOf(c.lon, c.lat) in columns
        invariant barList == SampleBins(columns, Grid(lonSubset[..i], latSubset))
      {
        ScannedStart(lonSubset, latSubset, i);
        barList := SampleRow(i, barList);
        ScannedRow(lonSubset, latSubset, i);
        i := i + 1;
      }
      assert lonSubset[..|lonSubset|] == lonSubset;
    }

    /** The inner loop of the scan, over the latitudes of the i-th longitude. */
    method SampleRow(i: int, barList0: seq<Option<int>>) returns (barList: seq<Option<int>>)
      requires Valid() && 0 <= i < |lonSubset|
      requires forall c :: c in Scanned(lonSubset, latSubset, i, 0) ==> KeyOf(c.lon, c.lat) in columns
      requires barList0 == SampleBins(columns, Scanned(lonSubset, latSubset, i, 0))
      ensures forall c :: c in Scanned(lonSubset, latSubset, i, |latSubset|) ==> KeyOf(c.lon, c.lat) in columns
      ensures barList == SampleBins(columns, Scanned(lonSubset, latSubset, i, |latSubset|))
    {
      barList := barList0;
      var ilon := lonSubset[i];
      var j := 0;
      while j < |latSubset|
        invariant 0 <= j <= |latSubset|
        invariant forall c :: c in Scanned(lonSubset, latSubset, i, j) ==> KeyOf(c.lon, c.lat) in columns
        invariant barList == SampleBins(columns, Scanned(lonSubset, latSubset, i, j))
      {
        var ilat := latSubset[j];
        var gridCell := KeyOf(ilon, ilat);
        assert gridCell in GridKeys(lonSubset, latSubset);
        SampleBinsStep(columns, lonSubset, latSubset, i, j);
        var top := Prefix(gridCellState[gridCell][..], 2);
        if |top| > 0 {
          barList := barList + [ReBin(Mean(top))];
        }
        j := j + 1;
      }
    }
  }
}
