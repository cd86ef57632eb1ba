/**
 * The impact locator (find_the_grid) as functions over the working grid:
 * which cells an impact of a given crater radius reaches, with the fallback
 * to the nearest cell(s) for craters that fall between grid points.
 */
module Locator {

  /** A grid point of the working grid, as [ilon, ilat] in the engine. */
  datatype Cell = Cell(lon: real, lat: real)

  /** An impact location, as impact_loc = [lat, lon] in the engine. */
  datatype Location = Location(lat: real, lon: real)

  /**
   * The great-circle distance in km, taking (lat1, lat2, lon1, lon2) as the
   * engine's `distance` does. It is a parameter of the model: the haversine
   * body is not modelled.
   */
  type DistanceFn = (real, real, real, real) -> real

  /** Initial value of Dmin in the scan. */
  const DMIN_START: real := 10000000.0

  /** Below this minimum distance (km) a crater that reaches no cell falls back to the nearest cell(s). */
  const PROXIMITY_KM: real := 30.0

  /** Distance from the impact to a cell. */
  function DistanceTo(dist: DistanceFn, loc: Location, c: Cell): real {
    dist(loc.lat, c.lat, loc.lon, c.lon)
  }

  /** The cells (lon, lat) for one longitude, in latitude order. */
  function Row(lon: real, lats: seq<real>): (r: seq<Cell>)
    ensures |r| == |lats|
    ensures forall j :: 0 <= j < |lats| ==> r[j] == Cell(lon, lats[j])
  {
    seq(|lats|, j requires 0 <= j < |lats| => Cell(lon, lats[j]))
  }

  /** The working grid in the scan order of the engine: longitudes outer, latitudes inner. */
  function Grid(lons: seq<real>, lats: seq<real>): seq<Cell> {
    if |lons| == 0 then [] else Grid(lons[..|lons| - 1], lats) + Row(lons[|lons| - 1], lats)
  }

  /** The cells visited by the engine's nested scan before (lons[i], lats[j]). */
  function Scanned(lons: seq<real>, lats: seq<real>, i: int, j: int): seq<Cell>
    requires 0 <= i < |lons| && 0 <= j <= |lats|
  {
    Grid(lons[..i], lats) + Row(lons[i], lats[..j])
  }

  lemma ScannedStart(lons: seq<real>, lats: seq<real>, i: int)
    requires 0 <= i < |lons|
    ensures Scanned(lons, lats, i, 0) == Grid(lons[..i], lats)
  {
  }

  lemma ScannedStep(lons: seq<real>, lats: seq<real>, i: int, j: int)
    requires 0 <= i < |lons| && 0 <= j < |lats|
    ensures Scanned(lons, lats, i, j + 1) == Scanned(lons, lats, i, j) + [Cell(lons[i], lats[j])]
  {
  }

  lemma ScannedRow(lons: seq<real>, lats: seq<real>, i: int)
    requires 0 <= i < |lons|
    ensures Scanned(lons, lats, i, |lats|) == Grid(lons[..i + 1], lats)
  {
    assert lons[..i + 1][..i] == lons[..i];
    assert lats[..|lats|] == lats;
  }

  /** Every scanned cell is a cell of the whole grid. */
  lemma ScannedInGrid(lons: seq<real>, lats: seq<real>, i: int, j: int, c: Cell)
    requires 0 <= i < |lons| && 0 <= j <= |lats|
    requires c in Scanned(lons, lats, i, j)
    ensures c.lon in lons && c.lat in lats
  {
    if c in Grid(lons[..i], lats) {
      GridMembers(lons[..i], lats, c);
    } else {
      var r :| 0 <= r < j && Row(lons[i], lats[..j])[r] == c;
    }
  }

  /** The selection test applied to each cell. */
  datatype Test = Within(radius: real) | At(d: real)

  predicate Passes(dist: DistanceFn, loc: Location, t: Test, c: Cell) {
    match t
    case Within(radius) => DistanceTo(dist, loc, c) <= radius
    case At(d) => DistanceTo(dist, loc, c) == d
  }

  /** The cells of `cells` that pass the test, in their order. */
  function Select(dist: DistanceFn, loc: Location, t: Test, cells: seq<Cell>): seq<Cell> {
    if |cells| == 0 then []
    else
      var rest := Select(dist, loc, t, cells[..|cells| - 1]);
      if Passes(dist, loc, t, cells[|cells| - 1]) then rest + [cells[|cells| - 1]] else rest
  }

  /** Dmin after scanning `cells`: the smallest distance seen, starting from DMIN_START. */
  function MinDistance(dist: DistanceFn, loc: Location, cells: seq<Cell>): real {
    if |cells| == 0 then DMIN_START
    else
      var rest := MinDistance(dist, loc, cells[..|cells| - 1]);
      var d := DistanceTo(dist, loc, cells[|cells| - 1]);
      if d < rest then d else rest
  }

  /** The footprint find_the_grid leaves in impacted_grid_cells. */
  function Footprint(dist: DistanceFn, loc: Location, radius: real, lons: seq<real>, lats: seq<real>): seq<Cell> {
    var grid := Grid(lons, lats);
    var inside := Select(dist, loc, Within(radius), grid);
    if |inside| > 0 then inside
    else
      var dmin := MinDistance(dist, loc, grid);
      if dmin < PROXIMITY_KM then Select(dist, loc, At(dmin), grid) else []
  }

  // ---------------------------------------------------------------------------
  // Properties.

  /** The grid holds exactly the pairs of a listed longitude and a listed latitude. */
  lemma {:induction false} GridMembers(lons: seq<real>, lats: seq<real>, c: Cell)
    ensures c in Grid(lons, lats) <==> c.lon in lons && c.lat in lats
  {
    if |lons| > 0 {
      var init := lons[..|lons| - 1];
      GridMembers(init, lats, c);
      assert lons == init + [lons[|lons| - 1]];
      if c in Row(lons[|lons| - 1], lats) {
        var j :| 0 <= j < |lats| && Row(lons[|lons| - 1], lats)[j] == c;
      }
      if c.lon == lons[|lons| - 1] && c.lat in lats {
        var j :| 0 <= j < |lats| && lats[j] == c.lat;
        assert Row(lons[|lons| - 1], lats)[j] == c;
      }
    }
  }

  /** A cell is selected exactly when it is listed and passes the test. */
  lemma {:induction false} SelectMembers(dist: DistanceFn, loc: Location, t: Test, cells: seq<Cell>, c: Cell)
    ensures c in Select(dist, loc, t, cells) <==> c in cells && Passes(dist, loc, t, c)
  {
    if |cells| > 0 {
      var init := cells[..|cells| - 1];
      SelectMembers(dist, loc, t, init, c);
      assert cells == init + [cells[|cells| - 1]];
    }
  }

  /** Selection distributes over concatenation (the scan may be split anywhere). */
  lemma {:induction false} SelectAppend(dist: DistanceFn, loc: Location, t: Test, a: seq<Cell>, b: seq<Cell>)
    ensures Select(dist, loc, t, a + b) == Select(dist, loc, t, a) + Select(dist, loc, t, b)
  {
    if |b| > 0 {
      var init := b[..|b| - 1];
      SelectAppend(dist, loc, t, a, init);
      assert (a + b)[..|a + b| - 1] == a + init;
    } else {
      assert a + b == a;
    }
  }

  /** Dmin is at most every distance seen, and is either DMIN_START or attained by a cell. */
  lemma {:induction false} MinDistanceIsMinimum(dist: DistanceFn, loc: Location, cells: seq<Cell>)
    ensures MinDistance(dist, loc, cells) <= DMIN_START
    ensures forall c :: c in cells ==> MinDistance(dist, loc, cells) <= DistanceTo(dist, loc, c)
    ensures MinDistance(dist, loc, cells) == DMIN_START
            || exists c :: c in cells && DistanceTo(dist, loc, c) == MinDistance(dist, loc, cells)
  {
    if |cells| > 0 {
      var init := cells[..|cells| - 1];
      MinDistanceIsMinimum(dist, loc, init);
      assert cells == init + [cells[|cells| - 1]];
      var rest := MinDistance(dist, loc, init);
      if rest != DMIN_START && DistanceTo(dist, loc, cells[|cells| - 1]) >= rest {
        var w :| w in init && DistanceTo(dist, loc, w) == rest;
        assert w in cells;
      }
    }
  }

  /**
   * The footprint, cell by cell: when some cell lies within the crater radius
   * it is exactly those cells; otherwise, when Dmin < 30 km, exactly the cells
   * at the minimum distance; otherwise no cell.
   */
  lemma FootprintMembers(dist: DistanceFn, loc: Location, radius: real, lons: seq<real>, lats: seq<real>, c: Cell)
    ensures var grid := Grid(lons, lats);
            var anyInside := exists g :: g in grid && DistanceTo(dist, loc, g) <= radius;
            var dmin := MinDistance(dist, loc, grid);
            c in Footprint(dist, loc, radius, lons, lats) <==>
              && c.lon in lons && c.lat in lats
              && (if anyInside then DistanceTo(dist, loc, c) <= radius
                  else dmin < PROXIMITY_KM && DistanceTo(dist, loc, c) == dmin)
  {
    var grid := Grid(lons, lats);
    GridMembers(lons, lats, c);
    SelectMembers(dist, loc, Within(radius), grid, c);
    SelectMembers(dist, loc, At(MinDistance(dist, loc, grid)), grid, c);
    var inside := Select(dist, loc, Within(radius), grid);
    if exists g :: g in grid && DistanceTo(dist, loc, g) <= radius {
      var g :| g in grid && DistanceTo(dist, loc, g) <= radius;
      SelectMembers(dist, loc, Within(radius), grid, g);
    } else if |inside| > 0 {
      SelectMembers(dist, loc, Within(radius), grid, inside[0]);
    }
  }

  /**
   * The fallback takes the nearest cell(s), ties included: when no cell is
   * within the radius and Dmin < 30 km, the footprint is non-empty and no grid
   * cell is nearer to the impact than any footprint cell.
   */
  lemma FallbackIsNearest(dist: DistanceFn, loc: Location, radius: real, lons: seq<real>, lats: seq<real>)
    requires forall g :: g in Grid(lons, lats) ==> DistanceTo(dist, loc, g) > radius
    requires MinDistance(dist, loc, Grid(lons, lats)) < PROXIMITY_KM
    ensures Footprint(dist, loc, radius, lons, lats) != []
    ensures forall c, g :: c in Footprint(dist, loc, radius, lons, lats) && g in Grid(lons, lats) ==>
              DistanceTo(dist, loc, c) <= DistanceTo(dist, loc, g)
  {
    var grid := Grid(lons, lats);
    var dmin := MinDistance(dist, loc, grid);
    MinDistanceIsMinimum(dist, loc, grid);
    var w :| w in grid && DistanceTo(dist, loc, w) == dmin;
    if |Select(dist, loc, Within(radius), grid)| > 0 {
      SelectMembers(dist, loc, Within(radius), grid, Select(dist, loc, Within(radius), grid)[0]);
    }
    SelectMembers(dist, loc, At(dmin), grid, w);
    forall c | c in Footprint(dist, loc, radius, lons, lats)
      ensures DistanceTo(dist, loc, c) == dmin
    {
      SelectMembers(dist, loc, At(dmin), grid, c);
    }
  }

  /** An impact reaches no cell exactly when no cell is within the radius and Dmin is at least 30 km. */
  lemma FootprintEmpty(dist: DistanceFn, loc: Location, radius: real, lons: seq<real>, lats: seq<real>)
    ensures Footprint(dist, loc, radius, lons, lats) == [] <==>
              (forall g :: g in Grid(lons, lats) ==> DistanceTo(dist, loc, g) > radius)
              && MinDistance(dist, loc, Grid(lons, lats)) >= PROXIMITY_KM
  {
    var grid := Grid(lons, lats);
    if exists g :: g in grid && DistanceTo(dist, loc, g) <= radius {
      var g :| g in grid && DistanceTo(dist, loc, g) <= radius;
      SelectMembers(dist, loc, Within(radius), grid, g);
    } else if MinDistance(dist, loc, grid) < PROXIMITY_KM {
      FallbackIsNearest(dist, loc, radius, lons, lats);
    } else if |Select(dist, loc, Within(radius), grid)| > 0 {
      SelectMembers(dist, loc, Within(radius), grid, Select(dist, loc, Within(radius), grid)[0]);
    }
  }

  /** Every footprint cell is a cell of the working grid. */
  lemma FootprintInGrid(dist: DistanceFn, loc: Location, radius: real, lons: seq<real>, lats: seq<real>)
    ensures forall c :: c in Footprint(dist, loc, radius, lons, lats) ==> c.lon in lons && c.lat in lats
  {
    forall c | c in Footprint(dist, loc, radius, lons, lats)
      ensures c.lon in lons && c.lat in lats
    {
      FootprintMembers(dist, loc, radius, lons, lats, c);
    }
  }
}
