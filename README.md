# IMPaCS grid-state engine in Dafny

IMPaCS simulates how impacts reworked the Hadean crust. The engine keeps, for
every cell of a longitude/latitude grid, a column of SiO2 weight percentages,
layer 0 at the surface. Each impact:

1. locates the cells its crater reaches;
2. averages the top of their columns into a target composition;
3. rewrites every reached column as upper and lower impact melt.

A monitoring cell keeps a trace of its hits. A report bins the mean of the top
two layers of every cell into an area histogram.

The model follows the class `IMPAaCS` of `impacts.py`:

- **`Engine.IMPAaCS`** is a Dafny `class` with the engine's fields.
  - `gridCellState` maps each cell key to an `array<real>` column, as the source's dictionary of numpy arrays does.
  - Methods change the arrays in place, with loops that mirror the source's loops.
  - A ghost map `columns` mirrors what the arrays hold, and a ghost map `owner` records that distinct keys own distinct arrays.
  - The invariant `Valid()` ties all of this together.
- **Each method is proved against a specification function**, whose own properties are proved as lemmas:
  - `Mixing.MixColumn` for state_dynamics;
  - `Locator.Footprint` for find_the_grid;
  - `Averaging.AverageTarget` for get_average_target;
  - `Engine.ImpactCells` for loop_impact_grid;
  - `Subset.LonSubset` / `LatSubset` for get_subset_of_grids;
  - `Reporting.Histogram` for do_sample_percents.
- **Modules:**
  - `Numerics`: `int()`, `np.ceil`, half-to-even rounding.
  - `Params`: the constructor constants and the quantities derived from a diameter.
  - `CellKeys`: integer-pair cell keys.
  - `Subset`, `Locator`, `Averaging`, `Mixing`, `Reporting`.
  - `Engine`: the class.

Modelling decisions:

- **Compositions are `real`.**
- **Cell keys:** the string `str(round(lon,4))+' '+str(round(lat,4))` becomes the pair of both coordinates times 10^4, rounded half to even (`CellKeys.KeyOf`).
- **Distances:** the haversine `distance` is a function parameter, `Locator.DistanceFn`, taken as `(lat1, lat2, lon1, lon2)`.
- **`lon_subset` and `lat_subset` are `const` fields.** The source fills them only during construction. So get_subset_of_grids is a static method whose two resulting lists the constructor stores.
- **`re_bin_sio2` is kept as written.** For a mean strictly between 99 and 100 it answers `None`, which do_sample_percents then drops. `Reporting.ReBinIsCeiling` states this.

## Model

| member | source | states |
|---|---|---|
| Engine.IMPAaCS.constructor | impacts.py:47-98 | the subsets are the strict-box subsets of the input grid; every working-grid key is bound to a column of `int(max_depth/z)` copies of the primitive value and nothing else is; every array in the store is new, so a caller may change it; average_target is primitive; the footprint is empty; the trace starts as `0, [0], [0], [primitive], [primitive]`; the invariant holds |
| Engine.IMPAaCS.GetSubsetOfGrids | impacts.py:332-340 | the two lists equal `Subset.LonSubset`/`LatSubset` of the scan starting from empty lists |
| Engine.IMPAaCS.ScanRow | impacts.py:334-340 | one latitude sweep of the scan takes the lists from the row's start state to its end state |
| Subset.LonSubset | impacts.py:332-340 | lon_subset after the nested scan from `acc`: each longitude strictly inside lon_lims and not yet listed is appended in input order, provided some latitude is strictly inside lat_lims; otherwise `acc` is unchanged |
| Subset.LatSubset | impacts.py:332-340 | lat_subset after the scan, symmetrically: the inside latitudes, provided some longitude is inside |
| Subset.AppendInside | impacts.py:337-340 | the list after appending, in input order, each coordinate strictly inside the limits that is not already in it |
| Subset.AnyInside | impacts.py:335-336 | some coordinate of the list lies strictly inside the limits |
| Subset.Inside | impacts.py:335-336 | `lo < x < hi`: the box boundary itself is excluded |
| Subset.SubsetsAreTheBox | impacts.py:332-340 | a longitude is kept iff it is strictly inside lon_lims and some latitude is strictly inside lat_lims (symmetrically for latitudes); both lists are duplicate-free and in first-occurrence order |
| Subset.AppendInsideMembers | impacts.py:335-340 | after the append scan, x is in the list iff it was before or it is an inside element of the input |
| Subset.AppendInsideExtends | impacts.py:337-340 | the scan only appends: the old list is a prefix of the new one |
| Subset.AppendInsideNoDuplicates | impacts.py:337-340 | the `not in` guards keep a duplicate-free list duplicate-free |
| Subset.AppendInsideFirstOccurrenceOrder | impacts.py:337-340 | the kept values are ordered by their first occurrence in the input |
| Subset.AnyInsideExists | impacts.py:335-336 | the recursive "some coordinate inside" test is the existential |
| Subset.FirstIndexPrefix | impacts.py:337-340 | an element of a prefix first occurs at the same index in the whole list |
| Params.TotalLayers | impacts.py:154 | total_layers = `int(max_depth / z)`, a length of at least zero |
| CellKeys.GridKeys | impacts.py:155-157 | the keys of every (lon, lat) pair of the two subsets |
| CellKeys.RowKeys | impacts.py:156-157 | the keys of one longitude's row |
| Engine.Reset | impacts.py:155-158 | the store with every listed key bound to the given column and every other entry kept; its keys are the old keys and the listed ones |
| Engine.IMPAaCS.StoreValid | impacts.py:153-158 | the class invariant of the store: the constants are valid, distinct keys own distinct arrays, every array has `int(max_depth/z)` layers and holds the column the ghost map records for its key |
| Engine.IMPAaCS.Valid | impacts.py:47-98 | the class invariant: the store is coherent, every working-grid key has a column, and the four trace lists are one longer than count_test_hits |
| Engine.IMPAaCS.Record | impacts.py:73-84 | the monitoring fields (count_test_hits, test_time, impactors_at_test_cell, average_test_target_list, top_layer_at_test_cell) as one value |
| Engine.IMPAaCS.Snap | impacts.py:73-84 | the store's columns together with that record: what loop_impact_grid changes |
| Engine.IMPAaCS.StatePrep | impacts.py:153-158 | the store becomes the old store with every working-grid key bound to `Repeat(primitive, int(max_depth/z))`; every array in the store was there before or is new; the invariant is established |
| Engine.IMPAaCS.PrepRow | impacts.py:156-158 | one latitude sweep binds every key of that row to a new primitive column |
| Engine.IMPAaCS.NewColumn | impacts.py:158 | `np.ones(n) * v`: a fresh array of n copies of v |
| Engine.IMPAaCS.Bind | impacts.py:157-158 | binding a fresh array to a key updates the store at that key only and keeps the store coherent |
| Engine.Repeat | impacts.py:158 | n copies of v: length n, every entry v |
| Engine.ResetUnion | impacts.py:155-158 | binding two key sets in turn is binding their union |
| Engine.ResetOne | impacts.py:157-158 | binding one key is a map update |
| CellKeys.KeyOf | impacts.py:157 | the key of a cell is within half a unit of its coordinates scaled by 10^4 |
| CellKeys.RowKeysStep | impacts.py:156-157 | a row's key set grows by one key per latitude |
| CellKeys.GridKeysStep | impacts.py:155-157 | the grid's key set grows by one row per longitude |
| CellKeys.ImpactTestIdIsKeyOf | impacts.py:45 | impact_test_id is the key of (0.14122179, 0.18672199) |
| Engine.IMPAaCS.Update | impacts.py:101-107 | sim_time, crater diameter, radius and z_layers are set; the footprint is `Locator.Footprint`; when it is empty the columns, trace and average are unchanged; otherwise the average is taken over the columns before the impact, and the new columns and trace are `ImpactCells` of the old ones |
| Engine.IMPAaCS.Strike | impacts.py:103-107 | locating the footprint, then averaging and mixing it only when it is non-empty |
| Engine.IMPAaCS.MixFootprint | impacts.py:105-107 | average over the unmixed store, then the loop, both only on a non-empty footprint |
| Params.CraterRadius | impacts.py:213-214 | crator_radius = `10 · d / 2` |
| Params.ZLayers | impacts.py:215 | z_layers = `int(np.ceil(d / z))` |
| Engine.IMPAaCS.ImpactDimensions | impacts.py:211-215 | crater diameter is 10·d, radius 5·d, z_layers `ceil(d/z)` |
| Params.ZLayersCoverDiameter | impacts.py:215 | z_layers is the least number of layers whose depth covers the diameter |
| Engine.IMPAaCS.FindTheGrid | impacts.py:173-199 | impacted_grid_cells is reset and becomes `Locator.Footprint` of the impact |
| Engine.IMPAaCS.ScanGrid | impacts.py:175-182 | one nested scan yields the running minimum distance and the cells passing the test, in scan order |
| Locator.Footprint | impacts.py:173-199 | impacted_grid_cells: the grid cells within the crater radius in scan order; when there are none, the cells at distance exactly Dmin if Dmin < 30 km, else nothing |
| Locator.Grid | impacts.py:176-177 | the working grid in scan order: longitudes outer, latitudes inner |
| Locator.Scanned | impacts.py:176-177 | the cells the nested scan has visited before (lons[i], lats[j]) |
| Locator.Select | impacts.py:179-197 | the cells of a scan that pass a test (`D <= crator_radius`, or `D == Dmin` in the fallback), in scan order |
| Locator.Passes | impacts.py:181-196 | the two tests the scans apply to a cell |
| Locator.MinDistance | impacts.py:175-180 | Dmin after a scan: the least distance seen, starting from 10000000 |
| Locator.DistanceTo | impacts.py:178 | `distance(impact_loc[0], ilat, impact_loc[1], ilon)` with the distance function given |
| Locator.FootprintMembers | impacts.py:173-199 | a cell is in the footprint iff it is a grid cell and either lies within the radius (when some cell does) or lies at the minimum distance while that is below 30 km |
| Locator.FallbackIsNearest | impacts.py:183-197 | with no cell in the radius and Dmin < 30 km the footprint is non-empty and its cells are the nearest grid cells |
| Locator.FootprintEmpty | impacts.py:183-197 | the footprint is empty iff no cell is within the radius and Dmin >= 30 km |
| Locator.FootprintInGrid | impacts.py:176-197 | every footprint cell is a working-grid cell |
| Locator.MinDistanceIsMinimum | impacts.py:175-180 | Dmin is at most every distance scanned and is the start value or attained by a cell |
| Locator.GridMembers | impacts.py:176-177 | the scanned grid holds exactly the (lon, lat) pairs of the subsets |
| Locator.SelectMembers | impacts.py:181-182 | a cell is collected iff it is scanned and passes the test |
| Locator.SelectAppend | impacts.py:176-182 | collecting over a split scan concatenates the two collections |
| Locator.ScannedInGrid | impacts.py:176-177 | every cell scanned so far is a grid cell |
| Locator.Row | impacts.py:177 | the inner scan of one longitude visits `(lon, lats[j])` in order |
| Engine.IMPAaCS.GetAverageTarget | impacts.py:161-170 | average_target becomes `Averaging.AverageTarget` of the store, the footprint and z_layers |
| Engine.IMPAaCS.TargetTotal | impacts.py:162-169 | the loop's running total, read from the store's arrays, is `Averaging.TargetSum` of the store's columns over the footprint; nothing changes |
| Averaging.AverageTarget | impacts.py:161-170 | average_target: the running total divided by `len(impacted_grid_cells) * z_layers` |
| Averaging.TargetSum | impacts.py:162-169 | the running total after visiting the footprint cells in order |
| Averaging.Contribution | impacts.py:164-169 | what one cell adds: the sum of the top z_layers of its column, or `primitive * z_layers` when the cell has no column |
| Averaging.Sum | impacts.py:167 | `np.sum` of a column slice |
| Averaging.TargetSumPermutation | impacts.py:163-169 | the total is the same for any rearrangement of the footprint |
| Averaging.AverageTargetPermutation | impacts.py:161-170 | so is the average |
| Averaging.TargetSumAppend | impacts.py:163-169 | the total over a concatenation is the sum of the totals |
| Averaging.AverageOfPrimitive | impacts.py:161-170 | over a footprint whose top layers (or absent columns) are primitive, the average is primitive |
| Averaging.TargetSumOfPrimitive | impacts.py:163-169 | each such cell adds `primitive * z_layers` to the total |
| Averaging.TargetSumUniform | impacts.py:163-169 | cells that each contribute v total v per cell |
| Averaging.ContributionOfPrimitive | impacts.py:166-169 | a present primitive column and an absent cell contribute the same |
| Averaging.SumConstant | impacts.py:167 | `np.sum` of n copies of v is n·v |
| Averaging.Prefix | impacts.py:167 | `s[:n]` is the first n entries, or all of s when n is past the end |
| Engine.IMPAaCS.LoopImpactGrid | impacts.py:202-209 | columns and trace become `ImpactCells` of their old values over the footprint; the invariant is kept |
| Engine.IMPAaCS.ImpactCell | impacts.py:203-209 | one pass: the cell's column is mixed, then the trace records a hit of the monitoring cell |
| Engine.ImpactCells | impacts.py:202-209 | columns and trace after loop_impact_grid: one ImpactStep per footprint cell, in footprint order |
| Engine.ImpactStep | impacts.py:203-209 | one pass: the cell's column becomes its MixColumn; if the cell is the monitoring cell, a hit is recorded with the new top layer |
| Engine.MixKeys | impacts.py:202-209 | the store with every column keyed by the footprint mixed once and every other column kept |
| Engine.CellKeysOf | impacts.py:203-204 | the keys of the footprint cells |
| Engine.Hits | impacts.py:203-220 | how many footprint cells carry the monitoring key |
| Engine.ImpactCellsColumns | impacts.py:202-209 | after the loop every footprint column is mixed exactly once, whatever the order and repetitions, and all other columns are unchanged |
| Engine.ImpactCellsRecord | impacts.py:202-209 | the trace gains one entry per footprint cell with the monitoring key, each with that cell's new top layer, and none when no cell has it |
| Engine.ImpactStepRecord | impacts.py:207-209 | one pass adds a trace entry exactly when it visits the monitoring cell |
| Engine.MixKeysShape | impacts.py:112-150 | one impact keeps the store's keys and column lengths, leaves columns outside the footprint and layers below the melt depth unchanged |
| Engine.MixKeysIdempotent | impacts.py:202-209 | mixing the same footprint twice with the same impact is mixing it once |
| Engine.MixKeysInsert | impacts.py:203-207 | mixing one more key mixes that column once more, which leaves an already mixed column as it is |
| Engine.GridCellsCovered | impacts.py:164-166 | every footprint cell of the working grid has a column in the store |
| Engine.FootprintStep | impacts.py:203-209 | the footprint's keys and hit count grow cell by cell |
| Engine.CellKeysOfMembers | impacts.py:203-204 | a key is among the footprint keys iff some footprint cell has it |
| Engine.HitsOfTestCell | impacts.py:220 | the monitoring cell is hit iff its key is among the footprint keys; hits are at most the footprint's length |
| Engine.IMPAaCS.StateDynamics | impacts.py:112-150 | the column of `grid_cell_id` becomes `MixColumn` of its old value and no other column changes; the invariant is kept |
| Engine.IMPAaCS.MixPasses | impacts.py:120-150 | the four passes over the column array compute `MixColumn` of its old contents |
| Engine.IMPAaCS.FillRange | impacts.py:134-147 | `for i in range(lo, hi): column[i] = v` sets exactly those indices |
| Engine.IMPAaCS.RoundRange | impacts.py:149-150 | the first m entries are rounded to one decimal, the rest kept |
| Mixing.MixColumn | impacts.py:120-150 | one impact on a column, pass by pass: [k, m) set to primitive, [0, k) to the upper melt value, [k, m) to the mass-balance value read from layer 0, then [0, m) rounded to one decimal |
| Mixing.UpperWeight | impacts.py:142 | wt_sio2_upper, the layer-0 value the lower pass reads: the upper melt value when the upper range is non-empty, else primitive |
| Mixing.Fill | impacts.py:134-147 | a fill pass: every layer in [lo, hi) set to v |
| Mixing.RoundPrefix | impacts.py:149-150 | the rounding pass: every layer in [0, m) rounded to one decimal |
| Mixing.MixColumnLayers | impacts.py:120-150 | length kept; layers from melt_layers down unchanged; upper range holds `round(avg·upper_SiO2/target_SiO2, 1)`; lower range holds the rounded mass-balance value from the unrounded layer 0 (or primitive when k = 0); the primitive placeholder never survives |
| Mixing.ThreePasses | impacts.py:134-150 | the three fills and the rounding, layer by layer, for any split inside the melt range |
| Mixing.MixColumnRounded | impacts.py:149-150 | every disturbed layer has at most one decimal |
| Mixing.MixColumnIdempotent | impacts.py:125-150 | mixing a column twice with the same impact equals mixing it once |
| Mixing.MixColumnNoMelt | impacts.py:123-150 | with melt_layers <= 0 the column is unchanged |
| Mixing.MixColumnZeroDiameter | impacts.py:120-123 | a zero diameter leaves the column unchanged |
| Mixing.DefaultImpactOnPrimitive | impacts.py:120-150 | with the default constants a 30 km impact on a 45 wt% column gives 5 melt layers, 3 upper at 49.4, 2 lower at 36.2, the rest 45 |
| Mixing.FillLayers | impacts.py:134-147 | a fill pass sets [lo, hi) to v and keeps the rest |
| Mixing.RoundPrefixLayers | impacts.py:149-150 | the rounding pass rounds [0, m) and keeps the rest |
| Mixing.FillEmpty | impacts.py:134-135 | an empty range writes nothing |
| Mixing.FillStep | impacts.py:134-135 | a fill pass, index by index |
| Mixing.RoundPrefixEmpty | impacts.py:149 | `range(m)` with m <= 0 rounds nothing |
| Mixing.RoundPrefixStep | impacts.py:149-150 | the rounding pass, index by index |
| Params.ValidConfig | impacts.py:47-71 | the requirements the model places on the constructor constants (see Left out) |
| Params.FractionLower | impacts.py:66 | fraction_lower_layer = `1 - fraction_upper_layer` |
| Params.MeltLayers | impacts.py:120-123 | melt_layers = `int(d · proportion_melt / z)` |
| Params.FractionationFactor | impacts.py:130 | fractionation_factor = `1 - target_SiO2 / upper_SiO2` |
| Params.UpperValue | impacts.py:130-139 | the upper melt value `average_target / (1 - fractionation_factor)` |
| Params.LowerValue | impacts.py:144-147 | the lower melt value `(average_target - f_upper · wt_sio2_upper) / f_lower` |
| Params.UpperCount | impacts.py:125-126 | the split point `int(round(f·m, 2))` lies in [0, m], so the upper and lower ranges partition [0, m) |
| Params.SplitPoint | impacts.py:125-126 | the split of m layers at a fraction in [0, 1] lies between 0 and m |
| Params.UpperValueIsRatio | impacts.py:130-139 | `avg / (1 - fractionation_factor)` is `avg · upper_SiO2 / target_SiO2` |
| Params.LowerValueBalances | impacts.py:142-147 | `f_upper · upper + f_lower · lower = average_target` |
| Params.MeltLayersWithinDepth | impacts.py:120-123 | melt_layers whole layers fit in the melt depth and one more would not |
| Params.ZeroDiameterMeltsNothing | impacts.py:120-123 | a zero diameter melts no layer |
| Params.DefaultConfig | impacts.py:47-59 | the constructor defaults satisfy the engine's requirements |
| Numerics.Trunc | impacts.py:123 | Python `int()`: toward zero, within one of the value |
| Numerics.Ceil | impacts.py:215 | `np.ceil`: the least integer at or above the value |
| Numerics.RoundHalfEven | impacts.py:125 | nearest integer, ties to even |
| Numerics.Round1 | impacts.py:150 | `np.round(x, 1)` has one decimal and is within 0.05 of x |
| Numerics.Round1OfOneDecimal | impacts.py:150 | rounding a one-decimal value keeps it |
| Numerics.Round2 | impacts.py:125 | `round(x, 2)` is within 0.005 of x |
| Numerics.Round2Bounded | impacts.py:125 | `round(x, 2)` of a value between two integers stays between them |
| Numerics.RoundHalfEvenBounded | impacts.py:125 | rounding never crosses an integer bound |
| Numerics.TruncBounded | impacts.py:126 | `int()` of a value between two integers stays between them |
| Engine.IMPAaCS.TestOneGridCell | impacts.py:218-225 | the trace gains one entry in each list (time, diameter, average, new top layer) and one count iff the key is impact_test_id, else it is unchanged; the four lists stay in step |
| Engine.Hit | impacts.py:218-225 | one hit of the monitoring cell: count plus one, and one entry appended to each of the four lists |
| Engine.HitTimes | impacts.py:218-225 | n such hits with the same entries |
| Engine.Aligned | impacts.py:73-84 | each of the four lists holds one entry more than the count |
| Engine.HitKeepsAligned | impacts.py:221-225 | a hit keeps the four lists one longer than the count |
| Engine.HitTimesAppends | impacts.py:221-225 | n hits add n to the count and n copies of the same entry to each list |
| Engine.RepeatStep | impacts.py:222-225 | n + 1 appends of v are n appends and one more |
| Reporting.ReBin | impacts.py:228-238 | re_bin_sio2 with its defaults: the scan over bins 1..99 from bin 1 |
| Reporting.ReBinFrom | impacts.py:232-238 | the scan from bin s: the first s with v <= s, 100 once v >= 100, nothing when the range runs out |
| Reporting.ReBinIsCeiling | impacts.py:228-238 | for v <= 99 the bin is the least integer in 1..99 at or above v (so v <= 1 gives 1); v >= 100 gives 100; 99 < v < 100 gives None |
| Reporting.ReBinFromCeiling | impacts.py:232-238 | the same for the scan resumed at bin s |
| Engine.IMPAaCS.DoSamplePercents | impacts.py:300-329 | every working-grid cell has a column; sample_percents is the histogram of the retained bins of the top-two-layer means in scan order |
| Reporting.SampleBins | impacts.py:313-321 | bar_list before filtering: for each scanned cell with a non-empty column, the bin of the mean of its top two layers |
| Reporting.Mean | impacts.py:319 | `np.mean` of a non-empty slice |
| Reporting.Retained | impacts.py:323 | bar_list with the None entries removed, in order |
| Reporting.Count | impacts.py:327 | `list.count(u)` |
| Reporting.Histogram | impacts.py:325-327 | bar_data: each bin that occurs mapped to `100 · count / len(bar_list)` |
| Engine.IMPAaCS.SampleScan | impacts.py:310-321 | bar_list is the bin of every cell with a non-empty column, in scan order |
| Engine.IMPAaCS.SampleRow | impacts.py:313-321 | one latitude sweep extends bar_list by that row's bins |
| Engine.IMPAaCS.BarData | impacts.py:325-327 | bar_data maps each occurring bin to `100·count/len(bar_list)` |
| Engine.SampleBinsStep | impacts.py:314-321 | the scan, one cell further on, appends that cell's bin |
| Reporting.SampleBinsAppend | impacts.py:319-321 | a cell appended to the scan appends its bin when its column has a layer |
| Reporting.RetainedInRange | impacts.py:316-323 | every retained bin is an integer in 1..100 |
| Reporting.RetainedAppend | impacts.py:323 | filtering out None keeps the Some values in order |
| Reporting.SamplePercentsSumTo100 | impacts.py:325-327 | over a non-empty sample the percentages of the distinct bins sum to 100 |
| Reporting.HistogramBounds | impacts.py:325-327 | each percentage lies in (0, 100] |
| Reporting.CountBounds | impacts.py:327 | `list.count(u)` is at most the length, at least 1 when u occurs |
| Reporting.CountAppend | impacts.py:327 | counting in a list extended by one element |
| Reporting.CountDistinct | impacts.py:326 | a value of a duplicate-free list is counted once in it |
| Reporting.SumCountsCover | impacts.py:326-327 | the counts of a duplicate-free cover of the sample add up to its length |
| Reporting.SumCountsAppend | impacts.py:326-327 | the counts after one more sample element |
| Reporting.SumCountsOfEmpty | impacts.py:326-327 | an empty sample has no counts |
| Reporting.SumPercentsScaled | impacts.py:327 | the percentages are the counts scaled by 100 / len(bar_list) |
| Reporting.AddPercents | impacts.py:327 | proof step of SamplePercentsSumTo100, a fact of real arithmetic: percentages of two counts add up to the percentage of their sum |
| Reporting.DivideBack | impacts.py:327 | proof step of SamplePercentsSumTo100, a fact of real arithmetic: scaling up then dividing back is the identity |
| Subset.FirstIndex | impacts.py:337-340 | the index of the first occurrence of x |

## Left out

- The haversine body of `distance` (impacts.py:14-30) uses floating-point trigonometry. The model takes distance as a function parameter of Update, FindTheGrid and ScanGrid.
- `EASE2_grid` (impacts.py:7) is an external grid provider and is not part of this model. Its `londim`/`latdim` are constructor parameters.
- `plot_map_and_bar` (impacts.py:241-297) is rendering and file output.
- The matrix `z` in do_sample_percents (impacts.py:310, 317) is a local that nothing reads; plot_map_and_bar builds its own. The model leaves it out.
- do_sample_percents: its `n_layers` argument (impacts.py:300) is never read. The source always averages the top two layers (`[0:2]`, impacts.py:315 and 319), and so does the model, which has no such parameter.
- `verbose` prints, `ensemble`, `n_layers_impact_melt`, `fracionated_melt`, `average_target_list`, `n_x`/`n_y` and `egrid` have no effect on the modelled state.
- Floating point is not modelled. Values are exact reals, so the ulp-level effects of `np.round` and of `round(x, 4)` keys are lost. Rounding is exact half-to-even.
- NaN: a cell whose column has no layers has a NaN mean in the source and is skipped. The model skips it explicitly, and the 100 % sum is stated over the retained bins.
- Params.ValidConfig: requires z > 0, max_depth >= 0, non-zero target and upper SiO2, and 0 <= fraction_upper_layer < 1. The source checks none of these.
  - z and upper_SiO2 are divisors in the source (impacts.py:123, 130, 154, 215), and a zero there raises a division error.
  - target_SiO2 is a dividend at impacts.py:130. It becomes a divisor only through `1 - fractionation_factor` at impacts.py:139. There the numpy float64 division by zero gives inf, not an exception. The model requires it non-zero because `Params.UpperValue` divides by it.
  - max_depth in (-z, 0) is accepted by the source: `int(max_depth/z)` is 0 and every column is empty (impacts.py:154-158). The model does not cover this case. From -z down, `np.ones` of a negative length fails.
  - fraction_upper_layer < 0 can make the split k negative (exactly when `round(f·m, 2) <= -1`), and `range(k, m)` then writes layers counted from the end of the column (impacts.py:125, 134-135, 145-147).
  - fraction_upper_layer = 1 gives k = melt_layers, so the lower range is empty and the source never divides by fraction_lower_layer = 0 (impacts.py:125, 145-147). The model excludes it because `Mixing.MixColumn` computes the lower value whether or not the lower range is empty.
  - fraction_upper_layer > 1 can make k exceed melt_layers. The upper pass then writes the unrounded upper value into layers [melt_layers, k), which the rounding pass `range(melt_layers)` does not reach (impacts.py:138-139 against 149-150).
- Engine.IMPAaCS.Update: requires, when the footprint is non-empty, z_layers != 0, at least one layer per column, and melt_layers <= int(max_depth/z).
  - z_layers = 0 exactly when -z < d <= 0, a zero diameter included. The source does not fail on such an impact. Every range of state_dynamics is then empty, so each column stays as it was. average_target becomes NaN through numpy's float division 0/0 (impacts.py:170), and a hit of the monitoring cell records that NaN. The model has no NaN and does not cover these impacts.
  - A column with no layer, or with fewer layers than melt_layers, makes the source index past its end (impacts.py:135-147) and fail. The model does not model that failure.
- Engine.IMPAaCS.Update: takes distance as an argument where the source calls the module-level `distance`, so its contract holds for every distance function.
- Engine.IMPAaCS.GetSubsetOfGrids: returns the two lists and the constructor stores them, where the source appends to the fields. The lists start empty and the method runs only from the constructor, so the result is the same.
- Engine.IMPAaCS.constructor: keeps `max_depth_of_impact_melt`, `primitive_initial_state` and the other constants in a `Params.Config` value, not as separate fields.
- Engine.IMPAaCS.ScanRow, PrepRow, SampleRow, ScanGrid and TargetTotal: each is an inner loop, or one nested scan, of a source method, split out as its own proof unit with the writes in the same order.
- Engine.IMPAaCS.NewColumn and Bind: each is one line of state_prep, split out the same way.
- Engine.IMPAaCS.ImpactCell, MixPasses, FillRange and RoundRange: each is one loop body or one pass of loop_impact_grid and state_dynamics, split out the same way.
- Engine.IMPAaCS.Strike and MixFootprint: the tail of update, split out the same way.
