# Rocket 3 map viewer: a verified model of its data core

The Triumph Rocket 3 map viewer shows an engine fuel map, a grid of
air/fuel ratios (AFR), as a colour-coded table or as a 3D surface. It can
also compare two map variants cell by cell in a delta table. Each grid row is
an RPM label followed by AFR values at increasing throttle.

This project models the data logic under that page, in four modules:

- `Classify` (classify.dfy): the absolute AFR colour classes (`getColorClass`,
  seven buckets with inclusive thresholds at 12.0, 12.5, 13.0, 13.5, 14.0 and
  14.5) and the delta classes (`getDeltaColorClass`: exact zero, ±0.1, ±0.5).
- `Surface` (surface.dfy): the data part of `render3DChart`. It strips the label
  column, pads each row with three copies of its first and last value, applies
  the inversion `(26.5 - v) * 0.33`, and computes minZ, maxZ and the 10%
  padding of the z axis.
- `Table` (table.dfy): `renderTable` as a method whose loops build the table
  body row by row and cell by cell, in normal mode and in delta mode.
- `View` (view.dfy): the page state `currentMode` / `currentMapType` as the
  class `ViewState`, with `setMode`, `updateMapType` and the render decision
  of `updateDisplay`.
- `Grids` (grid.dfy) holds the grid type, shape predicates, `flat`,
  `Math.min` and `Math.max`.

Values are mathematical reals. Grids are `seq<seq<real>>`.

## Model

| member | source | states |
|---|---|---|
| `Classify.ColorClass` | rocket3-app.js:132-140 | the result lies in the half-open band of the highest threshold met; it is the lowest bucket exactly when v < 12.0 and the highest exactly when v >= 14.5 |
| `Classify.ColorClassIsTheBand` | rocket3-app.js:132-140 | a value lies in a bucket's band if and only if that bucket is the one chosen, so the bands partition the reals |
| `Classify.ColorClassMonotone` | rocket3-app.js:133-139 | v <= w implies rank(bucket(v)) <= rank(bucket(w)) |
| `Classify.ColorClassBoundaries` | rocket3-app.js:132-140 | 12.0, 13.5, 14.0 and 14.5 fall in the bucket above the boundary; 14.0 gives afr-140-145; below 12.0 gives the under-120 bucket |
| `Classify.DeltaColorClass` | rocket3-app.js:142-149 | each of the six buckets is chosen if and only if the delta lies in its interval: exact zero, <= -0.5, (-0.5, -0.1], nonzero in (-0.1, 0.1), [0.1, 0.5), >= 0.5 |
| `Classify.DeltaSignSymmetric` | rocket3-app.js:144-148 | the bucket of -d is the sign-mirror of the bucket of d, with both zero buckets fixed |
| `Classify.DeltaFromNegation` | rocket3-app.js:144-148 | conversely, the bucket of d is the sign-mirror of the bucket of -d |
| `Classify.DeltaBoundaries` | rocket3-app.js:142-149 | 0 is zero-exact; 0.5, 0.1, -0.1, -0.5 go to the larger-magnitude bucket; ±0.05 is near zero |
| `Grids.SameShapeCovers` | rocket3-app.js:164 | two grids of the same shape can be indexed at each other's cells |
| `Grids.Flat` | rocket3-app.js:18 | the flattened grid is non-empty when some row is |
| `Grids.FlatHas` | rocket3-app.js:18 | every cell of the grid is in the flattened list |
| `Grids.FlatFrom` | rocket3-app.js:18 | every element of the flattened list is some cell of the grid |
| `Grids.MinOf` | rocket3-app.js:19 | the result is an element of the list and no element is smaller |
| `Grids.MaxOf` | rocket3-app.js:20 | the result is an element of the list and no element is larger |
| `Surface.ZData` | rocket3-app.js:10 | one row per input row, one cell shorter, cell j being input cell j + 1 |
| `Surface.Plateau` | rocket3-app.js:11-15 | for a row of length n: length n + 6, indices 0..3 equal row[0], indices n+2..n+5 equal row[n-1], slice [3, n+3) is the row |
| `Surface.PlateauSameValues` | rocket3-app.js:11-15 | the padded row holds exactly the values of the row |
| `Surface.WithPlateaus` | rocket3-app.js:11-15 | one padded row per row |
| `Surface.Invert` | rocket3-app.js:16 | the plotted height z of an AFR v gives v back as 26.5 - z / 0.33, and z is positive exactly when v is below 26.5 |
| `Surface.InvertAll` | rocket3-app.js:16 | same shape, each cell inverted |
| `Surface.RevertInvert` | rocket3-app.js:16 | the inversion is undone by v = 26.5 - z / 0.33 |
| `Surface.InvertRevert` | rocket3-app.js:16 | the undoing is itself undone by the inversion, so it is a bijection |
| `Surface.InvertStrictlyDecreasing` | rocket3-app.js:16 | v < w if and only if v is plotted strictly higher than w |
| `Surface.InvertCalibration` | rocket3-app.js:16 | 12.0 is plotted at 4.785 and 14.5 at 3.96 |
| `Surface.SurfaceOf` | rocket3-app.js:10-21 | one surface row per grid row of width (n - 1) + 6; cells 0..3 hold the inverted first AFR, cells 3..n+1 the inverted AFR columns in order, the last four the inverted last AFR; the padding is 10% of maxZ - minZ |
| `Surface.ZAxisRange` | rocket3-app.js:93 | with a non-negative padding the axis range contains [minZ, maxZ], and it is the span widened by the padding on each side |
| `Surface.SurfaceBounds` | rocket3-app.js:18-21 | minZ <= every height <= maxZ, the padding is >= 0, and every height lies in [minZ - pad, maxZ + pad] |
| `Surface.SurfaceExtremesAttained` | rocket3-app.js:18-20 | minZ and maxZ are heights of some cell |
| `Surface.HeightFromRaw` | rocket3-app.js:10-18 | every plotted height is the inversion of some AFR value of the grid |
| `Surface.RawPlotted` | rocket3-app.js:10-18 | every AFR value of the grid is plotted, inverted |
| `Surface.SurfaceRangeFromRaw` | rocket3-app.js:10-20 | minZ is the inversion of the leanest AFR of the grid and maxZ that of the richest |
| `Surface.AxisMatchesSurfaceWidth` | rocket3-app.js:14-25 | a throttle axis with one value per AFR column, padded the same way, has the width of every surface row |
| `Surface.PlateauExample` | rocket3-app.js:10-15 | the row [1000, 13.0, 14.0] becomes four 13.0 then four 14.0 |
| `Table.RenderTable` | rocket3-app.js:152-176 | one body row per grid row, of the same length; the label cell passes through unclassified; in normal mode each value cell is classified by its AFR, in delta mode by A[r][c] - B[r][c] |
| `Table.RenderCompare` | rocket3-app.js:214-221 | the compare table carries A's labels and classifies A - B in every value cell; comparing a grid with itself gives delta-zero-exact in every value cell |
| `View.ValueOr` | rocket3-app.js:194 | a present, non-empty control value is used, otherwise the fallback |
| `View.CompareIgnoresViewMode` | rocket3-app.js:214-222 | in compare mode the target is the delta table whatever the render-target control says |
| `View.ViewState.constructor` | rocket3-app.js:5-6 | the page starts in single mode with map type AFR |
| `View.ViewState.UpdateDisplay` | rocket3-app.js:192-223 | the 3D view is chosen if and only if the mode is single and the view control reads "3d"; any other mode renders the delta table of versions A and B |
| `View.ViewState.SetMode` | rocket3-app.js:179-189 | the mode becomes the selected value, the single-map controls are shown exactly in single mode, the map type is untouched, and the display follows the new mode |
| `View.ViewState.UpdateMapType` | rocket3-app.js:117-126 | afterwards the state and the control both read AFR, whatever was selected; the mode is untouched |

## Left out

- DOM access (`getElementById`, element creation, `style.display`,
  `innerHTML`), event wiring and `initApp`: UI plumbing. Visibility is kept
  only as the render target and the `singleControlsShown` flag.
- The Plotly trace, layout and config and the `Plotly.newPlot` call
  (rocket3-app.js:23-113): a foreign rendering library. The colorbar tick
  values at line 41 use the factor 0.5 where the surface uses 0.33, so they
  do not line up with the plotted heights. This is noted, not modelled.
- `toFixed(2)` and the `'+'` prefix of delta cells: string rendering of
  floating-point numbers. Cells carry the numeric value instead.
- IEEE-754 arithmetic: `(26.5 - v) * 0.33` and `A - B` are computed on exact
  reals. Exact float equality is not captured, for example whether a computed
  delta of 0.1 lands on a boundary or whether `d === 0` holds after rounding.
- Empty grids and rows without an AFR column, where `Math.min` gives
  `Infinity` and `row[0]` is `undefined`. `Surface.SurfaceOf` requires a
  non-empty grid whose rows each hold a label and at least one value.
- Table.RenderTable, Table.RenderCompare: in delta mode they require both compared grids to have
  every cell the rendered grid has. The source has no guard at line 164: a
  missing row would throw and a missing cell would give `NaN`, styled as
  delta-zero. No shape-mismatch error is modelled.
- The static datasets and axis labels (`datasetsAFR`, `rpmLabels`,
  `throttleValuesWithPlateaus`), `getCurrentDatasets` and the lookup
  `datasets[version]`: external globals that are not part of this model.
  The render target names the selected variants instead of their grids.
- The 3D title table `versionNames` (lines 203-207): chart text only.
