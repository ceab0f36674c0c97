/** The data half of the 3D view (render3DChart): strip the RPM labels,
    extend every row with flat plateaus at both throttle ends, invert the AFR
    axis so that a richer mixture stands higher, and calibrate the z range. */
module Surface {
  import opened Grids

  /** Calibration of the inverted z axis: z = (K - v) * S. */
  const K: real := 26.5
  const S: real := 0.33

  /** Number of copies of the first and of the last value added at each end. */
  const PlateauWidth: nat := 3

  /** Share of the z span added below the minimum and above the maximum. */
  const PaddingShare: real := 0.1

  /** Every row carries its label and the AFR values after it. */
  predicate Labelled(data: Grid) {
    forall i :: 0 <= i < |data| ==> |data[i]| >= 1
  }

  /** The rows without their label column (`row.slice(1)`). */
  function ZData(data: Grid): (z: Grid)
    requires Labelled(data)
    ensures |z| == |data|
    ensures forall i :: 0 <= i < |data| ==> |z[i]| == |data[i]| - 1
    ensures forall i, j :: 0 <= i < |data| && 0 <= j < |data[i]| - 1 ==> z[i][j] == data[i][j + 1]
  {
    seq(|data|, i requires 0 <= i < |data| => data[i][1..])
  }

  /** A row with three copies of its first value in front and three copies of
      its last value behind. */
  function Plateau(row: Row): (p: Row)
    requires |row| >= 1
    ensures |p| == |row| + 2 * PlateauWidth
    ensures forall k :: 0 <= k <= PlateauWidth ==> p[k] == row[0]
    ensures forall k :: |row| + PlateauWidth - 1 <= k < |p| ==> p[k] == row[|row| - 1]
    ensures forall k :: PlateauWidth <= k < |row| + PlateauWidth ==> p[k] == row[k - PlateauWidth]
    ensures p[PlateauWidth..|row| + PlateauWidth] == row
  {
    var first, last := row[0], row[|row| - 1];
    [first, first, first] + row + [last, last, last]
  }

  /** Every value of a plateau row comes from the row, and every value of the
      row is still there: the plateaus add no new values. */
  lemma PlateauSameValues(row: Row)
    requires |row| >= 1
    ensures forall x :: x in Plateau(row) <==> x in row
  {
  }

  /** Plateau applied to every row. */
  function WithPlateaus(z: Grid): (p: Grid)
    requires forall i :: 0 <= i < |z| ==> |z[i]| >= 1
    ensures |p| == |z| && forall i :: 0 <= i < |z| ==> p[i] == Plateau(z[i])
  {
    seq(|z|, i requires 0 <= i < |z| => Plateau(z[i]))
  }

  /** The affine inversion of the z axis. */
  function Invert(v: real): (z: real)
    ensures K - z / S == v
    ensures z > 0.0 <==> v < K
  {
    (K - v) * S
  }

  /** The AFR a plotted height stands for. */
  function Revert(z: real): (v: real) {
    K - z / S
  }

  lemma RevertInvert(v: real)
    ensures Revert(Invert(v)) == v
  {
  }

  lemma InvertRevert(z: real)
    ensures Invert(Revert(z)) == z
  {
  }

  /** A richer (lower) AFR is plotted strictly higher. */
  lemma InvertStrictlyDecreasing(v: real, w: real)
    ensures v < w <==> Invert(v) > Invert(w)
  {
  }

  lemma InvertCalibration()
    ensures Invert(12.0) == 4.785
    ensures Invert(14.5) == 3.96
  {
  }

  /** Invert applied to every cell. */
  function InvertAll(z: Grid): (w: Grid)
    ensures |w| == |z|
    ensures forall i :: 0 <= i < |z| ==> |w[i]| == |z[i]|
    ensures forall i, j :: 0 <= i < |z| && 0 <= j < |z[i]| ==> w[i][j] == Invert(z[i][j])
  {
    seq(|z|, i requires 0 <= i < |z| => seq(|z[i]|, j requires 0 <= j < |z[i]| => Invert(z[i][j])))
  }

  /** The surface tensor and the figures the z axis range is built from. */
  datatype SurfaceData = SurfaceData(z: Grid, minZ: real, maxZ: real, zPadding: real)

  /** The range of the z axis, `[minZ - zPadding, maxZ + zPadding]`. */
  function ZAxisRange(s: SurfaceData): (r: (real, real))
    ensures s.zPadding >= 0.0 ==> r.0 <= s.minZ && s.maxZ <= r.1
    ensures r.1 - r.0 == (s.maxZ - s.minZ) + 2.0 * s.zPadding
  {
    (s.minZ - s.zPadding, s.maxZ + s.zPadding)
  }

  /** The surface a grid is drawn as. Cell `j` of row `i` holds the inverted
      AFR of throttle column `j - 3`, clamped to the first and last column. */
  function SurfaceOf(data: Grid): (s: SurfaceData)
    requires HasDataColumn(data)
    ensures |s.z| == |data|
    ensures forall i :: 0 <= i < |data| ==> |s.z[i]| == |data[i]| - 1 + 2 * PlateauWidth
    ensures forall i, j :: 0 <= i < |data| && 0 <= j <= PlateauWidth ==> s.z[i][j] == Invert(data[i][1])
    ensures forall i, j :: 0 <= i < |data| && PlateauWidth <= j < |data[i]| - 1 + PlateauWidth ==>
      s.z[i][j] == Invert(data[i][j - PlateauWidth + 1])
    ensures forall i, j :: 0 <= i < |data| && |data[i]| + PlateauWidth - 2 <= j < |s.z[i]| ==>
      s.z[i][j] == Invert(data[i][|data[i]| - 1])
    ensures s.zPadding == (s.maxZ - s.minZ) * PaddingShare
  {
    var raw := ZData(data);
    var z := InvertAll(WithPlateaus(raw));
    assert |z[0]| > 0;
    var all := Flat(z);
    var minZ, maxZ := MinOf(all), MaxOf(all);
    SurfaceData(z, minZ, maxZ, (maxZ - minZ) * PaddingShare)
  }

  /** minZ and maxZ bound every height, the padding is not negative, and the
      z axis range therefore shows every cell of the surface. */
  lemma SurfaceBounds(data: Grid)
    requires HasDataColumn(data)
    ensures var s := SurfaceOf(data);
      && s.zPadding >= 0.0
      && (forall i, j :: 0 <= i < |s.z| && 0 <= j < |s.z[i]| ==> s.minZ <= s.z[i][j] <= s.maxZ)
      && (forall i, j :: 0 <= i < |s.z| && 0 <= j < |s.z[i]| ==>
            ZAxisRange(s).0 <= s.z[i][j] <= ZAxisRange(s).1)
  {
    var s := SurfaceOf(data);
    forall i, j | 0 <= i < |s.z| && 0 <= j < |s.z[i]|
      ensures s.minZ <= s.z[i][j] <= s.maxZ
    {
      FlatHas(s.z, i, j);
    }
    assert s.minZ <= s.z[0][0] <= s.maxZ;
  }

  /** minZ and maxZ are themselves heights of the surface. */
  lemma SurfaceExtremesAttained(data: Grid)
    requires HasDataColumn(data)
    ensures var s := SurfaceOf(data);
      (exists i, j :: 0 <= i < |s.z| && 0 <= j < |s.z[i]| && s.z[i][j] == s.minZ) &&
      (exists i, j :: 0 <= i < |s.z| && 0 <= j < |s.z[i]| && s.z[i][j] == s.maxZ)
  {
    var s := SurfaceOf(data);
    FlatFrom(s.z, s.minZ);
    FlatFrom(s.z, s.maxZ);
  }

  /** Every plotted height is the inversion of an AFR value of the grid. */
  lemma HeightFromRaw(data: Grid, x: real)
    requires HasDataColumn(data)
    requires x in Flat(SurfaceOf(data).z)
    ensures exists y :: y in Flat(ZData(data)) && x == Invert(y)
  {
    var z, zd := SurfaceOf(data).z, ZData(data);
    assert z == InvertAll(WithPlateaus(zd));
    FlatFrom(z, x);
    var i, j :| 0 <= i < |z| && 0 <= j < |z[i]| && z[i][j] == x;
    PlateauSameValues(zd[i]);
    assert Plateau(zd[i])[j] in zd[i];
    var k :| 0 <= k < |zd[i]| && zd[i][k] == Plateau(zd[i])[j];
    FlatHas(zd, i, k);
  }

  /** Every AFR value of the grid is plotted, inverted. */
  lemma RawPlotted(data: Grid, y: real)
    requires HasDataColumn(data)
    requires y in Flat(ZData(data))
    ensures Invert(y) in Flat(SurfaceOf(data).z)
  {
    var z, zd := SurfaceOf(data).z, ZData(data);
    assert z == InvertAll(WithPlateaus(zd));
    FlatFrom(zd, y);
    var i, k :| 0 <= i < |zd| && 0 <= k < |zd[i]| && zd[i][k] == y;
    PlateauSameValues(zd[i]);
    var p := Plateau(zd[i]);
    assert y in p;
    var j :| 0 <= j < |p| && p[j] == y;
    FlatHas(z, i, j);
  }

  /** The lowest height is the inversion of the leanest AFR of the grid, the
      highest that of the richest: neither the plateaus nor the inversion
      bring in an extreme of their own. */
  lemma SurfaceRangeFromRaw(data: Grid)
    requires HasDataColumn(data)
    ensures var raw := Flat(ZData(data));
      |raw| > 0 &&
      SurfaceOf(data).minZ == Invert(MaxOf(raw)) &&
      SurfaceOf(data).maxZ == Invert(MinOf(raw))
  {
    var s, zd := SurfaceOf(data), ZData(data);
    assert |zd[0]| > 0;
    var raw := Flat(zd);
    var lean, rich := MaxOf(raw), MinOf(raw);
    RawPlotted(data, lean);
    RawPlotted(data, rich);
    HeightFromRaw(data, s.minZ);
    HeightFromRaw(data, s.maxZ);
    var y1 :| y1 in raw && s.minZ == Invert(y1);
    var y2 :| y2 in raw && s.maxZ == Invert(y2);
    InvertStrictlyDecreasing(y1, lean);
    InvertStrictlyDecreasing(rich, y2);
  }

  /** The x axis extended by the same plateaus as the rows has the width of
      every surface row, when the throttle axis has one value per AFR column. */
  lemma AxisMatchesSurfaceWidth(data: Grid, throttle: Row)
    requires HasDataColumn(data) && Rectangular(data)
    requires |throttle| == |data[0]| - 1
    ensures forall i :: 0 <= i < |data| ==> |Plateau(throttle)| == |SurfaceOf(data).z[i]|
  {
  }

  /** One row at 1000 rpm with 13.0 and 14.0: three copies of each end value. */
  lemma PlateauExample()
    ensures Plateau(ZData([[1000.0, 13.0, 14.0]])[0]) == [13.0, 13.0, 13.0, 13.0, 14.0, 14.0, 14.0, 14.0]
  {
  }
}
