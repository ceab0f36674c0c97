/** The table view (renderTable): one table row per grid row, the first cell
    the RPM label, every other cell classified, either by its absolute AFR or,
    in delta mode, by the difference of the two compared grids at that cell. */
module Table {
  import opened Grids
  import opened Classify

  /** A rendered cell: the label column carries no class. */
  datatype Cell =
    | RpmCell(rpm: real)
    | AfrCell(afr: real, afrClass: AfrBucket)
    | DeltaCell(delta: real, deltaClass: DeltaBucket)

  /** 'normal' renders the grid's own values; 'delta' renders A - B. */
  datatype TableMode = Normal | Delta(dataA: Grid, dataB: Grid)

  /** In delta mode both compared grids have every cell the rendered grid has. */
  predicate CanRender(data: Grid, mode: TableMode) {
    mode.Delta? ==> Covers(data, mode.dataA) && Covers(data, mode.dataB)
  }

  /** The rows of the table body, built row by row and cell by cell. */
  method RenderTable(data: Grid, mode: TableMode) returns (body: seq<seq<Cell>>)
    requires CanRender(data, mode)
    ensures |body| == |data|
    ensures forall r :: 0 <= r < |data| ==> |body[r]| == |data[r]|
    ensures forall r :: 0 <= r < |data| && |data[r]| > 0 ==> body[r][0] == RpmCell(data[r][0])
    ensures mode.Normal? ==>
      forall r, c :: 0 <= r < |data| && 1 <= c < |data[r]| ==>
        body[r][c] == AfrCell(data[r][c], ColorClass(data[r][c]))
    ensures mode.Delta? ==>
      forall r, c :: 0 <= r < |data| && 1 <= c < |data[r]| ==>
        body[r][c] == DeltaCell(mode.dataA[r][c] - mode.dataB[r][c],
                                DeltaColorClass(mode.dataA[r][c] - mode.dataB[r][c]))
  {
    body := [];
    var rowIndex := 0;
    while rowIndex < |data|
      invariant 0 <= rowIndex <= |data|
      invariant |body| == rowIndex
      invariant forall r :: 0 <= r < rowIndex ==> RowRendered(data, mode, r, body[r])
    {
      var row := data[rowIndex];
      var tr: seq<Cell> := [];
      var index := 0;
      while index < |row|
        invariant 0 <= index <= |row|
        invariant |tr| == index
        invariant forall c :: 0 <= c < index ==> tr[c] == CellAt(data, mode, rowIndex, c)
      {
        var td: Cell;
        if index == 0 {
          td := RpmCell(row[index]);
        } else if mode.Delta? {
          var delta := mode.dataA[rowIndex][index] - mode.dataB[rowIndex][index];
          td := DeltaCell(delta, DeltaColorClass(delta));
        } else {
          td := AfrCell(row[index], ColorClass(row[index]));
        }
        tr := tr + [td];
        index := index + 1;
      }
      body := body + [tr];
      rowIndex := rowIndex + 1;
    }
  }

  /** What cell `c` of row `r` must be; states the loop invariants only. */
  ghost function CellAt(data: Grid, mode: TableMode, r: nat, c: nat): Cell
    requires CanRender(data, mode) && r < |data| && c < |data[r]|
  {
    if c == 0 then RpmCell(data[r][0])
    else if mode.Delta? then
      DeltaCell(mode.dataA[r][c] - mode.dataB[r][c], DeltaColorClass(mode.dataA[r][c] - mode.dataB[r][c]))
    else AfrCell(data[r][c], ColorClass(data[r][c]))
  }

  ghost predicate RowRendered(data: Grid, mode: TableMode, r: nat, tr: seq<Cell>)
    requires CanRender(data, mode) && r < |data|
  {
    |tr| == |data[r]| && forall c :: 0 <= c < |tr| ==> tr[c] == CellAt(data, mode, r, c)
  }

  /** The compare view: grid A rendered in delta mode against grid B. The
      labels are A's, each value cell classifies A - B, and comparing a grid
      with itself classifies every value cell as exact zero. */
  method RenderCompare(dataA: Grid, dataB: Grid) returns (body: seq<seq<Cell>>)
    requires Covers(dataA, dataB)
    ensures |body| == |dataA|
    ensures forall r :: 0 <= r < |dataA| ==> |body[r]| == |dataA[r]|
    ensures forall r :: 0 <= r < |dataA| && |dataA[r]| > 0 ==> body[r][0] == RpmCell(dataA[r][0])
    ensures forall r, c :: 0 <= r < |dataA| && 1 <= c < |dataA[r]| ==>
      body[r][c].DeltaCell? && body[r][c].delta == dataA[r][c] - dataB[r][c] &&
      body[r][c].deltaClass == DeltaColorClass(dataA[r][c] - dataB[r][c])
    ensures dataA == dataB ==>
      forall r, c :: 0 <= r < |dataA| && 1 <= c < |dataA[r]| ==> body[r][c] == DeltaCell(0.0, ZeroExact)
  {
    body := RenderTable(dataA, Delta(dataA, dataB));
  }
}
