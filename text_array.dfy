/** `insert_text_instances`, the array text placer shared by the three
    coordinate scripts: one text cell per call, then one instance of it per
    point of a rows-by-columns grid, appended to the top cell row by row. */
module TextArray {
  import opened LayoutDb

  /** One call's geometry, in grid units: the converted origin (`abs_x`, `abs_y`),
      the column and row counts and the two step vectors. */
  datatype ArraySpec = ArraySpec(origin: Point, columns: int, rows: int, columnVector: Point, rowVector: Point)

  /** The number of iterations of Ruby's exclusive range `0...n`: none when n <= 0. */
  function Count(n: int): nat {
    if n < 0 then 0 else n
  }

  /** The grid point of row r and column c: the column term is added, the row term subtracted. */
  function GridPoint(spec: ArraySpec, r: int, c: int): Point {
    Point(spec.origin.x + spec.columnVector.x * c - spec.rowVector.x * r,
          spec.origin.y + spec.columnVector.y * c - spec.rowVector.y * r)
  }

  /** The points of columns 0 .. c-1 of row r, in the order the inner loop visits them. */
  function RowPositions(spec: ArraySpec, r: int, c: nat): seq<Point> {
    if c == 0 then [] else RowPositions(spec, r, c - 1) + [GridPoint(spec, r, c - 1)]
  }

  /** The points of rows 0 .. r-1, every column, in the order the two loops visit them. */
  function Positions(spec: ArraySpec, r: nat): seq<Point> {
    if r == 0 then [] else Positions(spec, r - 1) + RowPositions(spec, r - 1, Count(spec.columns))
  }

  /** Every point one call places, in insertion order. */
  function ArrayPositions(spec: ArraySpec): seq<Point> {
    Positions(spec, Count(spec.rows))
  }

  /** The single-placement instances of cell `id` at the points `ps`, in order. */
  function Placed(id: CellId, ps: seq<Point>): seq<Inst> {
    seq(|ps|, k requires 0 <= k < |ps| => Inst(id, [ps[k]]))
  }

  lemma PlacedAppend(id: CellId, a: seq<Point>, b: seq<Point>)
    ensures Placed(id, a + b) == Placed(id, a) + Placed(id, b)
  {
  }

  lemma {:induction false} RowPositionsAt(spec: ArraySpec, r: int, n: nat, c: nat)
    requires c < n
    ensures |RowPositions(spec, r, n)| == n
    ensures RowPositions(spec, r, n)[c] == GridPoint(spec, r, c)
  {
    if c < n - 1 {
      RowPositionsAt(spec, r, n - 1, c);
    } else {
      RowPositionsLength(spec, r, n - 1);
    }
  }

  lemma {:induction false} RowPositionsLength(spec: ArraySpec, r: int, n: nat)
    ensures |RowPositions(spec, r, n)| == n
  {
    if n > 0 {
      RowPositionsLength(spec, r, n - 1);
    }
  }

  lemma {:induction false} PositionsLength(spec: ArraySpec, n: nat)
    ensures |Positions(spec, n)| == n * Count(spec.columns)
  {
    if n > 0 {
      PositionsLength(spec, n - 1);
      RowPositionsLength(spec, n - 1, Count(spec.columns));
      assert (n - 1) * Count(spec.columns) + Count(spec.columns) == n * Count(spec.columns);
    }
  }

  lemma {:induction false} PositionsAt(spec: ArraySpec, n: nat, r: nat, c: nat)
    requires r < n && c < Count(spec.columns)
    ensures r * Count(spec.columns) + c < |Positions(spec, n)|
    ensures Positions(spec, n)[r * Count(spec.columns) + c] == GridPoint(spec, r, c)
  {
    var w := Count(spec.columns);
    PositionsLength(spec, n);
    PositionsLength(spec, n - 1);
    RowPositionsAt(spec, n - 1, w, c);
    if r < n - 1 {
      PositionsAt(spec, n - 1, r, c);
    } else {
      assert r * w == (n - 1) * w;
    }
  }

  /** A call places exactly rows*columns instances; a zero or negative dimension places none. */
  lemma ArrayPositionsCount(spec: ArraySpec)
    ensures |ArrayPositions(spec)| == Count(spec.rows) * Count(spec.columns)
    ensures spec.rows <= 0 || spec.columns <= 0 ==> ArrayPositions(spec) == []
  {
    PositionsLength(spec, Count(spec.rows));
  }

  /** The instance at row-major index r*columns + c sits at the grid point of row r, column c. */
  lemma ArrayPositionAt(spec: ArraySpec, r: nat, c: nat)
    requires r < Count(spec.rows) && c < Count(spec.columns)
    ensures r * Count(spec.columns) + c < |ArrayPositions(spec)|
    ensures ArrayPositions(spec)[r * Count(spec.columns) + c] == GridPoint(spec, r, c)
  {
    PositionsAt(spec, Count(spec.rows), r, c);
  }

  /** The first instance sits exactly at the converted origin. */
  lemma ArrayStartsAtOrigin(spec: ArraySpec)
    requires spec.rows > 0 && spec.columns > 0
    ensures |ArrayPositions(spec)| > 0 && ArrayPositions(spec)[0] == spec.origin
  {
    ArrayPositionAt(spec, 0, 0);
  }

  /** One column with row vector (0, s): a vertical strip whose y falls by s per row. */
  lemma VerticalStrip(spec: ArraySpec, r: nat)
    requires spec.columns == 1 && spec.rowVector.x == 0 && r < Count(spec.rows)
    ensures r < |ArrayPositions(spec)|
    ensures ArrayPositions(spec)[r] == Point(spec.origin.x, spec.origin.y - spec.rowVector.y * r)
  {
    ArrayPositionAt(spec, r, 0);
  }

  /** One row with column vector (s, 0): a horizontal bar whose x grows by s per column. */
  lemma HorizontalBar(spec: ArraySpec, c: nat)
    requires spec.rows == 1 && spec.columnVector.y == 0 && c < Count(spec.columns)
    ensures c < |ArrayPositions(spec)|
    ensures ArrayPositions(spec)[c] == Point(spec.origin.x + spec.columnVector.x * c, spec.origin.y)
  {
    ArrayPositionAt(spec, 0, c);
  }

  /** With a zero row vector every row repeats the first one point for point. */
  lemma ZeroRowVectorRepeatsRow(spec: ArraySpec, r: nat, c: nat)
    requires spec.rowVector == Point(0, 0) && r < Count(spec.rows) && c < Count(spec.columns)
    ensures r * Count(spec.columns) + c < |ArrayPositions(spec)|
    ensures ArrayPositions(spec)[r * Count(spec.columns) + c] == ArrayPositions(spec)[c]
  {
    ArrayPositionAt(spec, r, c);
    ArrayPositionAt(spec, 0, c);
  }

  /** `insert_text_instances`: creates one text cell, then appends one instance of
      it per grid point, rows outer and columns inner. Nothing else changes. */
  method InsertTextInstances(ly: Layout, spec: ArraySpec, style: LabelStyle)
    requires ly.Valid()
    modifies ly
    ensures ly.Valid()
    ensures ly.cells == old(ly.cells) + [TextLabel(style)]
    ensures ly.top == old(ly.top) + Placed(|old(ly.cells)|, ArrayPositions(spec))
  {
    var cell := ly.CreateTextCell(style);
    var r := 0;
    while r < spec.rows
      invariant 0 <= r <= Count(spec.rows)
      invariant ly.Valid() && ly.cells == old(ly.cells) + [TextLabel(style)]
      invariant ly.top == old(ly.top) + Placed(cell, Positions(spec, r))
    {
      var c := 0;
      while c < spec.columns
        invariant 0 <= c <= Count(spec.columns)
        invariant ly.Valid() && ly.cells == old(ly.cells) + [TextLabel(style)]
        invariant ly.top == old(ly.top) + Placed(cell, Positions(spec, r) + RowPositions(spec, r, c))
      {
        var x := spec.origin.x + spec.columnVector.x * c - spec.rowVector.x * r;
        var y := spec.origin.y + spec.columnVector.y * c - spec.rowVector.y * r;
        ly.Insert(Inst(cell, [Point(x, y)]));
        PlacedAppend(cell, Positions(spec, r) + RowPositions(spec, r, c), [Point(x, y)]);
        c := c + 1;
      }
      r := r + 1;
    }
  }

  /** The instances a whole parameter table appends when entry i uses cell base + i. */
  function TablePlacements(base: CellId, table: seq<ArraySpec>): seq<Inst> {
    if table == [] then []
    else TablePlacements(base, table[..|table| - 1])
         + Placed(base + |table| - 1, ArrayPositions(table[|table| - 1]))
  }

  /** The sum of rows*columns over a table. */
  function TableSize(table: seq<ArraySpec>): nat {
    if table == [] then 0
    else TableSize(table[..|table| - 1]) + Count(table[|table| - 1].rows) * Count(table[|table| - 1].columns)
  }

  /** A table appends the sum of its entries' rows*columns instances. */
  lemma {:induction false} TablePlacementsCount(base: CellId, table: seq<ArraySpec>)
    ensures |TablePlacements(base, table)| == TableSize(table)
  {
    if table != [] {
      TablePlacementsCount(base, table[..|table| - 1]);
      ArrayPositionsCount(table[|table| - 1]);
    }
  }

  /** Every instance a table appends is a single placement of one of the table's own text cells. */
  lemma {:induction false} TablePlacementsCells(base: CellId, table: seq<ArraySpec>, k: nat)
    requires k < |TablePlacements(base, table)|
    ensures base <= TablePlacements(base, table)[k].cell < base + |table|
    ensures |TablePlacements(base, table)[k].disps| == 1
  {
    if table != [] {
      var front := TablePlacements(base, table[..|table| - 1]);
      if k < |front| {
        TablePlacementsCells(base, table[..|table| - 1], k);
      }
    }
  }

  lemma {:induction false} TableSizeAppend(a: seq<ArraySpec>, b: seq<ArraySpec>)
    ensures TableSize(a + b) == TableSize(a) + TableSize(b)
  {
    if b != [] {
      assert (a + b)[..|a + b| - 1] == a + b[..|b| - 1];
      TableSizeAppend(a, b[..|b| - 1]);
    } else {
      assert a + b == a;
    }
  }

  /** A table whose entries all have the same shape rows x columns appends |table| * rows * columns instances. */
  lemma {:induction false} TableSizeUniform(table: seq<ArraySpec>, rows: nat, columns: nat)
    requires forall i :: 0 <= i < |table| ==> table[i].rows == rows && table[i].columns == columns
    ensures TableSize(table) == |table| * (rows * columns)
  {
    if table != [] {
      TableSizeUniform(table[..|table| - 1], rows, columns);
    }
  }

  /** The table-driven loop of a coordinate script (`insert_params.each`): one
      `insert_text_instances` call per entry, in table order, all with one style. */
  method InsertTable(ly: Layout, table: seq<ArraySpec>, style: LabelStyle)
    requires ly.Valid()
    modifies ly
    ensures ly.Valid()
    ensures ly.cells == old(ly.cells) + seq(|table|, _ => TextLabel(style))
    ensures ly.top == old(ly.top) + TablePlacements(|old(ly.cells)|, table)
  {
    var i := 0;
    while i < |table|
      invariant 0 <= i <= |table|
      invariant ly.Valid()
      invariant ly.cells == old(ly.cells) + seq(i, _ => TextLabel(style))
      invariant ly.top == old(ly.top) + TablePlacements(|old(ly.cells)|, table[..i])
    {
      InsertTextInstances(ly, table[i], style);
      assert table[..i + 1][..i] == table[..i];
      i := i + 1;
    }
    assert table[..i] == table;
  }
}
