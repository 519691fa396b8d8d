/**
 * Nonogram generation: the dimension check and the run-length hints of every
 * row and every column of a 0/1 grid (lib/puzzleGenerator.js, generateNonogram).
 *
 * A cell is a `bool` (true = filled, the source's `1`). The random fill is not
 * modelled: the grid is built from a `fill` function given by the caller.
 */
module PuzzleGenerator {
  import opened Wrappers
  import opened LineRuns

  /** Smallest and largest accepted width and height. */
  const MIN_SIZE: int := 5
  const MAX_SIZE: int := 50

  type Grid = seq<seq<bool>>

  /* ---------------------------------------------------------------------- */
  /* Grids                                                                  */
  /* ---------------------------------------------------------------------- */

  /** Column `x` of a grid, read top to bottom. */
  function Column(grid: Grid, x: nat): (col: Line)
    requires forall y :: 0 <= y < |grid| ==> x < |grid[y]|
    ensures |col| == |grid|
    ensures forall y :: 0 <= y < |grid| ==> col[y] == grid[y][x]
  {
    seq(|grid|, y requires 0 <= y < |grid| => grid[y][x])
  }

  /** A grid of `height` rows of `width` cells each. */
  predicate IsGrid(grid: Grid, width: nat, height: nat)
  {
    |grid| == height && forall y :: 0 <= y < height ==> |grid[y]| == width
  }

  /** The grid drawn by the caller-supplied `fill` (which stands for the
      source's `Math.random() < fillProbability` at row `y`, column `x`). */
  function FillGrid(width: nat, height: nat, fill: (int, int) -> bool): (grid: Grid)
    ensures IsGrid(grid, width, height)
    ensures forall y, x :: 0 <= y < height && 0 <= x < width ==> grid[y][x] == fill(y, x)
  {
    seq(height, y => seq(width, x => fill(y, x)))
  }

  /* ---------------------------------------------------------------------- */
  /* The hint loops                                                         */
  /* ---------------------------------------------------------------------- */

  /** The hints of one row (lib/puzzleGenerator.js lines 13-20): count the
      current run, flush it at an empty cell and at the end of the row. */
  method RowHints(row: Line) returns (hints: seq<nat>)
    ensures hints == LineHints(row)
  {
    hints := [];
    var count: nat := 0;
    var i := 0;
    ScanStart(row);
    while i < |row|
      invariant 0 <= i <= |row|
      invariant Scanned(row, i, count, hints)
    {
      ghost var i0, count0, hints0 := i, count, hints;
      if row[i] {
        count := count + 1;
      } else if count > 0 {
        hints := hints + [count];
        count := 0;
      }
      i := i + 1;
      ScanStep(row, i0, i, row[i0], count0, hints0, count, hints);
    }
    ghost var scanned := hints;
    if count > 0 {
      hints := hints + [count];
    }
    if hints == [] {
      hints := [0];
    }
    ScanDone(row, count, scanned, hints);
  }

  /** The hints of column `x` (lib/puzzleGenerator.js lines 25-32): the same
      loop, reading `grid[y][x]` for y from top to bottom. */
  method ColumnHints(grid: Grid, x: nat) returns (hints: seq<nat>)
    requires forall y :: 0 <= y < |grid| ==> x < |grid[y]|
    ensures hints == LineHints(Column(grid, x))
  {
    hints := [];
    var count: nat := 0;
    var y := 0;
    ScanStart(Column(grid, x));
    while y < |grid|
      invariant 0 <= y <= |grid|
      invariant Scanned(Column(grid, x), y, count, hints)
    {
      ghost var y0, count0, hints0 := y, count, hints;
      if grid[y][x] {
        count := count + 1;
      } else if count > 0 {
        hints := hints + [count];
        count := 0;
      }
      y := y + 1;
      ScanStep(Column(grid, x), y0, y, grid[y0][x], count0, hints0, count, hints);
    }
    ghost var scanned := hints;
    if count > 0 {
      hints := hints + [count];
    }
    if hints == [] {
      hints := [0];
    }
    ScanDone(Column(grid, x), count, scanned, hints);
  }

  /* ---------------------------------------------------------------------- */
  /* generateNonogram                                                       */
  /* ---------------------------------------------------------------------- */

  datatype Puzzle = Puzzle(grid: Grid, rowHints: seq<seq<nat>>, colHints: seq<seq<nat>>)

  datatype GenerateError = InvalidDimensions

  /** Accepted dimensions: both in MIN_SIZE..MAX_SIZE. */
  predicate ValidDimensions(width: int, height: int)
  {
    MIN_SIZE <= width <= MAX_SIZE && MIN_SIZE <= height <= MAX_SIZE
  }

  /** `p` holds `grid` with one hint list per row and one per column, each
      the hints of that line. */
  predicate HintsOf(p: Puzzle, grid: Grid, width: nat)
    requires forall y :: 0 <= y < |grid| ==> |grid[y]| == width
  {
    && p.grid == grid
    && |p.rowHints| == |grid|
    && (forall y :: 0 <= y < |grid| ==> p.rowHints[y] == LineHints(grid[y]))
    && |p.colHints| == width
    && (forall x :: 0 <= x < width ==> p.colHints[x] == LineHints(Column(grid, x)))
  }

  /** `grid.map(...)` (lib/puzzleGenerator.js lines 12-21): the hints of
      every row, in order. */
  method AllRowHints(grid: Grid) returns (rowHints: seq<seq<nat>>)
    ensures |rowHints| == |grid|
    ensures forall y :: 0 <= y < |grid| ==> rowHints[y] == LineHints(grid[y])
  {
    rowHints := [];
    var y := 0;
    while y < |grid|
      invariant 0 <= y <= |grid|
      invariant |rowHints| == y
      invariant forall k :: 0 <= k < y ==> rowHints[k] == LineHints(grid[k])
    {
      var hints := RowHints(grid[y]);
      rowHints := rowHints + [hints];
      y := y + 1;
    }
  }

  /** The column loop (lib/puzzleGenerator.js lines 23-33): the hints of
      every column x < width, in order. */
  method AllColumnHints(grid: Grid, width: nat) returns (colHints: seq<seq<nat>>)
    requires forall y :: 0 <= y < |grid| ==> |grid[y]| == width
    ensures |colHints| == width
    ensures forall x :: 0 <= x < width ==> colHints[x] == LineHints(Column(grid, x))
  {
    colHints := [];
    var x := 0;
    while x < width
      invariant 0 <= x <= width
      invariant |colHints| == x
      invariant forall k :: 0 <= k < x ==> colHints[k] == LineHints(Column(grid, k))
    {
      var hints := ColumnHints(grid, x);
      colHints := colHints + [hints];
      x := x + 1;
    }
  }

  /** generateNonogram (lib/puzzleGenerator.js lines 3-36): rejects a width
      or height outside 5..50, otherwise builds the grid and computes the
      row hints and then the column hints. */
  method GenerateNonogram(width: int, height: int, fill: (int, int) -> bool)
    returns (r: Result<Puzzle, GenerateError>)
    ensures r.Failure? <==> !ValidDimensions(width, height)
    ensures r.Failure? ==> r.error == InvalidDimensions
    ensures r.Success? ==> HintsOf(r.value, FillGrid(width, height, fill), width)
  {
    if width < MIN_SIZE || height < MIN_SIZE || width > MAX_SIZE || height > MAX_SIZE {
      return Failure(InvalidDimensions);
    }
    var grid := FillGrid(width, height, fill);
    var rowHints := AllRowHints(grid);
    var colHints := AllColumnHints(grid, width);
    return Success(Puzzle(grid, rowHints, colHints));
  }

  /* ---------------------------------------------------------------------- */
  /* Row and column hints agree                                             */
  /* ---------------------------------------------------------------------- */

  /** Sum of all the hints in a list of hint lists. */
  function HintTotal(hints: seq<seq<nat>>): nat
  {
    if hints == [] then 0 else HintTotal(hints[..|hints| - 1]) + Sum(hints[|hints| - 1])
  }

  /** Filled cells of the grid, counted row by row. */
  function RowsTotal(grid: Grid): nat
  {
    if grid == [] then 0 else RowsTotal(grid[..|grid| - 1]) + Count(grid[|grid| - 1])
  }

  /** Filled cells of the first `k` columns, counted column by column. */
  function ColumnsTotal(grid: Grid, k: nat): nat
    requires forall y :: 0 <= y < |grid| ==> k <= |grid[y]|
  {
    if k == 0 then 0 else ColumnsTotal(grid, k - 1) + Count(Column(grid, k - 1))
  }

  /** One more cell at the end of a line. */
  lemma CountSnoc(line: Line, b: bool)
    ensures Count(line + [b]) == Count(line) + if b then 1 else 0
  {
    CountSplit(line + [b], |line|);
    assert (line + [b])[..|line|] == line;
    assert (line + [b])[|line|..] == [b];
  }

  /** Without rows there is nothing in any column. */
  lemma {:induction false} ColumnsTotalEmpty(k: nat)
    ensures ColumnsTotal([], k) == 0
  {
    if k > 0 {
      ColumnsTotalEmpty(k - 1);
    }
  }

  /** The first `k` columns of a grid with one more row at the bottom hold
      the filled cells among the first `k` cells of that row in addition. */
  lemma {:induction false} ColumnsTotalLastRow(grid: Grid, k: nat)
    requires grid != []
    requires forall y :: 0 <= y < |grid| ==> k <= |grid[y]|
    ensures ColumnsTotal(grid, k) == ColumnsTotal(grid[..|grid| - 1], k) + Count(grid[|grid| - 1][..k])
  {
    var n := |grid| - 1;
    var last := grid[n];
    if k == 0 {
      assert last[..0] == [];
    } else {
      ColumnsTotalLastRow(grid, k - 1);
      assert Column(grid, k - 1) == Column(grid[..n], k - 1) + [last[k - 1]];
      CountSnoc(Column(grid[..n], k - 1), last[k - 1]);
      assert last[..k] == last[..k - 1] + [last[k - 1]];
      CountSnoc(last[..k - 1], last[k - 1]);
    }
  }

  /** Counting the filled cells by rows or by columns gives the same total. */
  lemma {:induction false} RowsTotalIsColumnsTotal(grid: Grid, width: nat)
    requires forall y :: 0 <= y < |grid| ==> |grid[y]| == width
    ensures RowsTotal(grid) == ColumnsTotal(grid, width)
    decreases |grid|
  {
    if grid == [] {
      ColumnsTotalEmpty(width);
    } else {
      var n := |grid| - 1;
      RowsTotalIsColumnsTotal(grid[..n], width);
      ColumnsTotalLastRow(grid, width);
      assert grid[n][..width] == grid[n];
    }
  }

  /** Row hint lists that each add up to their row's filled cells add up
      to the filled cells of the grid. */
  lemma {:induction false} RowHintTotal(rowHints: seq<seq<nat>>, grid: Grid)
    requires |rowHints| == |grid|
    requires forall y :: 0 <= y < |grid| ==> Sum(rowHints[y]) == Count(grid[y])
    ensures HintTotal(rowHints) == RowsTotal(grid)
    decreases |grid|
  {
    if grid != [] {
      var n := |grid| - 1;
      var hs, g := rowHints[..n], grid[..n];
      assert forall y :: 0 <= y < n ==> hs[y] == rowHints[y] && g[y] == grid[y];
      RowHintTotal(hs, g);
    }
  }

  /** The first `k` column hints of a grid add up to the filled cells of its
      first `k` columns. */
  lemma {:induction false} ColumnHintTotal(colHints: seq<seq<nat>>, grid: Grid, k: nat)
    requires k <= |colHints|
    requires forall y :: 0 <= y < |grid| ==> k <= |grid[y]|
    requires forall x :: 0 <= x < k ==> colHints[x] == LineHints(Column(grid, x))
    ensures HintTotal(colHints[..k]) == ColumnsTotal(grid, k)
  {
    if k > 0 {
      ColumnHintTotal(colHints, grid, k - 1);
      assert colHints[..k][..k - 1] == colHints[..k - 1];
    }
  }

  /** In every generated puzzle the row hints and the column hints add up to
      the same total: the number of filled cells. */
  lemma HintTotalsAgree(p: Puzzle, grid: Grid, width: nat)
    requires forall y :: 0 <= y < |grid| ==> |grid[y]| == width
    requires HintsOf(p, grid, width)
    ensures HintTotal(p.rowHints) == HintTotal(p.colHints) == RowsTotal(grid)
  {
    assert forall y :: 0 <= y < |grid| ==> Sum(p.rowHints[y]) == Count(grid[y]);
    RowHintTotal(p.rowHints, grid);
    ColumnHintTotal(p.colHints, grid, width);
    assert p.colHints[..width] == p.colHints;
    RowsTotalIsColumnsTotal(grid, width);
  }

}
