/**
 * Layout of the rendered nonogram (lib/puzzleGenerator.js,
 * renderNonogramPuzzle, generateGridLines, generateRowHints,
 * generateColHints): the canvas size, the grid lines and the positions of the
 * hint numbers. Coordinates are exact reals; the source's SVG text and its
 * rasterisation are not modelled, only the coordinates written into them.
 */
module PuzzleRender {

  /** Width (for a row) or height (for a column) given to one hint number, as
      a share of the cell size: the source's factor 0.7. */
  const HINT_SHARE: real := 0.7

  /** The room taken by `n` hint numbers: `n * cellSize * 0.7`, exactly seven
      tenths of `n` cells, never negative for a non-negative cell size. */
  function HintSpan(n: int, cellSize: int): (r: real)
    ensures 10.0 * r == (7 * n * cellSize) as real
    ensures n >= 0 && cellSize >= 0 ==> r >= 0.0
  {
    n as real * cellSize as real * HINT_SHARE
  }

  /** Smallest whole number not below `x` (`Math.ceil`). */
  function Ceil(x: real): (n: int)
    ensures x <= n as real < x + 1.0
  {
    -((-x).Floor)
  }

  /** `Math.max(...hints.map(h => h.length), 1)`: the longest hint list,
      and at least 1. */
  function MaxHintLength(hints: seq<seq<nat>>): (m: nat)
    ensures m >= 1
    ensures forall i :: 0 <= i < |hints| ==> |hints[i]| <= m
    ensures m == 1 || exists i :: 0 <= i < |hints| && |hints[i]| == m
  {
    if hints == [] then 1
    else
      var rest := MaxHintLength(hints[1..]);
      assert forall i :: 1 <= i < |hints| ==> hints[i] == hints[1..][i - 1];
      if |hints[0]| > rest then |hints[0]| else rest
  }

  /** Total number of hint numbers in a list of hint lists. */
  function TotalHints(hints: seq<seq<nat>>): nat
  {
    if hints == [] then 0 else TotalHints(hints[..|hints| - 1]) + |hints[|hints| - 1]|
  }

  /* ---------------------------------------------------------------------- */
  /* Canvas size                                                            */
  /* ---------------------------------------------------------------------- */

  datatype Layout = Layout(
    gridWidth: nat,       // number of columns
    gridHeight: nat,      // number of rows
    hintAreaLeft: real,   // width of the left margin, holding the row hints
    hintAreaTop: real,    // height of the top margin, holding the column hints
    totalWidth: int,      // canvas width in whole pixels
    totalHeight: int)     // canvas height in whole pixels

  /** renderNonogramPuzzle's arithmetic (lib/puzzleGenerator.js lines 41-51). */
  function ComputeLayout(rowHints: seq<seq<nat>>, colHints: seq<seq<nat>>, cellSize: int): (l: Layout)
    ensures l.gridWidth == |colHints| && l.gridHeight == |rowHints|
    // the margins are as wide as the longest hint list needs, and at least one hint wide
    ensures l.hintAreaLeft == HintSpan(MaxHintLength(rowHints), cellSize)
    ensures l.hintAreaTop == HintSpan(MaxHintLength(colHints), cellSize)
    ensures cellSize >= 0 ==> HintSpan(1, cellSize) <= l.hintAreaLeft && HintSpan(1, cellSize) <= l.hintAreaTop
    ensures cellSize >= 0 ==> forall i :: 0 <= i < |rowHints| ==> HintSpan(|rowHints[i]|, cellSize) <= l.hintAreaLeft
    ensures cellSize >= 0 ==> forall i :: 0 <= i < |colHints| ==> HintSpan(|colHints[i]|, cellSize) <= l.hintAreaTop
    // the canvas is margin + grid, rounded up to a whole pixel
    ensures l.hintAreaLeft + (l.gridWidth * cellSize) as real <= l.totalWidth as real
                < l.hintAreaLeft + (l.gridWidth * cellSize) as real + 1.0
    ensures l.hintAreaTop + (l.gridHeight * cellSize) as real <= l.totalHeight as real
                < l.hintAreaTop + (l.gridHeight * cellSize) as real + 1.0
  {
    var gridWidth := |colHints|;
    var gridHeight := |rowHints|;
    var maxRow := MaxHintLength(rowHints);
    var maxCol := MaxHintLength(colHints);
    SpanMonotone(cellSize);
    var hintAreaLeft := HintSpan(maxRow, cellSize);
    var hintAreaTop := HintSpan(maxCol, cellSize);
    Layout(gridWidth, gridHeight, hintAreaLeft, hintAreaTop,
           Ceil(hintAreaLeft + (gridWidth * cellSize) as real),
           Ceil(hintAreaTop + (gridHeight * cellSize) as real))
  }

  /** More hints take more room (for a non-negative cell size). */
  lemma SpanMonotone(cellSize: int)
    ensures cellSize >= 0 ==> forall m, n :: m <= n ==> HintSpan(m, cellSize) <= HintSpan(n, cellSize)
    ensures cellSize > 0 ==> forall m, n :: m < n ==> HintSpan(m, cellSize) < HintSpan(n, cellSize)
  {
    var k := cellSize as real * HINT_SHARE;
    forall m: int, n: int | m <= n
      ensures cellSize >= 0 ==> HintSpan(m, cellSize) <= HintSpan(n, cellSize)
      ensures cellSize > 0 && m < n ==> HintSpan(m, cellSize) < HintSpan(n, cellSize)
    {
      assert HintSpan(n, cellSize) - HintSpan(m, cellSize) == (n - m) as real * k;
    }
  }

  /* ---------------------------------------------------------------------- */
  /* Grid lines                                                             */
  /* ---------------------------------------------------------------------- */

  /** A straight line from (x1, y1) to (x2, y2). */
  datatype Segment = Segment(x1: real, y1: real, x2: real, y2: real)

  /** The `i`-th vertical grid line: at `left + i * cellSize`, from the top of
      the grid to its bottom. */
  function VerticalLine(left: real, top: real, height: nat, cellSize: int, i: int): (s: Segment)
    ensures s.x1 == s.x2 && s.y2 - s.y1 == (height * cellSize) as real
  {
    var x := left + (i * cellSize) as real;
    Segment(x, top, x, top + (height * cellSize) as real)
  }

  /** The `i`-th horizontal grid line: at `top + i * cellSize`, from the left
      of the grid to its right. */
  function HorizontalLine(left: real, top: real, width: nat, cellSize: int, i: int): (s: Segment)
    ensures s.y1 == s.y2 && s.x2 - s.x1 == (width * cellSize) as real
  {
    var y := top + (i * cellSize) as real;
    Segment(left, y, left + (width * cellSize) as real, y)
  }

  /** generateGridLines (lib/puzzleGenerator.js lines 65-76): the width + 1
      vertical lines, left to right, then the height + 1 horizontal lines,
      top to bottom. */
  method GridLines(left: real, top: real, width: nat, height: nat, cellSize: int)
    returns (lines: seq<Segment>)
    ensures |lines| == (width + 1) + (height + 1)
    ensures forall i :: 0 <= i <= width ==> lines[i] == VerticalLine(left, top, height, cellSize, i)
    ensures forall i :: 0 <= i <= height ==>
              lines[width + 1 + i] == HorizontalLine(left, top, width, cellSize, i)
  {
    lines := [];
    var i := 0;
    while i <= width
      invariant 0 <= i <= width + 1
      invariant |lines| == i
      invariant forall k :: 0 <= k < i ==> lines[k] == VerticalLine(left, top, height, cellSize, k)
    {
      lines := lines + [VerticalLine(left, top, height, cellSize, i)];
      i := i + 1;
    }
    i := 0;
    while i <= height
      invariant 0 <= i <= height + 1
      invariant |lines| == width + 1 + i
      invariant forall k :: 0 <= k <= width ==> lines[k] == VerticalLine(left, top, height, cellSize, k)
      invariant forall k :: 0 <= k < i ==>
                  lines[width + 1 + k] == HorizontalLine(left, top, width, cellSize, k)
    {
      lines := lines + [HorizontalLine(left, top, width, cellSize, i)];
      i := i + 1;
    }
  }

  /** A point of the canvas of layout `l`. */
  predicate OnCanvas(l: Layout, x: real, y: real)
  {
    0.0 <= x <= l.totalWidth as real && 0.0 <= y <= l.totalHeight as real
  }

  /** Both ends of a segment lie on the canvas. */
  predicate SegmentOnCanvas(l: Layout, s: Segment)
  {
    OnCanvas(l, s.x1, s.y1) && OnCanvas(l, s.x2, s.y2)
  }

  /** The vertical grid lines of a layout start at the left margin, end at
      the right edge of the grid, and lie on the canvas. */
  lemma VerticalLinesOnCanvas(rowHints: seq<seq<nat>>, colHints: seq<seq<nat>>, cellSize: int, i: int)
    requires cellSize >= 0
    ensures var l := ComputeLayout(rowHints, colHints, cellSize);
      0 <= i <= l.gridWidth ==>
        SegmentOnCanvas(l, VerticalLine(l.hintAreaLeft, l.hintAreaTop, l.gridHeight, cellSize, i))
  {
    var l := ComputeLayout(rowHints, colHints, cellSize);
    SpanMonotone(cellSize);
    assert 0.0 <= HintSpan(0, cellSize) <= l.hintAreaLeft;
    assert 0.0 <= HintSpan(0, cellSize) <= l.hintAreaTop;
    MulMonotone(0, l.gridHeight, cellSize);
    if 0 <= i <= l.gridWidth {
      MulMonotone(i, l.gridWidth, cellSize);
    }
  }

  /** The horizontal grid lines of a layout start at the top margin, end at
      the bottom edge of the grid, and lie on the canvas. */
  lemma HorizontalLinesOnCanvas(rowHints: seq<seq<nat>>, colHints: seq<seq<nat>>, cellSize: int, i: int)
    requires cellSize >= 0
    ensures var l := ComputeLayout(rowHints, colHints, cellSize);
      0 <= i <= l.gridHeight ==>
        SegmentOnCanvas(l, HorizontalLine(l.hintAreaLeft, l.hintAreaTop, l.gridWidth, cellSize, i))
  {
    var l := ComputeLayout(rowHints, colHints, cellSize);
    SpanMonotone(cellSize);
    assert 0.0 <= HintSpan(0, cellSize) <= l.hintAreaLeft;
    assert 0.0 <= HintSpan(0, cellSize) <= l.hintAreaTop;
    MulMonotone(0, l.gridWidth, cellSize);
    if 0 <= i <= l.gridHeight {
      MulMonotone(i, l.gridHeight, cellSize);
    }
  }

  /** Scaling by a non-negative cell size keeps the order. */
  lemma MulMonotone(a: int, b: int, c: int)
    requires 0 <= a <= b && 0 <= c
    ensures 0.0 <= (a * c) as real <= (b * c) as real
  {
  }

  /* ---------------------------------------------------------------------- */
  /* Hint numbers                                                           */
  /* ---------------------------------------------------------------------- */

  /** A hint number drawn centred at (x, y). */
  datatype Label = Label(x: real, y: real, value: nat)

  /** Number `j` of row `i` (lib/puzzleGenerator.js lines 81-83): on the
      row's centre line, `|row| - j` hint widths left of the grid. */
  function RowLabel(row: seq<nat>, i: int, j: int, left: real, top: real, cellSize: int): (lbl: Label)
    requires 0 <= j < |row|
    ensures lbl.value == row[j]
  {
    Label(left - HintSpan(|row| - j, cellSize),
          top + (i * cellSize) as real + cellSize as real / 2.0,
          row[j])
  }

  /** Number `j` of column `i` (lib/puzzleGenerator.js lines 93-95): on the
      column's centre line, `|col| - j` hint heights above the grid. */
  function ColumnLabel(col: seq<nat>, i: int, j: int, left: real, top: real, cellSize: int): (lbl: Label)
    requires 0 <= j < |col|
    ensures lbl.value == col[j]
  {
    Label(left + (i * cellSize) as real + cellSize as real / 2.0,
          top - HintSpan(|col| - j, cellSize),
          col[j])
  }

  /** The labels of row `i`, left to right. */
  function RowLabelsOf(row: seq<nat>, i: int, left: real, top: real, cellSize: int): (r: seq<Label>)
    ensures |r| == |row|
  {
    seq(|row|, j requires 0 <= j < |row| => RowLabel(row, i, j, left, top, cellSize))
  }

  /** The labels of column `i`, top to bottom. */
  function ColumnLabelsOf(col: seq<nat>, i: int, left: real, top: real, cellSize: int): (r: seq<Label>)
    ensures |r| == |col|
  {
    seq(|col|, j requires 0 <= j < |col| => ColumnLabel(col, i, j, left, top, cellSize))
  }

  /** All row labels, row by row: one label per hint number. */
  function RowLabels(hints: seq<seq<nat>>, left: real, top: real, cellSize: int): (r: seq<Label>)
    ensures |r| == TotalHints(hints)
  {
    if hints == [] then []
    else
      var n := |hints| - 1;
      RowLabels(hints[..n], left, top, cellSize) + RowLabelsOf(hints[n], n, left, top, cellSize)
  }

  /** All column labels, column by column: one label per hint number. */
  function ColumnLabels(hints: seq<seq<nat>>, left: real, top: real, cellSize: int): (r: seq<Label>)
    ensures |r| == TotalHints(hints)
  {
    if hints == [] then []
    else
      var n := |hints| - 1;
      ColumnLabels(hints[..n], left, top, cellSize) + ColumnLabelsOf(hints[n], n, left, top, cellSize)
  }

  /** generateRowHints (lib/puzzleGenerator.js lines 78-88): for each row,
      for each of its numbers, one label. */
  method RowHintLabels(hints: seq<seq<nat>>, left: real, top: real, cellSize: int)
    returns (labels: seq<Label>)
    ensures labels == RowLabels(hints, left, top, cellSize)
  {
    labels := [];
    var i := 0;
    while i < |hints|
      invariant 0 <= i <= |hints|
      invariant labels == RowLabels(hints[..i], left, top, cellSize)
    {
      var row := hints[i];
      ghost var done := labels;
      var j := 0;
      while j < |row|
        invariant 0 <= j <= |row|
        invariant labels == done + RowLabelsOf(row, i, left, top, cellSize)[..j]
      {
        labels := labels + [RowLabel(row, i, j, left, top, cellSize)];
        j := j + 1;
      }
      assert RowLabelsOf(row, i, left, top, cellSize)[..j] == RowLabelsOf(row, i, left, top, cellSize);
      assert hints[..i + 1][..i] == hints[..i];
      i := i + 1;
    }
    assert hints[..i] == hints;
  }

  /** generateColHints (lib/puzzleGenerator.js lines 90-100): for each
      column, for each of its numbers, one label. */
  method ColumnHintLabels(hints: seq<seq<nat>>, left: real, top: real, cellSize: int)
    returns (labels: seq<Label>)
    ensures labels == ColumnLabels(hints, left, top, cellSize)
  {
    labels := [];
    var i := 0;
    while i < |hints|
      invariant 0 <= i <= |hints|
      invariant labels == ColumnLabels(hints[..i], left, top, cellSize)
    {
      var col := hints[i];
      ghost var done := labels;
      var j := 0;
      while j < |col|
        invariant 0 <= j <= |col|
        invariant labels == done + ColumnLabelsOf(col, i, left, top, cellSize)[..j]
      {
        labels := labels + [ColumnLabel(col, i, j, left, top, cellSize)];
        j := j + 1;
      }
      assert ColumnLabelsOf(col, i, left, top, cellSize)[..j] == ColumnLabelsOf(col, i, left, top, cellSize);
      assert hints[..i + 1][..i] == hints[..i];
      i := i + 1;
    }
    assert hints[..i] == hints;
  }

  /** Within one row the numbers go left to right, the last one a single hint
      width left of the grid, all on the row's centre line. */
  lemma RowLabelOrder(row: seq<nat>, i: int, left: real, top: real, cellSize: int, j1: int, j2: int)
    requires cellSize > 0
    requires 0 <= j1 < j2 < |row|
    ensures RowLabel(row, i, j1, left, top, cellSize).x < RowLabel(row, i, j2, left, top, cellSize).x
    ensures RowLabel(row, i, j1, left, top, cellSize).y == RowLabel(row, i, j2, left, top, cellSize).y
    ensures RowLabel(row, i, |row| - 1, left, top, cellSize).x == left - HintSpan(1, cellSize)
  {
    SpanMonotone(cellSize);
  }

  /** Within one column the numbers go top to bottom, the last one a single
      hint height above the grid, all on the column's centre line. */
  lemma ColumnLabelOrder(col: seq<nat>, i: int, left: real, top: real, cellSize: int, j1: int, j2: int)
    requires cellSize > 0
    requires 0 <= j1 < j2 < |col|
    ensures ColumnLabel(col, i, j1, left, top, cellSize).y < ColumnLabel(col, i, j2, left, top, cellSize).y
    ensures ColumnLabel(col, i, j1, left, top, cellSize).x == ColumnLabel(col, i, j2, left, top, cellSize).x
    ensures ColumnLabel(col, i, |col| - 1, left, top, cellSize).y == top - HintSpan(1, cellSize)
  {
    SpanMonotone(cellSize);
  }

  /** The centre of one label of line `i` < `rows` lies in the margin. */
  lemma RowLabelInMargin(line: seq<nat>, i: nat, j: nat, left: real, top: real, cellSize: int, rows: nat)
    requires cellSize > 0 && i < rows && j < |line|
    requires HintSpan(|line|, cellSize) <= left
    ensures var lbl := RowLabel(line, i, j, left, top, cellSize);
      0.0 <= lbl.x < left && top < lbl.y < top + (rows * cellSize) as real
  {
    SpanMonotone(cellSize);
    assert HintSpan(1, cellSize) <= HintSpan(|line| - j, cellSize) <= HintSpan(|line|, cellSize);
    MulMonotone(i + 1, rows, cellSize);
    assert (i * cellSize) as real + cellSize as real / 2.0 < ((i + 1) * cellSize) as real;
  }

  /** Row label centres lie in the left margin: at or right of the canvas
      edge, left of the grid, and within the height of the `rows` rows. */
  lemma {:induction false} RowLabelsInMargin(hints: seq<seq<nat>>, left: real, top: real, cellSize: int, rows: nat)
    requires cellSize > 0 && |hints| <= rows
    requires forall i :: 0 <= i < |hints| ==> HintSpan(|hints[i]|, cellSize) <= left
    ensures forall lbl :: lbl in RowLabels(hints, left, top, cellSize) ==>
              0.0 <= lbl.x < left && top < lbl.y < top + (rows * cellSize) as real
    decreases |hints|
  {
    if hints != [] {
      var n := |hints| - 1;
      RowLabelsInMargin(hints[..n], left, top, cellSize, rows);
      forall lbl | lbl in RowLabelsOf(hints[n], n, left, top, cellSize)
        ensures 0.0 <= lbl.x < left && top < lbl.y < top + (rows * cellSize) as real
      {
        var j :| 0 <= j < |hints[n]| && RowLabelsOf(hints[n], n, left, top, cellSize)[j] == lbl;
        RowLabelInMargin(hints[n], n, j, left, top, cellSize, rows);
      }
    }
  }

  /** The centre of one label of line `i` < `cols` lies in the margin. */
  lemma ColumnLabelInMargin(line: seq<nat>, i: nat, j: nat, left: real, top: real, cellSize: int, cols: nat)
    requires cellSize > 0 && i < cols && j < |line|
    requires HintSpan(|line|, cellSize) <= top
    ensures var lbl := ColumnLabel(line, i, j, left, top, cellSize);
      0.0 <= lbl.y < top && left < lbl.x < left + (cols * cellSize) as real
  {
    SpanMonotone(cellSize);
    assert HintSpan(1, cellSize) <= HintSpan(|line| - j, cellSize) <= HintSpan(|line|, cellSize);
    MulMonotone(i + 1, cols, cellSize);
    assert (i * cellSize) as real + cellSize as real / 2.0 < ((i + 1) * cellSize) as real;
  }

  /** Column label centres lie in the top margin: at or below the canvas
      edge, above the grid, and within the width of the `cols` columns. */
  lemma {:induction false} ColumnLabelsInMargin(hints: seq<seq<nat>>, left: real, top: real, cellSize: int, cols: nat)
    requires cellSize > 0 && |hints| <= cols
    requires forall i :: 0 <= i < |hints| ==> HintSpan(|hints[i]|, cellSize) <= top
    ensures forall lbl :: lbl in ColumnLabels(hints, left, top, cellSize) ==>
              0.0 <= lbl.y < top && left < lbl.x < left + (cols * cellSize) as real
    decreases |hints|
  {
    if hints != [] {
      var n := |hints| - 1;
      ColumnLabelsInMargin(hints[..n], left, top, cellSize, cols);
      forall lbl | lbl in ColumnLabelsOf(hints[n], n, left, top, cellSize)
        ensures 0.0 <= lbl.y < top && left < lbl.x < left + (cols * cellSize) as real
      {
        var j :| 0 <= j < |hints[n]| && ColumnLabelsOf(hints[n], n, left, top, cellSize)[j] == lbl;
        ColumnLabelInMargin(hints[n], n, j, left, top, cellSize, cols);
      }
    }
  }

  /** Number `j` of row `i` is among the drawn row labels. */
  lemma {:induction false} RowLabelDrawn(hints: seq<seq<nat>>, i: nat, j: nat, left: real, top: real, cellSize: int)
    requires i < |hints| && j < |hints[i]|
    ensures RowLabel(hints[i], i, j, left, top, cellSize) in RowLabels(hints, left, top, cellSize)
    decreases |hints|
  {
    var n := |hints| - 1;
    if i < n {
      RowLabelDrawn(hints[..n], i, j, left, top, cellSize);
    } else {
      assert RowLabelsOf(hints[n], n, left, top, cellSize)[j] == RowLabel(hints[i], i, j, left, top, cellSize);
    }
  }

  /** Number `j` of column `i` is among the drawn column labels. */
  lemma {:induction false} ColumnLabelDrawn(hints: seq<seq<nat>>, i: nat, j: nat, left: real, top: real, cellSize: int)
    requires i < |hints| && j < |hints[i]|
    ensures ColumnLabel(hints[i], i, j, left, top, cellSize) in ColumnLabels(hints, left, top, cellSize)
    decreases |hints|
  {
    var n := |hints| - 1;
    if i < n {
      ColumnLabelDrawn(hints[..n], i, j, left, top, cellSize);
    } else {
      assert ColumnLabelsOf(hints[n], n, left, top, cellSize)[j] == ColumnLabel(hints[i], i, j, left, top, cellSize);
    }
  }

  /** The left bound of the margin is reached: as soon as one row has a hint,
      the first number of a longest row is centred on the canvas edge x = 0,
      so the left half of that number falls outside the picture. */
  lemma RowLabelsReachEdge(rowHints: seq<seq<nat>>, colHints: seq<seq<nat>>, cellSize: int)
    requires exists i :: 0 <= i < |rowHints| && rowHints[i] != []
    ensures var l := ComputeLayout(rowHints, colHints, cellSize);
      exists lbl :: lbl in RowLabels(rowHints, l.hintAreaLeft, l.hintAreaTop, cellSize) && lbl.x == 0.0
  {
    var l := ComputeLayout(rowHints, colHints, cellSize);
    var m := MaxHintLength(rowHints);
    var i :| 0 <= i < |rowHints| && |rowHints[i]| == m;
    RowLabelDrawn(rowHints, i, 0, l.hintAreaLeft, l.hintAreaTop, cellSize);
    assert RowLabel(rowHints[i], i, 0, l.hintAreaLeft, l.hintAreaTop, cellSize).x == 0.0;
  }

  /** The top bound of the margin is reached: as soon as one column has a
      hint, the first number of a longest column is centred on the canvas edge
      y = 0, so the upper half of that number falls outside the picture. */
  lemma ColumnLabelsReachEdge(rowHints: seq<seq<nat>>, colHints: seq<seq<nat>>, cellSize: int)
    requires exists i :: 0 <= i < |colHints| && colHints[i] != []
    ensures var l := ComputeLayout(rowHints, colHints, cellSize);
      exists lbl :: lbl in ColumnLabels(colHints, l.hintAreaLeft, l.hintAreaTop, cellSize) && lbl.y == 0.0
  {
    var l := ComputeLayout(rowHints, colHints, cellSize);
    var m := MaxHintLength(colHints);
    var i :| 0 <= i < |colHints| && |colHints[i]| == m;
    ColumnLabelDrawn(colHints, i, 0, l.hintAreaLeft, l.hintAreaTop, cellSize);
    assert ColumnLabel(colHints[i], i, 0, l.hintAreaLeft, l.hintAreaTop, cellSize).y == 0.0;
  }

  /* ---------------------------------------------------------------------- */
  /* The whole picture                                                      */
  /* ---------------------------------------------------------------------- */

  /** What renderNonogramPuzzle draws: the canvas size, the grid lines and the
      hint numbers (the background fill and the colours are not modelled). */
  datatype Scene = Scene(
    width: int,
    height: int,
    lines: seq<Segment>,
    rowLabels: seq<Label>,
    colLabels: seq<Label>)

  /** A row label centred inside the left margin of layout `l`. */
  predicate InLeftMargin(l: Layout, cellSize: int, lbl: Label)
  {
    0.0 <= lbl.x < l.hintAreaLeft
    && l.hintAreaTop < lbl.y < l.hintAreaTop + (l.gridHeight * cellSize) as real
  }

  /** A column label centred inside the top margin of layout `l`. */
  predicate InTopMargin(l: Layout, cellSize: int, lbl: Label)
  {
    0.0 <= lbl.y < l.hintAreaTop
    && l.hintAreaLeft < lbl.x < l.hintAreaLeft + (l.gridWidth * cellSize) as real
  }

  /** renderNonogramPuzzle (lib/puzzleGenerator.js lines 38-63), up to the
      SVG text: lay out the canvas, then draw the grid lines, the row hints
      and the column hints. Both end points of every grid line lie on the
      canvas, and the centre of every hint number lies in its margin, left of
      or above the grid; the extent of the drawn text is not modelled. */
  method RenderNonogramPuzzle(rowHints: seq<seq<nat>>, colHints: seq<seq<nat>>, cellSize: int)
    returns (scene: Scene)
    ensures var l := ComputeLayout(rowHints, colHints, cellSize);
      && scene.width == l.totalWidth && scene.height == l.totalHeight
      && scene.rowLabels == RowLabels(rowHints, l.hintAreaLeft, l.hintAreaTop, cellSize)
      && scene.colLabels == ColumnLabels(colHints, l.hintAreaLeft, l.hintAreaTop, cellSize)
      && (cellSize >= 0 ==> forall s :: s in scene.lines ==> SegmentOnCanvas(l, s))
      && (cellSize > 0 ==> forall lbl :: lbl in scene.rowLabels ==> InLeftMargin(l, cellSize, lbl))
      && (cellSize > 0 ==> forall lbl :: lbl in scene.colLabels ==> InTopMargin(l, cellSize, lbl))
    ensures |scene.lines| == (|colHints| + 1) + (|rowHints| + 1)
    // the grid lines of generateGridLines, at the layout's offsets
    ensures var l := ComputeLayout(rowHints, colHints, cellSize);
      && (forall i :: 0 <= i <= |colHints| ==>
            scene.lines[i] == VerticalLine(l.hintAreaLeft, l.hintAreaTop, l.gridHeight, cellSize, i))
      && (forall i :: 0 <= i <= |rowHints| ==>
            scene.lines[|colHints| + 1 + i] == HorizontalLine(l.hintAreaLeft, l.hintAreaTop, l.gridWidth, cellSize, i))
    ensures |scene.rowLabels| == TotalHints(rowHints) && |scene.colLabels| == TotalHints(colHints)
  {
    var l := ComputeLayout(rowHints, colHints, cellSize);
    var lines := GridLines(l.hintAreaLeft, l.hintAreaTop, l.gridWidth, l.gridHeight, cellSize);
    var rowLabels := RowHintLabels(rowHints, l.hintAreaLeft, l.hintAreaTop, cellSize);
    var colLabels := ColumnHintLabels(colHints, l.hintAreaLeft, l.hintAreaTop, cellSize);
    if cellSize >= 0 {
      forall s | s in lines
        ensures SegmentOnCanvas(l, s)
      {
        var i :| 0 <= i < |lines| && lines[i] == s;
        if i <= l.gridWidth {
          VerticalLinesOnCanvas(rowHints, colHints, cellSize, i);
        } else {
          HorizontalLinesOnCanvas(rowHints, colHints, cellSize, i - l.gridWidth - 1);
        }
      }
    }
    if cellSize > 0 {
      RowLabelsInMargin(rowHints, l.hintAreaLeft, l.hintAreaTop, cellSize, l.gridHeight);
      ColumnLabelsInMargin(colHints, l.hintAreaLeft, l.hintAreaTop, cellSize, l.gridWidth);
    }
    scene := Scene(l.totalWidth, l.totalHeight, lines, rowLabels, colLabels);
  }
}
