/** `GridProcessor`: splits a photographed sheet into a grid of card cells and fits each
    cell to the shape of a card. All coordinates are integer pixels, as in `android.graphics.Rect`. */
module Grid {

  /** `android.graphics.Rect`: left/top inclusive, right/bottom exclusive. */
  datatype Rect = Rect(left: int, top: int, right: int, bottom: int) {
    function Width(): int { right - left }
    function Height(): int { bottom - top }
    predicate WellFormed() { left <= right && top <= bottom }
    /** This rectangle lies inside `outer`. */
    predicate Inside(outer: Rect) {
      outer.left <= left && right <= outer.right && outer.top <= top && bottom <= outer.bottom
    }
    /** The interiors of the two rectangles are disjoint (they may share an edge). */
    predicate Disjoint(other: Rect) {
      right <= other.left || other.right <= left || bottom <= other.top || other.bottom <= top
    }
  }

  /** `(dim * 0.05f).toInt()` for a non-negative dimension, as an exact fraction. */
  function Padding(dim: nat): (p: nat)
    ensures 2 * p <= dim
  {
    dim * 5 / 100
  }

  /** Kotlin's `Int` division, which truncates toward zero. */
  function TruncDiv(a: int, b: int): int
    requires b > 0
  {
    if a >= 0 then a / b else -((-a) / b)
  }

  /** Width of every cell: `usableWidth / cols`. */
  function CellWidth(imageWidth: nat, cols: nat): nat
    requires cols >= 1
  {
    (imageWidth - 2 * Padding(imageWidth)) / cols
  }

  /** Height of every cell: `usableHeight / rows`. */
  function CellHeight(imageHeight: nat, rows: nat): nat
    requires rows >= 1
  {
    (imageHeight - 2 * Padding(imageHeight)) / rows
  }

  /** The rectangle `createGridRegions` builds for grid position (row, col). */
  function Cell(imageWidth: nat, imageHeight: nat, rows: nat, cols: nat, row: nat, col: nat): Rect
    requires rows >= 1 && cols >= 1
  {
    var left := Padding(imageWidth) + col * CellWidth(imageWidth, cols);
    var top := Padding(imageHeight) + row * CellHeight(imageHeight, rows);
    Rect(left, top, left + CellWidth(imageWidth, cols), top + CellHeight(imageHeight, rows))
  }

  /** The padded image: the area the grid is laid over. */
  function UsableArea(imageWidth: nat, imageHeight: nat): Rect {
    Rect(Padding(imageWidth), Padding(imageHeight),
         imageWidth - Padding(imageWidth), imageHeight - Padding(imageHeight))
  }

  lemma MulLeft(a: int, b: int, c: nat)
    requires a <= b
    ensures a * c <= b * c
  {
  }

  /** Position `row * cols + col` decodes back to (row, col) by `/` and `%`. */
  lemma {:induction false} IndexDecodes(row: nat, col: nat, cols: nat)
    requires col < cols
    ensures (row * cols + col) / cols == row && (row * cols + col) % cols == col
  {
    var n := row * cols + col;
    var q, r := n / cols, n % cols;
    assert n == q * cols + r;
    if q < row {
      MulLeft(q + 1, row, cols);
      assert false;
    } else if q > row {
      MulLeft(row + 1, q, cols);
      assert false;
    }
  }

  /** `regions` holds, in row-major order, the cells of the first |regions| grid positions. */
  predicate GridPrefix(imageWidth: nat, imageHeight: nat, rows: nat, cols: nat, regions: seq<Rect>)
    requires rows >= 1 && cols >= 1
  {
    forall p :: 0 <= p < |regions| ==>
      regions[p] == Cell(imageWidth, imageHeight, rows, cols, p / cols, p % cols)
  }

  lemma {:induction false} AppendCell(imageWidth: nat, imageHeight: nat, rows: nat, cols: nat,
                                      regions: seq<Rect>, row: nat, col: nat)
    requires rows >= 1 && cols >= 1 && col < cols
    requires |regions| == row * cols + col
    requires GridPrefix(imageWidth, imageHeight, rows, cols, regions)
    ensures GridPrefix(imageWidth, imageHeight, rows, cols, regions + [Cell(imageWidth, imageHeight, rows, cols, row, col)])
  {
    var next := regions + [Cell(imageWidth, imageHeight, rows, cols, row, col)];
    forall p | 0 <= p < |next|
      ensures next[p] == Cell(imageWidth, imageHeight, rows, cols, p / cols, p % cols)
    {
      if p < |regions| {
        assert next[p] == regions[p];
      } else {
        IndexDecodes(row, col, cols);
        assert p / cols == row && p % cols == col;
      }
    }
  }

  /** The whole grid: the cells of all rows · cols positions, row-major. */
  function GridCells(imageWidth: nat, imageHeight: nat, rows: nat, cols: nat): seq<Rect>
    requires rows >= 1 && cols >= 1
  {
    seq(rows * cols, p requires 0 <= p < rows * cols => Cell(imageWidth, imageHeight, rows, cols, p / cols, p % cols))
  }

  /** `createGridRegions`: the nested row/column loops appending one cell per position. */
  method CreateGridRegions(imageWidth: nat, imageHeight: nat, rows: nat, cols: nat)
    returns (regions: seq<Rect>)
    requires rows >= 1 && cols >= 1
    ensures |regions| == rows * cols
    ensures GridPrefix(imageWidth, imageHeight, rows, cols, regions)
    ensures regions == GridCells(imageWidth, imageHeight, rows, cols)
  {
    regions := [];
    var paddingX := Padding(imageWidth);
    var paddingY := Padding(imageHeight);
    var usableWidth := imageWidth - paddingX * 2;
    var usableHeight := imageHeight - paddingY * 2;
    var cellWidth := usableWidth / cols;
    var cellHeight := usableHeight / rows;
    for row := 0 to rows
      invariant |regions| == row * cols
      invariant GridPrefix(imageWidth, imageHeight, rows, cols, regions)
    {
      for col := 0 to cols
        invariant |regions| == row * cols + col
        invariant GridPrefix(imageWidth, imageHeight, rows, cols, regions)
      {
        var left := paddingX + col * cellWidth;
        var top := paddingY + row * cellHeight;
        var cell := Rect(left, top, left + cellWidth, top + cellHeight);
        assert cell == Cell(imageWidth, imageHeight, rows, cols, row, col);
        AppendCell(imageWidth, imageHeight, rows, cols, regions, row, col);
        regions := regions + [cell];
      }
      assert (row + 1) * cols == row * cols + cols;
    }
  }

  /** Every cell has the common cell size and lies inside the padded image. */
  lemma {:induction false} CellInside(imageWidth: nat, imageHeight: nat, rows: nat, cols: nat, row: nat, col: nat)
    requires rows >= 1 && cols >= 1 && row < rows && col < cols
    ensures var c := Cell(imageWidth, imageHeight, rows, cols, row, col);
      && c.Width() == CellWidth(imageWidth, cols) && c.Height() == CellHeight(imageHeight, rows)
      && c.WellFormed() && c.Inside(UsableArea(imageWidth, imageHeight))
  {
    var px, py := Padding(imageWidth), Padding(imageHeight);
    var cw, ch := CellWidth(imageWidth, cols), CellHeight(imageHeight, rows);
    var c := Cell(imageWidth, imageHeight, rows, cols, row, col);
    assert c.left == px + col * cw && c.right == c.left + cw;
    assert c.top == py + row * ch && c.bottom == c.top + ch;
    SpanInside(px, col, cols, cw, imageWidth - 2 * px);
    SpanInside(py, row, rows, ch, imageHeight - 2 * py);
  }

  /** Step `i` of `n` steps of width `w` that fit in `total` lies within `[p, p + total]`. */
  lemma SpanInside(p: int, i: nat, n: nat, w: nat, total: nat)
    requires i < n && w == total / n
    ensures p <= p + i * w && p + i * w + w <= p + total
  {
    MulLeft(0, i, w);
    MulLeft(i + 1, n, w);
    assert n * w <= total;
  }

  /** Horizontal and vertical neighbours share an edge. */
  lemma NeighboursShareEdges(imageWidth: nat, imageHeight: nat, rows: nat, cols: nat, row: nat, col: nat)
    requires rows >= 1 && cols >= 1
    ensures Cell(imageWidth, imageHeight, rows, cols, row, col).right
         == Cell(imageWidth, imageHeight, rows, cols, row, col + 1).left
    ensures Cell(imageWidth, imageHeight, rows, cols, row, col).bottom
         == Cell(imageWidth, imageHeight, rows, cols, row + 1, col).top
  {
  }

  /** Cells of two different grid positions never overlap. */
  lemma {:induction false} CellsDisjoint(imageWidth: nat, imageHeight: nat, rows: nat, cols: nat,
                                         r1: nat, c1: nat, r2: nat, c2: nat)
    requires rows >= 1 && cols >= 1
    requires r1 != r2 || c1 != c2
    ensures Cell(imageWidth, imageHeight, rows, cols, r1, c1).Disjoint(Cell(imageWidth, imageHeight, rows, cols, r2, c2))
  {
    var px, py := Padding(imageWidth), Padding(imageHeight);
    var cw, ch := CellWidth(imageWidth, cols), CellHeight(imageHeight, rows);
    var a, b := Cell(imageWidth, imageHeight, rows, cols, r1, c1), Cell(imageWidth, imageHeight, rows, cols, r2, c2);
    if c1 < c2 {
      SpanBefore(px, c1, c2, cw);
      assert a.right <= b.left;
    } else if c2 < c1 {
      SpanBefore(px, c2, c1, cw);
      assert b.right <= a.left;
    } else if r1 < r2 {
      SpanBefore(py, r1, r2, ch);
      assert a.bottom <= b.top;
    } else {
      SpanBefore(py, r2, r1, ch);
      assert b.bottom <= a.top;
    }
  }

  /** A span of width `w` starting at step `i` ends no later than step `j > i` starts. */
  lemma SpanBefore(p: int, i: nat, j: nat, w: nat)
    requires i < j
    ensures p + i * w + w <= p + j * w
  {
    MulLeft(i + 1, j, w);
  }

  /** Row-major placement: the region at position `row * cols + col` starts at column `col`
      and row `row` of the padded grid. */
  lemma {:induction false} GridPlacement(imageWidth: nat, imageHeight: nat, rows: nat, cols: nat,
                                         regions: seq<Rect>, row: nat, col: nat)
    requires rows >= 1 && cols >= 1 && row < rows && col < cols
    requires |regions| == rows * cols
    requires GridPrefix(imageWidth, imageHeight, rows, cols, regions)
    ensures row * cols + col < |regions|
    ensures regions[row * cols + col].left == Padding(imageWidth) + col * CellWidth(imageWidth, cols)
    ensures regions[row * cols + col].top == Padding(imageHeight) + row * CellHeight(imageHeight, rows)
  {
    IndexDecodes(row, col, cols);
    MulLeft(row + 1, rows, cols);
  }

  /** Every region has the common cell size and lies inside the padded image. */
  lemma {:induction false} GridRegionsInside(imageWidth: nat, imageHeight: nat, rows: nat, cols: nat,
                                             regions: seq<Rect>)
    requires rows >= 1 && cols >= 1
    requires |regions| == rows * cols
    requires GridPrefix(imageWidth, imageHeight, rows, cols, regions)
    ensures forall p :: 0 <= p < |regions| ==>
      && regions[p].Width() == CellWidth(imageWidth, cols)
      && regions[p].Height() == CellHeight(imageHeight, rows)
      && regions[p].Inside(UsableArea(imageWidth, imageHeight))
  {
    forall p | 0 <= p < |regions|
      ensures && regions[p].Width() == CellWidth(imageWidth, cols)
              && regions[p].Height() == CellHeight(imageHeight, rows)
              && regions[p].Inside(UsableArea(imageWidth, imageHeight))
    {
      RowInRange(p, rows, cols);
      CellInside(imageWidth, imageHeight, rows, cols, p / cols, p % cols);
    }
  }

  /** No two regions of the grid overlap. */
  lemma {:induction false} GridRegionsDisjoint(imageWidth: nat, imageHeight: nat, rows: nat, cols: nat,
                                               regions: seq<Rect>)
    requires rows >= 1 && cols >= 1
    requires GridPrefix(imageWidth, imageHeight, rows, cols, regions)
    ensures forall p, q :: 0 <= p < q < |regions| ==> regions[p].Disjoint(regions[q])
  {
    forall p, q | 0 <= p < q < |regions|
      ensures regions[p].Disjoint(regions[q])
    {
      var r1: nat, c1: nat, r2: nat, c2: nat := p / cols, p % cols, q / cols, q % cols;
      assert regions[p] == Cell(imageWidth, imageHeight, rows, cols, r1, c1);
      assert regions[q] == Cell(imageWidth, imageHeight, rows, cols, r2, c2);
      DistinctPositions(p, q, cols);
      CellsDisjoint(imageWidth, imageHeight, rows, cols, r1, c1, r2, c2);
    }
  }

  /** Different positions decode to different (row, col) pairs. */
  lemma DistinctPositions(p: nat, q: nat, cols: nat)
    requires cols >= 1 && p != q
    ensures p / cols != q / cols || p % cols != q % cols
  {
  }

  /** A position below `rows * cols` decodes to a row below `rows`. */
  lemma RowInRange(p: nat, rows: nat, cols: nat)
    requires cols >= 1 && p < rows * cols
    ensures p / cols < rows
  {
    if p / cols >= rows {
      MulLeft(rows, p / cols, cols);
      assert false;
    }
  }

  /** The float test `width / height > 0.715` on exact rationals, including a zero or negative height. */
  predicate TooWide(width: int, height: int) {
    if height > 0 then width * 1000 > height * 715
    else if height == 0 then width > 0
    else width * 1000 < height * 715
  }

  /** `optimizeRegionsForCards` on one region: keep the too-long side's span but shrink it, centred,
      to the card aspect ratio 0.715 (width : height). */
  function OptimizeRegion(r: Rect): (o: Rect)
    ensures r.WellFormed() ==> o.WellFormed() && o.Inside(r)
    ensures r.WellFormed() && TooWide(r.Width(), r.Height()) ==>
      && o.top == r.top && o.bottom == r.bottom
      // the widest integer width not exceeding 0.715 * height
      && o.Width() * 1000 <= r.Height() * 715 < (o.Width() + 1) * 1000
      // centred: the gap on the right is the gap on the left or one more
      && o.left - r.left <= r.right - o.right <= o.left - r.left + 1
    ensures r.WellFormed() && !TooWide(r.Width(), r.Height()) ==>
      && o.left == r.left && o.right == r.right
      // the tallest integer height not exceeding width / 0.715
      && o.Height() * 715 <= r.Width() * 1000 < (o.Height() + 1) * 715
      && o.top - r.top <= r.bottom - o.bottom <= o.top - r.top + 1
  {
    var w, h := r.Width(), r.Height();
    if TooWide(w, h) then
      var newWidth := TruncDiv(h * 715, 1000);
      var left := r.left + TruncDiv(w - newWidth, 2);
      Rect(left, r.top, left + newWidth, r.bottom)
    else
      var newHeight := TruncDiv(w * 1000, 715);
      var top := r.top + TruncDiv(h - newHeight, 2);
      Rect(r.left, top, r.right, top + newHeight)
  }

  /** `optimizeRegionsForCards`: the map over the list. */
  function OptimizeRegions(regions: seq<Rect>): (optimized: seq<Rect>)
    ensures |optimized| == |regions|
    ensures forall i :: 0 <= i < |regions| ==> optimized[i] == OptimizeRegion(regions[i])
  {
    if regions == [] then [] else [OptimizeRegion(regions[0])] + OptimizeRegions(regions[1..])
  }
}
