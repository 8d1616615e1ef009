/**
 * The planogram's uniform grid: a canvas of `width` x `height` pixels split
 * into `rows` x `cols` equal sections. `RenderSections` lists the rectangle
 * of every section in row-major order; `GetSectionForPoint` maps a pixel
 * position to the section it falls in, snapping positions off the canvas to
 * an edge section. Coordinates are exact reals.
 */
module Grid {
  import opened Helpers
  import opened Arith

  /** The canvas settings: size in pixels and the number of grid rows and columns. */
  datatype Canvas = Canvas(width: int, height: int, rows: int, cols: int) {

    /** Every dimension at least one: the grid divisions are defined. */
    predicate Positive() {
      1 <= width && 1 <= height && 1 <= rows && 1 <= cols
    }

    /** No section is narrower or shorter than one pixel. */
    predicate WholePixelCells() {
      Positive() && cols <= width && rows <= height
    }

    /** `cellW`: the width of one section; `cols` of them make up the canvas width. */
    function CellW(): (w: real)
      requires Positive()
      ensures 0.0 < w
      ensures cols as real * w == width as real
    {
      PartsMakeWhole(width as real, cols as real);
      width as real / cols as real
    }

    /** `cellH`: the height of one section; `rows` of them make up the canvas height. */
    function CellH(): (h: real)
      requires Positive()
      ensures 0.0 < h
      ensures rows as real * h == height as real
    {
      PartsMakeWhole(height as real, rows as real);
      height as real / rows as real
    }
  }

  /** A section index: row `r`, column `c`, both counted from zero. */
  datatype Section = Section(r: int, c: int)

  /** An axis-aligned rectangle: top-left corner and size. */
  datatype Rect = Rect(left: real, top: real, w: real, h: real)

  /** One drawn section: its indices and its rectangle. */
  datatype Cell = Cell(r: int, c: int, rect: Rect)

  /** The rectangle holds the point, its left and top edges included, its right and bottom edges not. */
  predicate Contains(rect: Rect, x: real, y: real) {
    rect.left <= x < rect.left + rect.w && rect.top <= y < rect.top + rect.h
  }

  /**
   * The rectangle `renderSections` gives section `(r, c)`: one cell wide and
   * high, `c` cells from the left edge and `r` from the top. The rectangle of
   * a section of the grid lies inside the canvas.
   */
  function SectionRect(cv: Canvas, r: int, c: int): (rect: Rect)
    requires cv.Positive()
    ensures rect.w == cv.CellW() && rect.h == cv.CellH()
    ensures 0 <= r < cv.rows && 0 <= c < cv.cols ==>
      0.0 <= rect.left && rect.left + rect.w <= cv.width as real &&
      0.0 <= rect.top && rect.top + rect.h <= cv.height as real
  {
    IntervalInside(c, cv.cols, cv.width as real);
    IntervalInside(r, cv.rows, cv.height as real);
    Rect(c as real * cv.CellW(), r as real * cv.CellH(), cv.CellW(), cv.CellH())
  }

  /** `cells` is the whole grid, one cell per section, listed row by row. */
  ghost predicate RowMajorGrid(cv: Canvas, cells: seq<Cell>)
    requires cv.Positive()
  {
    |cells| == cv.rows * cv.cols &&
    forall i :: 0 <= i < |cells| ==> cells[i] == Cell(i / cv.cols, i % cv.cols, SectionRect(cv, i / cv.cols, i % cv.cols))
  }

  // ---------- Point to section ----------

  /**
   * One coordinate of `getSectionForPoint`: `t` clamped to `[0, size - 1]`,
   * scaled to `n` equal parts and rounded down.
   */
  function AxisIndex(t: real, size: int, n: int): (k: int)
    requires 1 <= size && 1 <= n
    ensures 0 <= k < n
  {
    var ct := Clamp(t, 0.0, (size - 1) as real);
    var w := size as real / n as real;
    assert ct / size as real * n as real == ct / w;
    FloorInterval(ct, w);
    PartsMakeWhole(size as real, n as real);
    IntervalIndexBounds(ct, w, n, (ct / w).Floor);
    (ct / size as real * n as real).Floor
  }

  /** `getSectionForPoint(x, y)`: the section a point falls in, always a section of the grid. */
  function GetSectionForPoint(cv: Canvas, x: real, y: real): (s: Section)
    requires cv.Positive()
    ensures 0 <= s.r < cv.rows && 0 <= s.c < cv.cols
  {
    Section(AxisIndex(y, cv.height, cv.rows), AxisIndex(x, cv.width, cv.cols))
  }

  /** The clamped coordinate lies in the interval of the index `AxisIndex` picks. */
  lemma AxisIndexInterval(t: real, size: int, n: int)
    requires 1 <= size && 1 <= n
    ensures var k, w := AxisIndex(t, size, n), size as real / n as real;
      var ct := Clamp(t, 0.0, (size - 1) as real);
      k as real * w <= ct < (k + 1) as real * w
  {
    var ct := Clamp(t, 0.0, (size - 1) as real);
    var w := size as real / n as real;
    var q := ct / size as real * n as real;
    assert q == ct / w;
    assert AxisIndex(t, size, n) == q.Floor;
    FloorInterval(ct, w);
  }

  /** Positions at or before 0 fall in the first interval. */
  lemma AxisIndexFirst(t: real, size: int, n: int)
    requires 1 <= size && 1 <= n && t <= 0.0
    ensures AxisIndex(t, size, n) == 0
  {
    AxisIndexInterval(t, size, n);
    IntervalUnique(0.0, size as real / n as real, AxisIndex(t, size, n), 0);
  }

  /**
   * Positions at or past `size - 1` fall in the last interval, provided the
   * intervals are at least one unit wide.
   */
  lemma AxisIndexLast(t: real, size: int, n: int)
    requires 1 <= n <= size && (size - 1) as real <= t
    ensures AxisIndex(t, size, n) == n - 1
  {
    AxisIndexInterval(t, size, n);
    LastIntervalReached(size, n, AxisIndex(t, size, n));
  }

  /**
   * A coordinate on the canvas lies in the interval of the index `AxisIndex`
   * picks for it, provided the intervals are at least one unit wide.
   */
  lemma AxisIndexCovers(t: real, size: int, n: int)
    requires 1 <= n <= size && 0.0 <= t < size as real
    ensures var k, w := AxisIndex(t, size, n), size as real / n as real;
      k as real * w <= t < (k + 1) as real * w
  {
    AxisIndexInterval(t, size, n);
    if (size - 1) as real < t {
      AxisIndexLast(t, size, n);
      PartsMakeWhole(size as real, n as real);
    }
  }

  /** On the canvas, the interval `AxisIndex` picks is the only one holding the coordinate. */
  lemma AxisIndexUnique(t: real, size: int, n: int, k: int)
    requires 1 <= n <= size && 0.0 <= t < size as real
    requires k as real * (size as real / n as real) <= t < (k + 1) as real * (size as real / n as real)
    ensures k == AxisIndex(t, size, n)
  {
    AxisIndexCovers(t, size, n);
    IntervalUnique(t, size as real / n as real, k, AxisIndex(t, size, n));
  }

  /** The interval of the picked index, written as its start plus one interval width. */
  lemma AxisIndexHolds(t: real, size: int, n: int)
    requires 1 <= n <= size && 0.0 <= t < size as real
    ensures var k, w := AxisIndex(t, size, n), size as real / n as real;
      k as real * w <= t < k as real * w + w
  {
    AxisIndexCovers(t, size, n);
    MulSuccessor(AxisIndex(t, size, n), size as real / n as real);
  }

  /** A point within a cell's width of column `c` and a cell's height of row `r` lies in that section's rectangle. */
  lemma SectionRectHolds(cv: Canvas, r: int, c: int, x: real, y: real)
    requires cv.Positive()
    requires var w := cv.width as real / cv.cols as real; c as real * w <= x < c as real * w + w
    requires var h := cv.height as real / cv.rows as real; r as real * h <= y < r as real * h + h
    ensures Contains(SectionRect(cv, r, c), x, y)
  {
    assert SectionRect(cv, r, c) == Rect(c as real * cv.CellW(), r as real * cv.CellH(), cv.CellW(), cv.CellH());
  }

  /** For a point on the canvas, the rectangle of the section `GetSectionForPoint` returns holds the point. */
  lemma SectionContainsPoint(cv: Canvas, x: real, y: real)
    requires cv.WholePixelCells()
    requires 0.0 <= x < cv.width as real && 0.0 <= y < cv.height as real
    ensures var s := GetSectionForPoint(cv, x, y); Contains(SectionRect(cv, s.r, s.c), x, y)
  {
    AxisIndexHolds(x, cv.width, cv.cols);
    AxisIndexHolds(y, cv.height, cv.rows);
    SectionRectHolds(cv, AxisIndex(y, cv.height, cv.rows), AxisIndex(x, cv.width, cv.cols), x, y);
  }

  /** No other section's rectangle holds a point of the canvas. */
  lemma SectionForPointUnique(cv: Canvas, x: real, y: real, r: int, c: int)
    requires cv.WholePixelCells()
    requires 0.0 <= x < cv.width as real && 0.0 <= y < cv.height as real
    requires Contains(SectionRect(cv, r, c), x, y)
    ensures Section(r, c) == GetSectionForPoint(cv, x, y)
  {
    AxisIndexUnique(x, cv.width, cv.cols, c);
    AxisIndexUnique(y, cv.height, cv.rows, r);
  }

  /**
   * Points off the canvas are not rejected: left of it they fall in the first
   * column, right of it in the last, and likewise for rows.
   */
  lemma OffCanvasSnapsToEdge(cv: Canvas, x: real, y: real)
    requires cv.WholePixelCells()
    ensures var s := GetSectionForPoint(cv, x, y);
      (x <= 0.0 ==> s.c == 0) && (cv.width as real <= x ==> s.c == cv.cols - 1) &&
      (y <= 0.0 ==> s.r == 0) && (cv.height as real <= y ==> s.r == cv.rows - 1)
  {
    if x <= 0.0 { AxisIndexFirst(x, cv.width, cv.cols); }
    if cv.width as real <= x { AxisIndexLast(x, cv.width, cv.cols); }
    if y <= 0.0 { AxisIndexFirst(y, cv.height, cv.rows); }
    if cv.height as real <= y { AxisIndexLast(y, cv.height, cv.rows); }
  }

  /**
   * The one-pixel clamp is why sections must be at least one pixel wide: on a
   * one-pixel canvas of two columns, the point 0.75 lies in the second
   * column, yet it is clamped to 0 and placed in the first.
   */
  lemma NarrowCellsMisplacePoints()
    ensures var cv := Canvas(1, 1, 1, 2);
      GetSectionForPoint(cv, 0.75, 0.0) == Section(0, 0) &&
      !Contains(SectionRect(cv, 0, 0), 0.75, 0.0) && Contains(SectionRect(cv, 0, 1), 0.75, 0.0)
  {
  }

  /** The corner and middle points of the default 1240 x 2438 canvas with 6 rows of 3. */
  lemma DefaultCanvasPoints()
    ensures var cv := Canvas(1240, 2438, 6, 3);
      GetSectionForPoint(cv, 0.0, 0.0) == Section(0, 0) &&
      GetSectionForPoint(cv, 1239.0, 2437.0) == Section(5, 2) &&
      GetSectionForPoint(cv, 620.0, 0.0) == Section(0, 1)
  {
  }

  // ---------- Rendering ----------

  /**
   * `renderSections`: the rectangle of every section, in the order the nested
   * loops over rows and then columns append them to the canvas.
   */
  method RenderSections(cv: Canvas) returns (cells: seq<Cell>)
    requires cv.Positive()
    ensures RowMajorGrid(cv, cells)
  {
    cells := [];
    for r := 0 to cv.rows
      invariant |cells| == r * cv.cols
      invariant forall i :: 0 <= i < |cells| ==> cells[i] == Cell(i / cv.cols, i % cv.cols, SectionRect(cv, i / cv.cols, i % cv.cols))
    {
      for c := 0 to cv.cols
        invariant |cells| == r * cv.cols + c
        invariant forall i :: 0 <= i < |cells| ==> cells[i] == Cell(i / cv.cols, i % cv.cols, SectionRect(cv, i / cv.cols, i % cv.cols))
      {
        RowMajorIndex(r, c, cv.cols);
        cells := cells + [Cell(r, c, SectionRect(cv, r, c))];
      }
    }
  }

  /**
   * Every drawn section lies inside the canvas and has the size of one grid
   * cell, `width / cols` by `height / rows`.
   */
  lemma GridInsideCanvas(cv: Canvas, cells: seq<Cell>, i: int)
    requires cv.Positive() && RowMajorGrid(cv, cells) && 0 <= i < |cells|
    ensures var rect := cells[i].rect;
      rect.w == cv.width as real / cv.cols as real && rect.h == cv.height as real / cv.rows as real &&
      0.0 <= rect.left && rect.left + rect.w <= cv.width as real &&
      0.0 <= rect.top && rect.top + rect.h <= cv.height as real
  {
    RowMajorSplit(i, cv.cols, cv.rows);
  }

  /** A section rectangle holding a point is the one the point's coordinates select by rounding down. */
  lemma ContainsMeansFloor(cv: Canvas, r: int, c: int, x: real, y: real)
    requires cv.Positive() && Contains(SectionRect(cv, r, c), x, y)
    ensures c == (x / cv.CellW()).Floor && r == (y / cv.CellH()).Floor
  {
    var w, h := cv.CellW(), cv.CellH();
    MulSuccessor(c, w);
    MulSuccessor(r, h);
    FloorInterval(x, w);
    FloorInterval(y, h);
    IntervalUnique(x, w, c, (x / w).Floor);
    IntervalUnique(y, h, r, (y / h).Floor);
  }

  /** Rounding a canvas point's coordinates down selects a section of the grid whose rectangle holds it. */
  lemma FloorSectionContains(cv: Canvas, x: real, y: real)
    requires cv.Positive()
    requires 0.0 <= x < cv.width as real && 0.0 <= y < cv.height as real
    ensures var c, r := (x / cv.CellW()).Floor, (y / cv.CellH()).Floor;
      0 <= r < cv.rows && 0 <= c < cv.cols && Contains(SectionRect(cv, r, c), x, y)
  {
    var w, h := cv.CellW(), cv.CellH();
    var c, r := (x / w).Floor, (y / h).Floor;
    FloorInterval(x, w);
    FloorInterval(y, h);
    PartsMakeWhole(cv.width as real, cv.cols as real);
    PartsMakeWhole(cv.height as real, cv.rows as real);
    IntervalIndexBounds(x, w, cv.cols, c);
    IntervalIndexBounds(y, h, cv.rows, r);
    MulSuccessor(c, w);
    MulSuccessor(r, h);
  }

  /** Every point of the canvas lies in some drawn section. */
  lemma GridCoversCanvas(cv: Canvas, cells: seq<Cell>, x: real, y: real)
    requires cv.Positive() && RowMajorGrid(cv, cells)
    requires 0.0 <= x < cv.width as real && 0.0 <= y < cv.height as real
    ensures exists i :: 0 <= i < |cells| && Contains(cells[i].rect, x, y)
  {
    var c, r := (x / cv.CellW()).Floor, (y / cv.CellH()).Floor;
    FloorSectionContains(cv, x, y);
    var i := r * cv.cols + c;
    RowMajorIndex(r, c, cv.cols);
    RowMajorBound(r, c, cv.cols, cv.rows);
    assert cells[i] == Cell(r, c, SectionRect(cv, r, c));
  }

  /** No point lies in two different drawn sections. */
  lemma GridCellsDisjoint(cv: Canvas, cells: seq<Cell>, x: real, y: real, i: int, j: int)
    requires cv.Positive() && RowMajorGrid(cv, cells)
    requires 0 <= i < |cells| && 0 <= j < |cells|
    requires Contains(cells[i].rect, x, y) && Contains(cells[j].rect, x, y)
    ensures i == j
  {
    RowMajorSplit(i, cv.cols, cv.rows);
    RowMajorSplit(j, cv.cols, cv.rows);
    ContainsMeansFloor(cv, i / cv.cols, i % cv.cols, x, y);
    ContainsMeansFloor(cv, j / cv.cols, j % cv.cols, x, y);
  }

  /**
   * The drawn sections tile the canvas: every point of `[0, width) x [0, height)`
   * lies in exactly one of them.
   */
  lemma GridTilesCanvas(cv: Canvas, cells: seq<Cell>, x: real, y: real)
    requires cv.Positive() && RowMajorGrid(cv, cells)
    requires 0.0 <= x < cv.width as real && 0.0 <= y < cv.height as real
    ensures exists i :: 0 <= i < |cells| && Contains(cells[i].rect, x, y)
    ensures forall i, j ::
      0 <= i < |cells| && 0 <= j < |cells| && Contains(cells[i].rect, x, y) && Contains(cells[j].rect, x, y)
      ==> i == j
  {
    GridCoversCanvas(cv, cells, x, y);
    forall i, j | 0 <= i < |cells| && 0 <= j < |cells| &&
      Contains(cells[i].rect, x, y) && Contains(cells[j].rect, x, y)
      ensures i == j
    {
      GridCellsDisjoint(cv, cells, x, y, i, j);
    }
  }

  /**
   * The section `GetSectionForPoint` picks for a point on the canvas is the
   * one `RenderSections` draws at position `r * cols + c`, and its rectangle
   * holds the point.
   */
  lemma PointLandsInDrawnCell(cv: Canvas, cells: seq<Cell>, x: real, y: real)
    requires cv.WholePixelCells() && RowMajorGrid(cv, cells)
    requires 0.0 <= x < cv.width as real && 0.0 <= y < cv.height as real
    ensures var s := GetSectionForPoint(cv, x, y); var i := s.r * cv.cols + s.c;
      0 <= i < |cells| && cells[i].r == s.r && cells[i].c == s.c && Contains(cells[i].rect, x, y)
  {
    var s := GetSectionForPoint(cv, x, y);
    SectionContainsPoint(cv, x, y);
    RowMajorIndex(s.r, s.c, cv.cols);
    RowMajorBound(s.r, s.c, cv.cols, cv.rows);
  }
}
