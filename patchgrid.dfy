/**
 * The square patch grid over which the ternary field is sampled: a canvas of
 * `width` by `height` pixels is walked in rows from the top, each row from the
 * left, in squares of side `PatchStep(width)`, clipped at the right and bottom edges.
 */
module PatchGrid {
  import opened Numeric

  /** An axis-aligned rectangle of pixels: left, top, width, height. */
  datatype Rect = Rect(x: nat, y: nat, w: nat, h: nat)

  /** The number of patches aimed for across the canvas width. */
  const PatchesAcross: nat := 250

  /** The patch side, `Math.max(1, Math.floor(width / 250))`. */
  function PatchStep(width: nat): (s: nat)
    ensures s >= 1
    ensures width >= PatchesAcross ==> s == width / PatchesAcross && s * PatchesAcross <= width
    ensures width < 2 * PatchesAcross ==> s == 1
  {
    MaxInt(1, width / PatchesAcross)
  }

  /** The patches of the row at `y`, from column `x` to the right edge. */
  function Row(width: nat, height: nat, step: nat, x: nat, y: nat): seq<Rect>
    requires step >= 1 && y < height
    decreases width - x
  {
    if x >= width then []
    else [Rect(x, y, MinInt(step, width - x), MinInt(step, height - y))] + Row(width, height, step, x + step, y)
  }

  /** The patches of the rows from `y` down to the bottom edge, row after row. */
  function GridFrom(width: nat, height: nat, step: nat, y: nat): seq<Rect>
    requires step >= 1
    decreases height - y
  {
    if y >= height then []
    else Row(width, height, step, 0, y) + GridFrom(width, height, step, y + step)
  }

  /** Every patch of the canvas, in the order the field loop visits them. */
  function Grid(width: nat, height: nat): seq<Rect>
  {
    GridFrom(width, height, PatchStep(width), 0)
  }

  predicate InColumn(r: Rect, px: int)
  {
    r.x <= px < r.x + r.w
  }

  predicate Contains(r: Rect, px: int, py: int)
  {
    r.x <= px < r.x + r.w && r.y <= py < r.y + r.h
  }

  /** Some cell holds pixel (px, py). */
  ghost predicate Covered(cells: seq<Rect>, px: int, py: int)
  {
    exists k :: 0 <= k < |cells| && Contains(cells[k], px, py)
  }

  /** Some cell spans column px. */
  ghost predicate ColumnCovered(cells: seq<Rect>, px: int)
  {
    exists k :: 0 <= k < |cells| && InColumn(cells[k], px)
  }

  /** A patch as the loop cuts it: a full square, or clipped to what remains of the width and the height. */
  predicate Clipped(width: nat, height: nat, step: nat, r: Rect)
  {
    r.w == MinInt(step, width - r.x) && r.h == MinInt(step, height - r.y) &&
    1 <= r.w <= step && 1 <= r.h <= step
  }

  /**
   * `cells` tile the canvas exactly: each lies inside it, every pixel of it lies in
   * some cell, and no pixel lies in two cells.
   */
  ghost predicate Tiles(width: nat, height: nat, cells: seq<Rect>)
  {
    (forall k :: 0 <= k < |cells| ==> cells[k].x + cells[k].w <= width && cells[k].y + cells[k].h <= height) &&
    (forall px, py :: 0 <= px < width && 0 <= py < height ==> Covered(cells, px, py)) &&
    (forall i, j, px, py ::
       (0 <= i < |cells| && 0 <= j < |cells| && Contains(cells[i], px, py) && Contains(cells[j], px, py)) ==> i == j)
  }

  lemma {:induction false} RowFacts(width: nat, height: nat, step: nat, x0: nat, y: nat)
    requires step >= 1 && y < height
    ensures forall k :: 0 <= k < |Row(width, height, step, x0, y)| ==>
              var r := Row(width, height, step, x0, y)[k];
              x0 <= r.x && r.x + r.w <= width && r.y == y && Clipped(width, height, step, r)
    ensures forall i, j :: 0 <= i < j < |Row(width, height, step, x0, y)| ==>
              Row(width, height, step, x0, y)[i].x + Row(width, height, step, x0, y)[i].w <= Row(width, height, step, x0, y)[j].x
    ensures forall px :: x0 <= px < width ==> ColumnCovered(Row(width, height, step, x0, y), px)
    decreases width - x0
  {
    if x0 < width {
      RowFacts(width, height, step, x0 + step, y);
      var row := Row(width, height, step, x0, y);
      var rest := Row(width, height, step, x0 + step, y);
      var first := Rect(x0, y, MinInt(step, width - x0), MinInt(step, height - y));
      assert row == [first] + rest;
      forall px | x0 <= px < width
        ensures ColumnCovered(row, px)
      {
        if px < x0 + step {
          assert InColumn(row[0], px);
        } else {
          assert ColumnCovered(rest, px);
          var k :| 0 <= k < |rest| && InColumn(rest[k], px);
          assert row[k + 1] == rest[k];
          assert InColumn(row[k + 1], px);
        }
      }
    }
  }

  lemma {:induction false} GridShape(width: nat, height: nat, step: nat, y0: nat)
    requires step >= 1
    ensures forall k :: 0 <= k < |GridFrom(width, height, step, y0)| ==>
              var r := GridFrom(width, height, step, y0)[k];
              y0 <= r.y && r.x + r.w <= width && r.y + r.h <= height && Clipped(width, height, step, r)
    decreases height - y0
  {
    if y0 < height {
      GridShape(width, height, step, y0 + step);
      RowFacts(width, height, step, 0, y0);
      var grid := GridFrom(width, height, step, y0);
      var row := Row(width, height, step, 0, y0);
      var rest := GridFrom(width, height, step, y0 + step);
      assert grid == row + rest;
      forall k | 0 <= k < |grid|
        ensures y0 <= grid[k].y && grid[k].x + grid[k].w <= width && grid[k].y + grid[k].h <= height
        ensures Clipped(width, height, step, grid[k])
      {
        if k < |row| {
          assert grid[k] == row[k];
        } else {
          assert grid[k] == rest[k - |row|];
        }
      }
    }
  }

  /** Patches come in reading order: left to right within a row, rows top to bottom. */
  ghost predicate Before(a: Rect, b: Rect)
  {
    (a.y == b.y && a.x + a.w <= b.x) || a.y + a.h <= b.y
  }

  lemma {:induction false} GridOrdered(width: nat, height: nat, step: nat, y0: nat)
    requires step >= 1
    ensures forall i, j :: 0 <= i < j < |GridFrom(width, height, step, y0)| ==>
              Before(GridFrom(width, height, step, y0)[i], GridFrom(width, height, step, y0)[j])
    decreases height - y0
  {
    if y0 < height {
      GridOrdered(width, height, step, y0 + step);
      GridShape(width, height, step, y0 + step);
      RowFacts(width, height, step, 0, y0);
      var grid := GridFrom(width, height, step, y0);
      var row := Row(width, height, step, 0, y0);
      var rest := GridFrom(width, height, step, y0 + step);
      assert grid == row + rest;
      forall i, j | 0 <= i < j < |grid|
        ensures Before(grid[i], grid[j])
      {
        if j < |row| {
          assert grid[i] == row[i] && grid[j] == row[j];
        } else if i < |row| {
          assert grid[i] == row[i] && grid[j] == rest[j - |row|];
        } else {
          assert grid[i] == rest[i - |row|] && grid[j] == rest[j - |row|];
        }
      }
    }
  }

  lemma {:induction false} GridCovers(width: nat, height: nat, step: nat, y0: nat)
    requires step >= 1
    ensures forall px, py :: 0 <= px < width && y0 <= py < height ==> Covered(GridFrom(width, height, step, y0), px, py)
    decreases height - y0
  {
    if y0 < height {
      GridCovers(width, height, step, y0 + step);
      RowFacts(width, height, step, 0, y0);
      var grid := GridFrom(width, height, step, y0);
      var row := Row(width, height, step, 0, y0);
      var rest := GridFrom(width, height, step, y0 + step);
      assert grid == row + rest;
      forall px, py | 0 <= px < width && y0 <= py < height
        ensures Covered(grid, px, py)
      {
        if py < y0 + step {
          assert ColumnCovered(row, px);
          var k :| 0 <= k < |row| && InColumn(row[k], px);
          assert grid[k] == row[k];
          assert Contains(grid[k], px, py);
        } else {
          assert Covered(rest, px, py);
          var k :| 0 <= k < |rest| && Contains(rest[k], px, py);
          assert grid[|row| + k] == rest[k];
          assert Contains(grid[|row| + k], px, py);
        }
      }
    }
  }

  /** The patches, each clipped as the loop cuts it, tile the canvas with no gap and no overlap. */
  lemma GridTiles(width: nat, height: nat)
    ensures Tiles(width, height, Grid(width, height))
    ensures forall k :: 0 <= k < |Grid(width, height)| ==> Clipped(width, height, PatchStep(width), Grid(width, height)[k])
  {
    var g := Grid(width, height);
    GridShape(width, height, PatchStep(width), 0);
    GridOrdered(width, height, PatchStep(width), 0);
    GridCovers(width, height, PatchStep(width), 0);
  }

  /** A canvas with no width or no height has no patch. */
  lemma EmptyCanvasNoPatch(width: nat, height: nat)
    requires width == 0 || height == 0
    ensures Grid(width, height) == []
  {
    if height > 0 {
      assert Row(width, height, PatchStep(width), 0, 0) == [];
      assert GridFrom(width, height, PatchStep(width), PatchStep(width)) == [] by {
        EmptyRowsFrom(width, height, PatchStep(width), PatchStep(width));
      }
    }
  }

  lemma {:induction false} EmptyRowsFrom(width: nat, height: nat, step: nat, y: nat)
    requires width == 0 && step >= 1
    ensures GridFrom(width, height, step, y) == []
    decreases height - y
  {
    if y < height {
      EmptyRowsFrom(width, height, step, y + step);
    }
  }
}
