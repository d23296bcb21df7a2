/**
 * The ternary mix field: the canvas is walked patch by patch; each patch whose
 * centre lies inside the triangle is painted with the mix of the three colours at
 * that centre's clamped barycentric weights. A painted patch is emitted as a record
 * of its rectangle and the argument list given to the mixer.
 */
module TernaryField {
  import opened Numeric
  import opened Options
  import opened Geometry
  import opened Mixing
  import opened PatchGrid

  datatype Patch<C> = Patch(rect: Rect, args: seq<(C, real)>)

  /** The centre of a patch, where its colour is sampled. */
  function SampleCenter(r: Rect): Point
  {
    Point(r.x as real + r.w as real / 2.0, r.y as real + r.h as real / 2.0)
  }

  /** The weights at the centre of patch `r` on a `width` by `height` canvas. */
  function CenterWeights(width: nat, height: nat, r: Rect): (w: seq<real>)
    requires width >= 1 && height >= 1
    ensures |w| == 3 && w[0] + w[1] + w[2] == 1.0
  {
    CanvasWeights(width, height, SampleCenter(r))
  }

  /** What the field does with one patch: skip it, or paint it with the mix of the positive clamped weights. */
  function PatchAt<C>(width: nat, height: nat, colors: seq<C>, r: Rect): Option<Patch<C>>
    requires |colors| == 3 && width >= 1 && height >= 1
  {
    var w := CenterWeights(width, height, r);
    if !Inside(w) then None
    else
      var clamped := ClampNonNegative(w);
      if clamped[0] + clamped[1] + clamped[2] == 0.0 then None
      else Some(Patch(r, MixArgs(colors, clamped)))
  }

  /** The painted patches among `cells`, in order. */
  function FieldOf<C>(width: nat, height: nat, colors: seq<C>, cells: seq<Rect>): seq<Patch<C>>
    requires |colors| == 3 && width >= 1 && height >= 1
  {
    if |cells| == 0 then []
    else Emitted(PatchAt(width, height, colors, cells[0])) + FieldOf(width, height, colors, cells[1..])
  }

  /** A painted patch is emitted; a skipped one leaves nothing. */
  function Emitted<C>(o: Option<Patch<C>>): seq<Patch<C>>
  {
    match o
    case None => []
    case Some(p) => [p]
  }

  /**
   * A patch is painted exactly when its centre passes the inside test; a painted
   * patch keeps its rectangle and hands the mixer at least one colour, with weights
   * that are positive and add up to at least 1 (so the zero-total skip never fires).
   */
  lemma PatchAtIffInside<C>(width: nat, height: nat, colors: seq<C>, r: Rect)
    requires |colors| == 3 && width >= 1 && height >= 1
    ensures PatchAt(width, height, colors, r).Some? <==> Inside(CenterWeights(width, height, r))
    ensures PatchAt(width, height, colors, r).Some? ==>
              var p := PatchAt(width, height, colors, r).value;
              p.rect == r && |p.args| >= 1 &&
              (forall k :: 0 <= k < |p.args| ==> p.args[k].1 > 0.0) &&
              Sum(ArgWeights(p.args)) >= 1.0
  {
    var w := CenterWeights(width, height, r);
    var clamped := ClampNonNegative(w);
    ClampedSumAtLeast(w);
    ClampNonNegativeSpec(w);
    SumThree(w);
    SumThree(clamped);
    if Inside(w) {
      MixArgsWeightSum(colors, clamped);
      MixArgsNonEmpty(colors, clamped);
    }
  }

  /** Every emitted patch is the painting of one of the cells. */
  lemma {:induction false} FieldOfFromCells<C>(width: nat, height: nat, colors: seq<C>, cells: seq<Rect>)
    requires |colors| == 3 && width >= 1 && height >= 1
    ensures forall k :: 0 <= k < |FieldOf(width, height, colors, cells)| ==>
              exists j :: 0 <= j < |cells| && PatchAt(width, height, colors, cells[j]) == Some(FieldOf(width, height, colors, cells)[k])
  {
    if |cells| > 0 {
      FieldOfFromCells(width, height, colors, cells[1..]);
      var head := Emitted(PatchAt(width, height, colors, cells[0]));
      var f := FieldOf(width, height, colors, cells);
      var rest := FieldOf(width, height, colors, cells[1..]);
      assert f == head + rest;
      forall k | 0 <= k < |f|
        ensures exists j :: 0 <= j < |cells| && PatchAt(width, height, colors, cells[j]) == Some(f[k])
      {
        if k < |head| {
          assert PatchAt(width, height, colors, cells[0]).Some? && head == [PatchAt(width, height, colors, cells[0]).value];
          assert PatchAt(width, height, colors, cells[0]) == Some(f[k]);
        } else {
          assert f[k] == rest[k - |head|];
          var j :| 0 <= j < |cells[1..]| && PatchAt(width, height, colors, cells[1..][j]) == Some(rest[k - |head|]);
          assert cells[1..][j] == cells[j + 1];
          assert PatchAt(width, height, colors, cells[j + 1]) == Some(f[k]);
        }
      }
    } else {
      assert FieldOf(width, height, colors, cells) == [];
    }
  }

  /** Every cell that is painted shows up among the emitted patches. */
  lemma {:induction false} FieldOfComplete<C>(width: nat, height: nat, colors: seq<C>, cells: seq<Rect>)
    requires |colors| == 3 && width >= 1 && height >= 1
    ensures forall j :: 0 <= j < |cells| && PatchAt(width, height, colors, cells[j]).Some? ==>
              PatchAt(width, height, colors, cells[j]).value in FieldOf(width, height, colors, cells)
  {
    if |cells| > 0 {
      FieldOfComplete(width, height, colors, cells[1..]);
      var f := FieldOf(width, height, colors, cells);
      var rest := FieldOf(width, height, colors, cells[1..]);
      assert f == Emitted(PatchAt(width, height, colors, cells[0])) + rest;
      forall j | 1 <= j < |cells| && PatchAt(width, height, colors, cells[j]).Some?
        ensures PatchAt(width, height, colors, cells[j]).value in f
      {
        assert cells[1..][j - 1] == cells[j];
      }
    }
  }

  /** Emitted patches keep the order of their cells. */
  lemma {:induction false} FieldOfOrdered<C>(width: nat, height: nat, colors: seq<C>, cells: seq<Rect>)
    requires |colors| == 3 && width >= 1 && height >= 1
    requires forall i, j :: 0 <= i < j < |cells| ==> Before(cells[i], cells[j])
    ensures forall i, j :: 0 <= i < j < |FieldOf(width, height, colors, cells)| ==>
              Before(FieldOf(width, height, colors, cells)[i].rect, FieldOf(width, height, colors, cells)[j].rect)
  {
    if |cells| > 0 {
      var tail := cells[1..];
      assert forall i, j :: 0 <= i < j < |tail| ==> Before(tail[i], tail[j]) by {
        forall i, j | 0 <= i < j < |tail| ensures Before(tail[i], tail[j]) {
          assert tail[i] == cells[i + 1] && tail[j] == cells[j + 1];
        }
      }
      FieldOfOrdered(width, height, colors, tail);
      FieldOfFromCells(width, height, colors, tail);
      var head := Emitted(PatchAt(width, height, colors, cells[0]));
      var f := FieldOf(width, height, colors, cells);
      var rest := FieldOf(width, height, colors, tail);
      assert f == head + rest;
      forall i, j | 0 <= i < j < |f|
        ensures Before(f[i].rect, f[j].rect)
      {
        assert f[j] == rest[j - |head|];
        if i < |head| {
          var m :| 0 <= m < |tail| && PatchAt(width, height, colors, tail[m]) == Some(rest[j - |head|]);
          assert f[i].rect == cells[0] && f[j].rect == tail[m] == cells[m + 1];
        } else {
          assert f[i] == rest[i - |head|];
        }
      }
    }
  }

  /**
   * The field as a whole: each painted patch is a grid patch (inside the canvas and
   * clipped as the loop cuts it) whose centre passed the inside test; every grid
   * patch whose centre passes the test is painted; painted patches come in reading
   * order, so no pixel is painted twice.
   */
  lemma FieldSpec<C>(width: nat, height: nat, colors: seq<C>)
    requires |colors| == 3
    ensures forall k :: 0 <= k < |Field(width, height, colors)| ==>
              var r := Field(width, height, colors)[k].rect;
              r in Grid(width, height) && r.x + r.w <= width && r.y + r.h <= height &&
              Clipped(width, height, PatchStep(width), r) && Inside(CenterWeights(width, height, r))
    ensures forall r :: width >= 1 && height >= 1 && r in Grid(width, height) && Inside(CenterWeights(width, height, r)) ==>
              exists k :: 0 <= k < |Field(width, height, colors)| && Field(width, height, colors)[k].rect == r
    ensures forall i, j :: 0 <= i < j < |Field(width, height, colors)| ==>
              Before(Field(width, height, colors)[i].rect, Field(width, height, colors)[j].rect)
  {
    if width >= 1 && height >= 1 {
      var g := Grid(width, height);
      var f := Field(width, height, colors);
      GridTiles(width, height);
      GridOrdered(width, height, PatchStep(width), 0);
      FieldOfFromCells(width, height, colors, g);
      FieldOfComplete(width, height, colors, g);
      FieldOfOrdered(width, height, colors, g);
      forall k | 0 <= k < |f|
        ensures f[k].rect in g && Inside(CenterWeights(width, height, f[k].rect))
      {
        var j :| 0 <= j < |g| && PatchAt(width, height, colors, g[j]) == Some(f[k]);
        PatchAtIffInside(width, height, colors, g[j]);
      }
      forall r | r in g && Inside(CenterWeights(width, height, r))
        ensures exists k :: 0 <= k < |f| && f[k].rect == r
      {
        PatchAtIffInside(width, height, colors, r);
        var p := PatchAt(width, height, colors, r).value;
        assert p in f;
        var k :| 0 <= k < |f| && f[k] == p;
      }
    }
  }

  /** Patches in reading order share no pixel. */
  lemma BeforeDisjoint(a: Rect, b: Rect, px: int, py: int)
    requires Before(a, b)
    ensures !(Contains(a, px, py) && Contains(b, px, py))
  {
  }

  /** No pixel is painted by two patches of the field. */
  lemma FieldNoOverlap<C>(width: nat, height: nat, colors: seq<C>)
    requires |colors| == 3
    ensures forall i, j, px, py :: 0 <= i < j < |Field(width, height, colors)| && Contains(Field(width, height, colors)[i].rect, px, py) ==>
              !Contains(Field(width, height, colors)[j].rect, px, py)
  {
    var f := Field(width, height, colors);
    FieldSpec(width, height, colors);
    forall i, j, px, py | 0 <= i < j < |f| && Contains(f[i].rect, px, py)
      ensures !Contains(f[j].rect, px, py)
    {
      BeforeDisjoint(f[i].rect, f[j].rect, px, py);
    }
  }

  /** One step of the inner loop: the patches of row y from column x on are the patch at x, then those from x + step on. */
  lemma RowStep<C>(width: nat, height: nat, colors: seq<C>, step: nat, x: nat, y: nat)
    requires |colors| == 3 && width >= 1 && height >= 1 && step >= 1 && x < width && y < height
    ensures FieldOf(width, height, colors, Row(width, height, step, x, y))
         == Emitted(PatchAt(width, height, colors, Rect(x, y, MinInt(step, width - x), MinInt(step, height - y))))
            + FieldOf(width, height, colors, Row(width, height, step, x + step, y))
  {
    var cell := Rect(x, y, MinInt(step, width - x), MinInt(step, height - y));
    var rest := Row(width, height, step, x + step, y);
    assert Row(width, height, step, x, y) == [cell] + rest;
    assert ([cell] + rest)[1..] == rest;
  }

  /** One step of the outer loop: the patches from row y on are those of row y, then those from row y + step on. */
  lemma RowsStep<C>(width: nat, height: nat, colors: seq<C>, step: nat, y: nat)
    requires |colors| == 3 && width >= 1 && height >= 1 && step >= 1 && y < height
    ensures FieldOf(width, height, colors, GridFrom(width, height, step, y))
         == FieldOf(width, height, colors, Row(width, height, step, 0, y))
            + FieldOf(width, height, colors, GridFrom(width, height, step, y + step))
  {
    var later := GridFrom(width, height, step, y + step);
    assert GridFrom(width, height, step, y) == Row(width, height, step, 0, y) + later;
    FieldOfAppend(width, height, colors, Row(width, height, step, 0, y), later);
  }

  lemma {:induction false} FieldOfAppend<C>(width: nat, height: nat, colors: seq<C>, a: seq<Rect>, b: seq<Rect>)
    requires |colors| == 3 && width >= 1 && height >= 1
    ensures FieldOf(width, height, colors, a + b) == FieldOf(width, height, colors, a) + FieldOf(width, height, colors, b)
  {
    if |a| > 0 {
      assert (a + b)[1..] == a[1..] + b;
      FieldOfAppend(width, height, colors, a[1..], b);
      AppendAssoc(Emitted(PatchAt(width, height, colors, a[0])), FieldOf(width, height, colors, a[1..]), FieldOf(width, height, colors, b));
    } else {
      assert a + b == b;
    }
  }

  /** The whole field: the painted patches of the grid; nothing on an empty canvas. */
  function Field<C>(width: nat, height: nat, colors: seq<C>): seq<Patch<C>>
    requires |colors| == 3
  {
    if width == 0 || height == 0 then [] else FieldOf(width, height, colors, Grid(width, height))
  }

  lemma AppendAssoc<T>(a: seq<T>, b: seq<T>, c: seq<T>)
    ensures (a + b) + c == a + (b + c)
  {
  }

  /**
   * The work done for one patch: sample its centre; skip it if a weight there is
   * below -0.001; otherwise clamp the weights and paint it with the colours of
   * positive weight (skipping it, too, should the clamped total be 0).
   */
  method PaintPatch<C>(width: nat, height: nat, colors: seq<C>, cell: Rect) returns (painted: seq<Patch<C>>)
    requires |colors| == 3 && width >= 1 && height >= 1
    ensures painted == Emitted(PatchAt(width, height, colors, cell))
  {
    painted := [];
    var sampleX := cell.x as real + cell.w as real / 2.0;
    var sampleY := cell.y as real + cell.h as real / 2.0;
    CanvasDenom(width, height);
    var w := WeightsAt(CanvasTriangle(width, height), Point(sampleX, sampleY));
    assert w == CenterWeights(width, height, cell);
    if !(w[0] < -Tolerance || w[1] < -Tolerance || w[2] < -Tolerance) {
      var weights := ClampNonNegative(w);
      var totalWeight := weights[0] + weights[1] + weights[2];
      if totalWeight != 0.0 {
        var mixArgs := MixArgs(colors, weights);
        painted := [Patch(cell, mixArgs)];
      }
    }
  }

  /** The inner loop of the patch walk: one row of patches at `y`, left to right. */
  method RasterizeRow<C>(width: nat, height: nat, colors: seq<C>, step: nat, y: nat) returns (row: seq<Patch<C>>)
    requires |colors| == 3 && width >= 1 && height >= 1 && step >= 1 && y < height
    ensures row == FieldOf(width, height, colors, Row(width, height, step, 0, y))
  {
    row := [];
    var patchHeight := MinInt(step, height - y);
    var x: nat := 0;
    while x < width
      invariant row + FieldOf(width, height, colors, Row(width, height, step, x, y))
             == FieldOf(width, height, colors, Row(width, height, step, 0, y))
      decreases width - x
    {
      var patchWidth := MinInt(step, width - x);
      var cell := Rect(x, y, patchWidth, patchHeight);
      RowStep(width, height, colors, step, x, y);
      ghost var before := row;
      var painted := PaintPatch(width, height, colors, cell);
      row := row + painted;
      AppendAssoc(before, painted, FieldOf(width, height, colors, Row(width, height, step, x + step, y)));
      x := x + step;
    }
  }

  /**
   * The patch walk: rows of patches from the top, each row from the left; a patch
   * whose centre has a weight below -0.001 is skipped, otherwise it is painted with
   * the colours of positive clamped weight.
   */
  method Rasterize<C>(width: nat, height: nat, colors: seq<C>) returns (patches: seq<Patch<C>>)
    requires |colors| == 3
    ensures patches == Field(width, height, colors)
  {
    patches := [];
    var step := PatchStep(width);
    ghost var all := if width >= 1 && height >= 1 then FieldOf(width, height, colors, GridFrom(width, height, step, 0)) else [];
    var y: nat := 0;
    while y < height
      invariant width >= 1 && height >= 1 ==> patches + FieldOf(width, height, colors, GridFrom(width, height, step, y)) == all
      invariant width == 0 || height == 0 ==> patches == []
      decreases height - y
    {
      if width >= 1 {
        var row := RasterizeRow(width, height, colors, step, y);
        RowsStep(width, height, colors, step, y);
        AppendAssoc(patches, row, FieldOf(width, height, colors, GridFrom(width, height, step, y + step)));
        patches := patches + row;
      }
      y := y + step;
    }
    if width >= 1 && height >= 1 {
      assert GridFrom(width, height, step, y) == [];
      assert patches == all;
    }
    if width == 0 {
      EmptyCanvasNoPatch(width, height);
    }
  }
}
