/** Geometry of a space: outputs laid out side by side (shell.rs), the pointer kept on them
    (input_handler.rs), and the grid of window previews (render.rs). */
module Tiling {
  import opened Common

  datatype MappedOutput = MappedOutput(id: nat, rect: Rect)

  type Outputs = seq<MappedOutput>

  ghost predicate SizesOk(outputs: Outputs) {
    forall i :: 0 <= i < |outputs| ==> outputs[i].rect.size.w >= 0 && outputs[i].rect.size.h > 0
  }

  function TotalWidth(outputs: Outputs): int {
    if outputs == [] then 0
    else TotalWidth(outputs[..|outputs| - 1]) + outputs[|outputs| - 1].rect.size.w
  }

  /** Every output starts where the ones before it end, at the top. */
  ghost predicate Tiled(outputs: Outputs) {
    forall i :: 0 <= i < |outputs| ==> outputs[i].rect.loc == Point(TotalWidth(outputs[..i]), 0)
  }

  ghost predicate SameButLocations(a: Outputs, b: Outputs) {
    |a| == |b| && forall i :: 0 <= i < |a| ==> a[i].id == b[i].id && a[i].rect.size == b[i].rect.size
  }

  class Space {
    var outputs: Outputs

    constructor (given: Outputs)
      ensures outputs == given
    {
      outputs := given;
    }

    /** The output part of the position fix-up. */
    method FixupOutputs()
      modifies this
      ensures Tiled(outputs) && SameButLocations(old(outputs), outputs)
    {
      var offset := Point(0, 0);
      ghost var was := outputs;
      for i := 0 to |outputs|
        invariant SameButLocations(was, outputs)
        invariant forall k :: 0 <= k < i ==> outputs[k].rect.loc == Point(TotalWidth(was[..k]), 0)
        invariant offset == Point(TotalWidth(was[..i]), 0)
      {
        assert was[..i + 1][..i] == was[..i];
        var rect := outputs[i].rect;
        outputs := outputs[i := outputs[i].(rect := rect.(loc := offset))];
        offset := offset.(x := offset.x + rect.size.w);
      }
      forall k | 0 <= k < |outputs|
        ensures outputs[k].rect.loc == Point(TotalWidth(outputs[..k]), 0)
      {
        SameTotals(was[..k], outputs[..k]);
      }
    }
  }

  lemma {:induction false} SameTotals(a: Outputs, b: Outputs)
    requires SameButLocations(a, b)
    ensures TotalWidth(a) == TotalWidth(b)
  {
    if a != [] { SameTotals(a[..|a| - 1], b[..|b| - 1]); }
  }

  lemma {:induction false} TotalWidthGrows(outputs: Outputs, i: nat, j: nat)
    requires SizesOk(outputs) && i <= j <= |outputs|
    ensures 0 <= TotalWidth(outputs[..i]) <= TotalWidth(outputs[..j])
    decreases j
  {
    if i < j {
      TotalWidthGrows(outputs, i, j - 1);
      assert outputs[..j][..j - 1] == outputs[..j - 1];
    } else if i > 0 {
      TotalWidthGrows(outputs, i - 1, j - 1);
      assert outputs[..j][..j - 1] == outputs[..j - 1];
    }
  }

  lemma RightEdge(outputs: Outputs, i: nat)
    requires Tiled(outputs) && i < |outputs|
    ensures outputs[i].rect.loc.x + outputs[i].rect.size.w == TotalWidth(outputs[..i + 1])
  {
    assert outputs[..i + 1][..i] == outputs[..i];
  }

  ghost predicate Covered(outputs: Outputs, x: int) {
    exists i :: 0 <= i < |outputs| && outputs[i].rect.Contains(Point(x, 0))
  }

  /** Tiled outputs do not overlap, and together they cover exactly the columns from 0 to their total width. */
  lemma TilesPartitionColumns(outputs: Outputs)
    requires Tiled(outputs) && SizesOk(outputs)
    ensures forall i, j :: 0 <= i < j < |outputs| ==>
                             outputs[i].rect.loc.x + outputs[i].rect.size.w <= outputs[j].rect.loc.x
    ensures forall x: int :: 0 <= x < TotalWidth(outputs) <==> Covered(outputs, x)
  {
    forall i, j | 0 <= i < j < |outputs|
      ensures outputs[i].rect.loc.x + outputs[i].rect.size.w <= outputs[j].rect.loc.x
    {
      RightEdge(outputs, i);
      TotalWidthGrows(outputs, i + 1, j);
    }
    assert outputs[..|outputs|] == outputs;
    forall x: int
      ensures 0 <= x < TotalWidth(outputs) <==> Covered(outputs, x)
    {
      if 0 <= x < TotalWidth(outputs) {
        var i := ColumnOwner(outputs, x, |outputs|);
        assert outputs[i].rect.Contains(Point(x, 0));
      } else if Covered(outputs, x) {
        var i :| 0 <= i < |outputs| && outputs[i].rect.Contains(Point(x, 0));
        RightEdge(outputs, i);
        TotalWidthGrows(outputs, i, i);
        TotalWidthGrows(outputs, i + 1, |outputs|);
      }
    }
  }

  lemma ColumnOwner(outputs: Outputs, x: int, n: nat) returns (i: nat)
    requires Tiled(outputs) && SizesOk(outputs) && n <= |outputs| && 0 <= x < TotalWidth(outputs[..n])
    ensures i < n && outputs[i].rect.Contains(Point(x, 0))
    decreases n
  {
    assert outputs[..n][..n - 1] == outputs[..n - 1];
    if x < TotalWidth(outputs[..n - 1]) {
      i := ColumnOwner(outputs, x, n - 1);
    } else {
      i := n - 1;
      RightEdge(outputs, n - 1);
    }
  }

  // Keeping the pointer on the outputs

  function Clamp(v: real, low: real, high: real): real {
    if v < low then low else if v > high then high else v
  }

  function FirstAt(outputs: Outputs, p: Point<int>): (r: Option<MappedOutput>)
    ensures r.Some? ==> r.value in outputs && r.value.rect.Contains(p)
    ensures r.None? <==> forall i :: 0 <= i < |outputs| ==> !outputs[i].rect.Contains(p)
  {
    if outputs == [] then None
    else if outputs[0].rect.Contains(p) then Some(outputs[0])
    else FirstAt(outputs[1..], p)
  }

  function ClampCoords(outputs: Outputs, pos: Point<real>): Point<real> {
    if outputs == [] then pos
    else
      var x := Clamp(pos.x, 0.0, TotalWidth(outputs) as real);
      match FirstAt(outputs, Point(Truncate(x), 0))
      case Some(o) => Point(x, Clamp(pos.y, 0.0, o.rect.size.h as real))
      case None => Point(x, pos.y)
  }

  ghost predicate OnSomeOutput(outputs: Outputs, p: Point<real>) {
    exists i :: 0 <= i < |outputs| && outputs[i].rect.ContainsClosed(p)
  }

  lemma ClampIsIdempotent(outputs: Outputs, pos: Point<real>)
    requires SizesOk(outputs)
    ensures ClampCoords(outputs, ClampCoords(outputs, pos)) == ClampCoords(outputs, pos)
  {
    TotalWidthGrows(outputs, 0, |outputs|);
    assert outputs[..|outputs|] == outputs;
  }

  /** On tiled outputs the clamped point is on some output, unless it is at or beyond the right end: there the
      vertical coordinate passes through unclamped, so it is on an output if and only if it already fits one
      that ends there. */
  lemma ClampLandsOnOutput(outputs: Outputs, pos: Point<real>)
    requires Tiled(outputs) && SizesOk(outputs) && outputs != []
    ensures var total := TotalWidth(outputs);
            var inside := 0 < total && pos.x < total as real;
            && (!inside ==> ClampCoords(outputs, pos) == Point(total as real, pos.y))
            && (OnSomeOutput(outputs, ClampCoords(outputs, pos)) <==> inside || FitsAtEnd(outputs, pos.y))
  {
    TotalWidthGrows(outputs, 0, |outputs|);
    assert outputs[..|outputs|] == outputs;
    TilesPartitionColumns(outputs);
    if 0 < TotalWidth(outputs) && pos.x < TotalWidth(outputs) as real {
      ClampInsideLands(outputs, pos);
    } else {
      EdgeIsEnd(outputs, pos.y);
    }
  }

  /** Clamping does no more than it must: a point over the columns of an output only moves vertically, onto
      that output, and a point left of all outputs moves to their left edge first. */
  lemma ClampMovesStraight(outputs: Outputs, pos: Point<real>, i: nat)
    requires Tiled(outputs) && SizesOk(outputs) && i < |outputs|
    requires var rect := outputs[i].rect; rect.loc.x as real <= pos.x < (rect.loc.x + rect.size.w) as real
    ensures ClampCoords(outputs, pos) == Point(pos.x, Clamp(pos.y, 0.0, outputs[i].rect.size.h as real))
    ensures forall x :: x < 0.0 ==> ClampCoords(outputs, Point(x, pos.y)) == ClampCoords(outputs, Point(0.0, pos.y))
  {
    var column := Truncate(pos.x);
    RightEdge(outputs, i);
    TotalWidthGrows(outputs, 0, i);
    TotalWidthGrows(outputs, i + 1, |outputs|);
    assert outputs[..|outputs|] == outputs;
    assert column as real <= pos.x < column as real + 1.0;
    OwnerIsUnique(outputs, i, column);
  }

  lemma OwnerIsUnique(outputs: Outputs, i: nat, column: int)
    requires Tiled(outputs) && SizesOk(outputs) && i < |outputs|
    requires var rect := outputs[i].rect; rect.loc.x <= column < rect.loc.x + rect.size.w
    ensures FirstAt(outputs, Point(column, 0)) == Some(outputs[i])
  {
    assert outputs[i].rect.Contains(Point(column, 0));
    TilesPartitionColumns(outputs);
    var o := FirstAt(outputs, Point(column, 0)).value;
    var k :| 0 <= k < |outputs| && outputs[k] == o;
    assert k == i;
  }

  /** Some output ends at the right end and is tall enough for `y`. */
  ghost predicate FitsAtEnd(outputs: Outputs, y: real) {
    exists i :: 0 <= i < |outputs| && outputs[i].rect.loc.x + outputs[i].rect.size.w == TotalWidth(outputs)
                && 0.0 <= y <= outputs[i].rect.size.h as real
  }

  lemma ClampInsideLands(outputs: Outputs, pos: Point<real>)
    requires Tiled(outputs) && SizesOk(outputs)
    requires 0 < TotalWidth(outputs) && pos.x < TotalWidth(outputs) as real
    ensures OnSomeOutput(outputs, ClampCoords(outputs, pos))
  {
    var x := Clamp(pos.x, 0.0, TotalWidth(outputs) as real);
    var column := Truncate(x);
    assert column as real <= x < column as real + 1.0 && 0 <= column < TotalWidth(outputs);
    assert Covered(outputs, column) by { TilesPartitionColumns(outputs); }
    var o := FirstAt(outputs, Point(column, 0)).value;
    var i :| 0 <= i < |outputs| && outputs[i] == o;
    ClosedAround(o.rect, column, x, Clamp(pos.y, 0.0, o.rect.size.h as real));
  }

  lemma ClosedAround(rect: Rect, column: int, x: real, y: real)
    requires rect.Contains(Point(column, 0)) && rect.loc.y == 0
    requires column as real <= x < column as real + 1.0 && 0.0 <= y <= rect.size.h as real
    ensures rect.ContainsClosed(Point(x, y))
  {
  }

  lemma EdgeIsEnd(outputs: Outputs, y: real)
    requires Tiled(outputs) && SizesOk(outputs)
    ensures OnSomeOutput(outputs, Point(TotalWidth(outputs) as real, y)) <==> FitsAtEnd(outputs, y)
  {
    var total := TotalWidth(outputs);
    assert outputs[..|outputs|] == outputs;
    forall i | 0 <= i < |outputs|
      ensures outputs[i].rect.ContainsClosed(Point(total as real, y)) <==>
              outputs[i].rect.loc.x + outputs[i].rect.size.w == total && 0.0 <= y <= outputs[i].rect.size.h as real
    {
      RightEdge(outputs, i);
      TotalWidthGrows(outputs, i + 1, |outputs|);
      TotalWidthGrows(outputs, i, |outputs|);
    }
  }

  // Outputs placed anywhere

  /** The columns of the range the pointer is kept in, its right end included. */
  predicate InRange(outputs: Outputs, column: int) { 0 <= column <= TotalWidth(outputs) }

  /** The point lies in the column, and in the range the pointer is kept in. */
  predicate InColumn(outputs: Outputs, p: Point<real>, column: int) {
    column as real <= p.x < column as real + 1.0 && p.x <= TotalWidth(outputs) as real
  }

  /** The column has an output across the top row, and wherever in it that output ends before its own height,
      since it begins above the top row, others fill the rest. */
  ghost predicate ReachesDown(outputs: Outputs, column: int) {
    var o := FirstAt(outputs, Point(column, 0));
    && o.Some?
    && forall p: Point<real> | InColumn(outputs, p, column) ::
         (o.value.rect.loc.y + o.value.rect.size.h) as real < p.y <= o.value.rect.size.h as real ==>
           OnSomeOutput(outputs, p)
  }

  /** A row below all outputs. */
  function Below(outputs: Outputs): (y: int)
    ensures forall i :: 0 <= i < |outputs| ==> outputs[i].rect.loc.y + outputs[i].rect.size.h < y
  {
    if outputs == [] then 0
    else
      var n := |outputs| - 1;
      assert outputs == outputs[..n] + [outputs[n]];
      Max(Below(outputs[..n]), outputs[n].rect.loc.y + outputs[n].rect.size.h + 1)
  }

  lemma ClampLandsInColumn(outputs: Outputs, pos: Point<real>)
    requires SizesOk(outputs) && outputs != []
    requires forall column :: InRange(outputs, column) ==> ReachesDown(outputs, column)
    ensures OnSomeOutput(outputs, ClampCoords(outputs, pos))
  {
    TotalWidthGrows(outputs, 0, |outputs|);
    assert outputs[..|outputs|] == outputs;
    var x := Clamp(pos.x, 0.0, TotalWidth(outputs) as real);
    var column := Truncate(x);
    assert column as real <= x < column as real + 1.0;
    assert InRange(outputs, column);
    var o := FirstAt(outputs, Point(column, 0)).value;
    var p := ClampCoords(outputs, pos);
    assert p.x == x && 0.0 <= p.y <= o.rect.size.h as real && InColumn(outputs, p, column);
    if p.y <= (o.rect.loc.y + o.rect.size.h) as real {
      var i :| 0 <= i < |outputs| && outputs[i] == o;
      ContainsColumn(o.rect, p, column);
    }
  }

  lemma ContainsColumn(rect: Rect, p: Point<real>, column: int)
    requires rect.Contains(Point(column, 0)) && column as real <= p.x < column as real + 1.0
    requires 0.0 <= p.y <= (rect.loc.y + rect.size.h) as real
    ensures rect.ContainsClosed(p)
  {
  }

  lemma GapIsMissed(outputs: Outputs, column: int)
    requires SizesOk(outputs) && outputs != [] && InRange(outputs, column) && !ReachesDown(outputs, column)
    ensures exists pos :: !OnSomeOutput(outputs, ClampCoords(outputs, pos))
  {
    var o := FirstAt(outputs, Point(column, 0));
    if o.None? {
      var pos := Point(column as real, Below(outputs) as real);
      assert Truncate(pos.x) == column && ClampCoords(outputs, pos) == pos;
      assert !OnSomeOutput(outputs, pos);
    } else {
      var rect := o.value.rect;
      var p: Point<real> :| InColumn(outputs, p, column) && !OnSomeOutput(outputs, p)
                            && (rect.loc.y + rect.size.h) as real < p.y <= rect.size.h as real;
      assert Truncate(p.x) == column && p.y >= 0.0;
      assert ClampCoords(outputs, p) == p;
    }
  }

  /** However the outputs are placed: clamping takes every point onto some output if and only if every column
      of the range has an output across the top row that reaches down its own height. */
  lemma EveryPointLandsIff(outputs: Outputs)
    requires SizesOk(outputs) && outputs != []
    ensures (forall pos :: OnSomeOutput(outputs, ClampCoords(outputs, pos)))
            <==> forall column :: InRange(outputs, column) ==> ReachesDown(outputs, column)
  {
    if forall column :: InRange(outputs, column) ==> ReachesDown(outputs, column) {
      forall pos
        ensures OnSomeOutput(outputs, ClampCoords(outputs, pos))
      {
        ClampLandsInColumn(outputs, pos);
      }
    } else {
      var column :| InRange(outputs, column) && !ReachesDown(outputs, column);
      GapIsMissed(outputs, column);
    }
  }

  /** A row of outputs side by side never meets this: at its right end some point is missed. */
  lemma TiledOutputsMissAPoint(outputs: Outputs)
    requires Tiled(outputs) && SizesOk(outputs) && outputs != []
    ensures exists pos :: !OnSomeOutput(outputs, ClampCoords(outputs, pos))
  {
    TilesPartitionColumns(outputs);
    TotalWidthGrows(outputs, 0, |outputs|);
    assert outputs[..|outputs|] == outputs;
    var end := TotalWidth(outputs);
    var found := FirstAt(outputs, Point(end, 0));
    if found.Some? {
      var i :| 0 <= i < |outputs| && outputs[i] == found.value;
      assert Covered(outputs, end);
    }
    assert InRange(outputs, end) && !ReachesDown(outputs, end);
    GapIsMissed(outputs, end);
  }

  // Window previews

  const PREVIEW_PADDING := 10

  const MAX_PER_ROW := 4

  function PerRow(count: nat): nat { Min(count, MAX_PER_ROW) }

  function Rows(count: nat): nat
    requires count > 0
  {
    (count + PerRow(count) - 1) / PerRow(count)
  }

  function PreviewSize(count: nat, width: real, height: real): Size
    requires count > 0
  {
    Size(Round(width / PerRow(count) as real) - PREVIEW_PADDING * 2,
         Round(height / Rows(count) as real) - PREVIEW_PADDING * 2)
  }

  /** The cell of the element with the given index, on an output of the given size. */
  function PreviewCell(count: nat, width: real, height: real, index: nat): Rect
    requires index < count
  {
    var size := PreviewSize(count, width, height);
    var column, row := index % PerRow(count), index / PerRow(count);
    Rect(Point(PREVIEW_PADDING + (PREVIEW_PADDING + size.w) * column,
               PREVIEW_PADDING + (PREVIEW_PADDING + size.h) * row),
         size)
  }

  ghost predicate Disjoint(a: Rect, b: Rect) {
    forall p :: !(a.Contains(p) && b.Contains(p))
  }

  /** Cells of one row or column, `step` apart and at most that long, do not meet. */
  lemma StepsApart(step: int, i: nat, j: nat)
    requires step > 0 && i < j
    ensures step * i + step <= step * j
  {
    assert step * (j - i - 1) >= 0;
    assert step * j == step * i + step + step * (j - i - 1);
  }

  lemma IndexOfRowAndColumn(count: nat, i: nat, j: nat)
    requires i < count && j < count
    requires i % PerRow(count) == j % PerRow(count) && i / PerRow(count) == j / PerRow(count)
    ensures i == j
  {
    var n := PerRow(count);
    assert i == i / n * n + i % n && j == j / n * n + j % n;
  }

  /** Previews do not overlap as long as there is room for them at all. */
  lemma PreviewCellsAreDisjoint(count: nat, width: real, height: real, i: nat, j: nat)
    requires i < count && j < count && i != j
    requires var size := PreviewSize(count, width, height); size.w > 0 && size.h > 0
    ensures Disjoint(PreviewCell(count, width, height, i), PreviewCell(count, width, height, j))
  {
    var n, size := PerRow(count), PreviewSize(count, width, height);
    if i % n < j % n { StepsApart(PREVIEW_PADDING + size.w, i % n, j % n); }
    else if j % n < i % n { StepsApart(PREVIEW_PADDING + size.w, j % n, i % n); }
    else if i / n < j / n { StepsApart(PREVIEW_PADDING + size.h, i / n, j / n); }
    else if j / n < i / n { StepsApart(PREVIEW_PADDING + size.h, j / n, i / n); }
    else { IndexOfRowAndColumn(count, i, j); }
  }

  /** `n` rounded n-th parts exceed the whole by less than the padding they give up. */
  lemma PartsFit(n: nat, index: nat, length: real)
    requires index < n
    requires var size := Round(length / n as real) - PREVIEW_PADDING * 2; size > 0
    ensures var size := Round(length / n as real) - PREVIEW_PADDING * 2;
            var start := PREVIEW_PADDING + (PREVIEW_PADDING + size) * index;
            0 <= start && (start + size) as real <= length
  {
    var part := Round(length / n as real);
    var size := part - PREVIEW_PADDING * 2;
    assert part as real <= length / n as real + 0.5;
    assert (PREVIEW_PADDING + size) * (index + 1) <= (PREVIEW_PADDING + size) * n by {
      if index + 1 < n { StepsApart(PREVIEW_PADDING + size, index + 1, n); }
    }
    assert (PREVIEW_PADDING + size) as real <= length / n as real;
    assert (length / n as real) * n as real == length;
    ScaleUp((PREVIEW_PADDING + size) as real, length / n as real, n);
  }

  lemma ScaleUp(a: real, b: real, n: nat)
    requires a <= b
    ensures a * n as real <= b * n as real
  {
  }

  lemma RowBelowRows(count: nat, index: nat)
    requires index < count
    ensures index / PerRow(count) < Rows(count)
  {
    var n := PerRow(count);
    assert index / n * n <= index < count <= Rows(count) * n by {
      assert (count + n - 1) == Rows(count) * n + (count + n - 1) % n;
    }
  }

  /** Previews stay on the output. */
  lemma PreviewCellsAreInside(count: nat, width: real, height: real, index: nat)
    requires index < count
    requires var size := PreviewSize(count, width, height); size.w > 0 && size.h > 0
    ensures var cell := PreviewCell(count, width, height, index);
            && 0 <= cell.loc.x && (cell.loc.x + cell.size.w) as real <= width
            && 0 <= cell.loc.y && (cell.loc.y + cell.size.h) as real <= height
  {
    PartsFit(PerRow(count), index % PerRow(count), width);
    RowBelowRows(count, index);
    PartsFit(Rows(count), index / PerRow(count), height);
  }

  /** The grid is regular: the first preview is in the upper left corner, each is one padding right of the one
      before it, or begins the next row one padding below, after at most four; and all are of one size. */
  lemma PreviewGridIsRegular(count: nat, width: real, height: real, index: nat)
    requires index + 1 < count
    ensures PreviewCell(count, width, height, 0).loc == Point(PREVIEW_PADDING, PREVIEW_PADDING)
    ensures var a, b := PreviewCell(count, width, height, index), PreviewCell(count, width, height, index + 1);
            && b.size == a.size
            && b.loc == if (index + 1) % Min(count, 4) != 0 then Point(a.loc.x + a.size.w + PREVIEW_PADDING, a.loc.y)
                        else Point(PREVIEW_PADDING, a.loc.y + a.size.h + PREVIEW_PADDING)
  {
    var n, size := PerRow(count), PreviewSize(count, width, height);
    NextIndex(index, n);
    if (index + 1) % n != 0 {
      OneMore(PREVIEW_PADDING + size.w, index % n);
    } else {
      OneMore(PREVIEW_PADDING + size.h, index / n);
    }
  }

  lemma NextIndex(index: nat, n: nat)
    requires 1 <= n <= MAX_PER_ROW
    ensures if (index + 1) % n != 0 then (index + 1) % n == index % n + 1 && (index + 1) / n == index / n
            else (index + 1) / n == index / n + 1
  {
    if n == 1 {
    } else if n == 2 {
    } else if n == 3 {
    } else {
      assert n == 4;
    }
  }

  lemma OneMore(step: int, i: nat)
    ensures step * (i + 1) == step * i + step
  {
  }

  /** There are just as many rows as needed. */
  lemma RowsAreNeeded(count: nat)
    requires count > 0
    ensures (Rows(count) - 1) * PerRow(count) < count <= Rows(count) * PerRow(count)
  {
    var n := PerRow(count);
    assert (count + n - 1) == Rows(count) * n + (count + n - 1) % n;
    assert (Rows(count) - 1) * n == Rows(count) * n - n;
  }

  /** The previews of a row, and the rows, with a padding on both sides of each, take up the whole output, up to
      half a pixel for each. */
  lemma PreviewsFillOutput(count: nat, width: real, height: real)
    requires count > 0
    ensures var size := PreviewSize(count, width, height);
            var columns, rows := PerRow(count) as real, Rows(count) as real;
            && -0.5 * columns <= (size.w + 2 * PREVIEW_PADDING) as real * columns - width <= 0.5 * columns
            && -0.5 * rows <= (size.h + 2 * PREVIEW_PADDING) as real * rows - height <= 0.5 * rows
  {
    var columns, rows := PerRow(count), Rows(count);
    assert rows > 0 by { RowBelowRows(count, 0); }
    RoundedPartsFill(width, columns);
    RoundedPartsFill(height, rows);
    assert PreviewSize(count, width, height).w + 2 * PREVIEW_PADDING == Round(width / columns as real);
    assert PreviewSize(count, width, height).h + 2 * PREVIEW_PADDING == Round(height / rows as real);
  }

  lemma RoundedPartsFill(length: real, n: nat)
    requires n > 0
    ensures -0.5 * n as real <= Round(length / n as real) as real * n as real - length <= 0.5 * n as real
  {
    var exact := length / n as real;
    assert exact * n as real == length;
    ScaledBounds(Round(exact) as real - exact, n as real);
    assert (Round(exact) as real - exact) * n as real == Round(exact) as real * n as real - exact * n as real;
  }

  lemma ScaledBounds(d: real, n: real)
    requires -0.5 <= d <= 0.5 && n > 0.0
    ensures -0.5 * n <= d * n <= 0.5 * n
  {
  }
}
