/** Tile geometry of a row-major mosaic grid: tile size from tile 0, the
    horizontal overlaps between neighbours in the first row, the vertical
    overlaps down the first column, and the size left once the overlap of
    the FIRST pair is taken off (the lists are not averaged). */
module TileGeometry {
  import opened Wrappers

  /** A tile's bounding rectangle in pixel space, `(x, y, w, h)`. */
  datatype Rect = Rect(x: int, y: int, w: int, h: int)

  datatype Geometry = Geometry(
    tileWidth: int, tileHeight: int,
    xOverlaps: seq<int>, yOverlaps: seq<int>,
    overlapX: int, overlapY: int,
    widthAfter: int, heightAfter: int)

  /** `NoTiles`, `TileIndexOutOfRange`, `NoHorizontalNeighbour` and
      `NoVerticalNeighbour` are Python `IndexError`s at different lines;
      `ZeroColumnStep` is the failure of a zero-step `numpy.arange`. */
  datatype GeometryError =
    | NoTiles
    | TileIndexOutOfRange(index: int)
    | ZeroColumnStep
    | NoHorizontalNeighbour
    | NoVerticalNeighbour

  /** The vertical overlaps for grid indices `i, i + cols, i + 2 cols, ...`
      while the index is below `|t| - cols`, tile `k` lying directly above
      tile `k + cols`. */
  function VerticalFrom(t: seq<Rect>, cols: int, h: int, i: nat): seq<int>
    requires cols > 0
    decreases |t| - i
  {
    if i < |t| - cols then [t[i].y + h - t[i + cols].y] + VerticalFrom(t, cols, h, i + cols)
    else []
  }

  /** Entry `j` of the vertical list compares the tile `j` rows below `i`
      with the one a row further down, and the list has an entry `j`
      exactly when that lower tile exists. */
  lemma {:induction false} VerticalAt(t: seq<Rect>, cols: int, h: int, i: nat, j: nat)
    requires cols > 0
    ensures j < |VerticalFrom(t, cols, h, i)| <==> i + j * cols + cols < |t|
    ensures j < |VerticalFrom(t, cols, h, i)| ==>
      VerticalFrom(t, cols, h, i)[j] == t[i + j * cols].y + h - t[i + j * cols + cols].y
    decreases j
  {
    if j > 0 && i < |t| - cols {
      VerticalAt(t, cols, h, i + cols, j - 1);
      assert i + cols + (j - 1) * cols == i + j * cols;
    } else if j > 0 {
      assert j * cols >= 0;
    }
  }

  /** `g` is the geometry of the grid `t` with `cols` columns: tile size
      from tile 0, one horizontal overlap per neighbouring pair of the first
      row, the vertical overlaps down the first column, the first overlap of
      each list as the overlap, and the size left after it. */
  predicate IsGeometryOf(t: seq<Rect>, cols: int, g: Geometry)
    requires 2 <= cols < |t|
  {
    && g.tileWidth == t[0].w && g.tileHeight == t[0].h
    && |g.xOverlaps| == cols - 1
    && (forall i :: 0 <= i < cols - 1 ==> g.xOverlaps[i] == t[i].x + t[0].w - t[i + 1].x)
    && g.yOverlaps == VerticalFrom(t, cols, t[0].h, 0)
    && g.overlapX == t[0].x + t[0].w - t[1].x
    && g.overlapY == t[0].y + t[0].h - t[cols].y
    && g.widthAfter == t[0].w - g.overlapX
    && g.heightAfter == t[0].h - g.overlapY
  }

  /** The overlap block of `meta_to_json`: tile size from tile 0,
      `x[i] + w - x[i+1]` for `i < cols - 1`, the vertical list by a stride
      of `cols`, and the first entry of each list as the overlap. It fails
      as the source does when an index runs out of the tile list. */
  method ComputeTileGeometry(t: seq<Rect>, cols: int) returns (r: Result<Geometry, GeometryError>)
    ensures |t| == 0 ==> r == Failure(NoTiles)
    ensures |t| > 0 && cols > |t| ==> r == Failure(TileIndexOutOfRange(|t|))
    ensures |t| > 0 && cols == 0 ==> r == Failure(ZeroColumnStep)
    ensures |t| > 0 && cols < 2 && cols != 0 ==> r == Failure(NoHorizontalNeighbour)
    ensures |t| > 0 && 2 <= cols == |t| ==> r == Failure(NoVerticalNeighbour)
    ensures r.Success? <==> 2 <= cols < |t|
    ensures r.Success? ==> IsGeometryOf(t, cols, r.value)
  {
    if |t| == 0 {
      return Failure(NoTiles);
    }
    var w, h := t[0].w, t[0].h;
    var horizontal := HorizontalOverlaps(t, cols, w);
    if horizontal.Failure? {
      return Failure(horizontal.error);
    }
    var xs := horizontal.value;
    if cols == 0 {
      return Failure(ZeroColumnStep);
    }
    var ys: seq<int> := [];
    if cols > 0 {
      ys := VerticalOverlaps(t, cols, h);
    }
    if |xs| == 0 {
      return Failure(NoHorizontalNeighbour);
    }
    if |ys| == 0 {
      VerticalAt(t, cols, h, 0, 0);
      return Failure(NoVerticalNeighbour);
    }
    VerticalAt(t, cols, h, 0, 0);
    var ox, oy := xs[0], ys[0];
    return Success(Geometry(w, h, xs, ys, ox, oy, w - ox, h - oy));
  }

  /** The loop `x_overlaps = [x[i] + w - x[i+1] for i in range(cols - 1)]`,
      which indexes past the tile list when `cols` exceeds it. */
  method HorizontalOverlaps(t: seq<Rect>, cols: int, w: int) returns (r: Result<seq<int>, GeometryError>)
    requires |t| > 0
    ensures r.Failure? <==> cols > |t|
    ensures r.Failure? ==> r.error == TileIndexOutOfRange(|t|)
    ensures r.Success? ==> |r.value| == (if cols > 0 then cols - 1 else 0)
    ensures r.Success? ==> forall i :: 0 <= i < |r.value| ==> r.value[i] == t[i].x + w - t[i + 1].x
  {
    var xs: seq<int> := [];
    var i := 0;
    while i < cols - 1
      invariant 0 <= i < |t|
      invariant i <= cols - 1 || i == 0
      invariant |xs| == i
      invariant forall k :: 0 <= k < i ==> xs[k] == t[k].x + w - t[k + 1].x
    {
      if i + 1 >= |t| {
        return Failure(TileIndexOutOfRange(i + 1));
      }
      xs := xs + [t[i].x + w - t[i + 1].x];
      i := i + 1;
    }
    return Success(xs);
  }

  /** The loop over `range(0, len(t) - cols, cols)`. */
  method VerticalOverlaps(t: seq<Rect>, cols: int, h: int) returns (ys: seq<int>)
    requires cols > 0
    ensures ys == VerticalFrom(t, cols, h, 0)
  {
    ys := [];
    var j := 0;
    while j < |t| - cols
      invariant ys + VerticalFrom(t, cols, h, j) == VerticalFrom(t, cols, h, 0)
      decreases |t| - j
    {
      ys := ys + [t[j].y + h - t[j + cols].y];
      j := j + cols;
    }
  }
}
