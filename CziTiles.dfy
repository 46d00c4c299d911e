/** What both `czi_to_tiffs` converters do with one opened CZI image: check
    its structure, then walk the mosaic, recording each tile's rectangle,
    insisting that it is the same for every channel and focus plane, and
    naming one TIFF file per (mosaic, channel, plane). The CZI reader is an
    input: the image's dimension string, sizes, axis start indices, mosaic
    flag and subblock rectangles. */
module CziTiles {
  import opened Wrappers
  import opened Text
  import opened PathNames
  import opened TileGeometry
  import opened TileNames
  import opened Sequences

  /** `czi.size`: scenes, time points, channels, planes, mosaic tiles, height,
      width. */
  datatype ImageSize = ImageSize(s: nat, t: nat, c: nat, z: nat, m: nat, y: nat, x: nat)

  /** One opened CZI file as the converter sees it. `rect(c, z, m)` is
      `read_subblock_rect(S=0, T=0, C=c, Z=z, M=m)`; `exposures` are the raw
      per-channel `ExposureTime` values of its metadata. */
  datatype CziImage = CziImage(
    dims: string, size: ImageSize, axisStarts: seq<int>, isMosaic: bool,
    rect: (nat, nat, nat) -> Rect, exposures: seq<nat>)

  datatype CziError =
    | UnexpectedDimensionOrder
    | NotOneScene
    | NotOneTimepoint
    | NotZeroBased
    | NotMosaic
    | TileRectVaries(c: nat, z: nat, m: nat)
    | CziFileMissing(path: string)
    | TileFolderMissing(path: string)
    | InvalidCycleSuffix(basename: string)
    | NoCziFiles
    | OutdirNotCreatable(path: string)  // `os.makedirs('')` raises `FileNotFoundError`

  const DimsOrder := "STCZMYX"

  /** The structure the converter accepts. */
  predicate WellFormed(img: CziImage) {
    && img.dims == DimsOrder
    && img.size.s == 1 && img.size.t == 1
    && (forall i :: 0 <= i < |img.axisStarts| ==> img.axisStarts[i] == 0)
    && img.isMosaic
  }

  /** The first structural check an image fails, in the source's order:
      dimension order, one scene, one time point, every axis starting at 0,
      a mosaic. */
  function StructureError(img: CziImage): (err: Option<CziError>)
    ensures err.None? <==> WellFormed(img)
  {
    if img.dims != DimsOrder then Some(UnexpectedDimensionOrder)
    else if img.size.s != 1 then Some(NotOneScene)
    else if img.size.t != 1 then Some(NotOneTimepoint)
    else if exists i :: 0 <= i < |img.axisStarts| && img.axisStarts[i] != 0 then Some(NotZeroBased)
    else if !img.isMosaic then Some(NotMosaic)
    else None
  }

  /** The checks as the converter runs them, one axis at a time. */
  method CheckStructure(img: CziImage) returns (err: Option<CziError>)
    ensures err == StructureError(img)
  {
    if img.dims != DimsOrder {
      return Some(UnexpectedDimensionOrder);
    }
    if img.size.s != 1 {
      return Some(NotOneScene);
    }
    if img.size.t != 1 {
      return Some(NotOneTimepoint);
    }
    for i := 0 to |img.axisStarts|
      invariant forall k :: 0 <= k < i ==> img.axisStarts[k] == 0
    {
      if img.axisStarts[i] != 0 {
        return Some(NotZeroBased);
      }
    }
    if !img.isMosaic {
      return Some(NotMosaic);
    }
    return None;
  }

  /** Tile `(c, z, m)` lies where tile `(0, 0, m)` does. */
  predicate SameRect(img: CziImage, c: nat, z: nat, m: nat) {
    img.rect(c, z, m) == img.rect(0, 0, m)
  }

  /** The rectangle of every tile of the first `ms` mosaic positions is the
      same for every channel and plane. */
  predicate UniformUpTo(img: CziImage, ms: nat) {
    forall m: nat, c: nat, z: nat :: m < ms && c < img.size.c && z < img.size.z ==> SameRect(img, c, z, m)
  }

  /** One tile of the mosaic: zero-based channel, plane and position. */
  datatype Tile = Tile(c: nat, z: nat, m: nat)

  /** The tiles of planes `0 .. zs-1` of channel `c` at mosaic position `m`. */
  function PlaneTiles(c: nat, zs: nat, m: nat): (r: seq<Tile>)
    ensures |r| == zs
    ensures forall z :: 0 <= z < zs ==> r[z] == Tile(c, z, m)
  {
    seq(zs, z requires 0 <= z < zs => Tile(c, z, m))
  }

  lemma PlaneTilesSnoc(c: nat, z: nat, m: nat)
    ensures PlaneTiles(c, z + 1, m) == PlaneTiles(c, z, m) + [Tile(c, z, m)]
  {
  }

  /** The tiles of channels `0 .. cs-1` at mosaic position `m`, channel by
      channel (`product(range(C), range(Z))`). */
  function MosaicTiles(cs: nat, zs: nat, m: nat): seq<Tile>
  {
    if cs == 0 then [] else MosaicTiles(cs - 1, zs, m) + PlaneTiles(cs - 1, zs, m)
  }

  /** The order in which a run visits the tiles of mosaic positions
      `0 .. ms-1`, position by position. */
  function AllTiles(cs: nat, zs: nat, ms: nat): seq<Tile>
  {
    if ms == 0 then [] else AllTiles(cs, zs, ms - 1) + MosaicTiles(cs, zs, ms - 1)
  }

  /** Tile `(c, z, m)` is the first, in the converter's visiting order, whose
      rectangle differs from that of its mosaic position. */
  predicate FirstVarying(img: CziImage, c: nat, z: nat, m: nat) {
    && m < img.size.m && c < img.size.c && z < img.size.z
    && !SameRect(img, c, z, m)
    && UniformUpTo(img, m)
    && (forall c': nat, z': nat :: c' < c && z' < img.size.z ==> SameRect(img, c', z', m))
    && (forall z': nat :: z' < z ==> SameRect(img, c, z', m))
  }

  /** At most one tile is the first varying one. */
  lemma FirstVaryingUnique(img: CziImage, c: nat, z: nat, m: nat, c': nat, z': nat, m': nat)
    requires FirstVarying(img, c, z, m) && FirstVarying(img, c', z', m')
    ensures c == c' && z == z' && m == m'
  {
  }

  /** The path of the TIFF file of a tile in directory `dir`. */
  function TilePath(t: NameTemplate, dir: string, k: Tile): string {
    PathJoin(dir, TileName(t, k.c, k.z, k.m)) + ".tif"
  }

  /** The files written for a list of tiles, in the same order. */
  function Paths(t: NameTemplate, dir: string, ks: seq<Tile>): (r: seq<string>)
    ensures |r| == |ks|
    ensures forall i :: 0 <= i < |ks| ==> r[i] == TilePath(t, dir, ks[i])
  {
    seq(|ks|, i requires 0 <= i < |ks| => TilePath(t, dir, ks[i]))
  }

  /** The tile list: the `(0, 0)` rectangle of each mosaic position, in order. */
  function TileRects(img: CziImage, ms: nat): (r: seq<Rect>)
    ensures |r| == ms
    ensures forall m :: 0 <= m < ms ==> r[m] == img.rect(0, 0, m)
  {
    seq(ms, m requires 0 <= m < ms => img.rect(0, 0, m))
  }

  /** What a converter returns: `C`, `Z` and the tile list. */
  datatype Shape = Shape(c: nat, z: nat, tiles: seq<Rect>)

  /** What a run records: the tile list (one rectangle per mosaic
      position) and the tiles it wrote a TIFF file for, in order; the file
      names are `Paths(template, dir, written)`. */
  datatype TileRun = TileRun(tiles: seq<Rect>, written: seq<Tile>)

  /** The mosaic loop: for each `m`, record the `(0, 0)` rectangle, then for
      each channel and plane check that the rectangle is the same and write
      the tile file. The first tile whose rectangle differs stops the run. */
  method CollectTiles(img: CziImage) returns (r: Result<TileRun, CziError>)
    ensures r.Success? <==> UniformUpTo(img, img.size.m)
    ensures r.Success? ==> r.value.tiles == TileRects(img, img.size.m)
    ensures r.Success? ==> r.value.written == AllTiles(img.size.c, img.size.z, img.size.m)
    ensures r.Failure? ==> r.error.TileRectVaries? && FirstVarying(img, r.error.c, r.error.z, r.error.m)
  {
    var C, Z, M := img.size.c, img.size.z, img.size.m;
    var tiles: seq<Rect> := [];
    var visited: seq<Tile> := [];
    for m := 0 to M
      invariant tiles == TileRects(img, m)
      invariant visited == AllTiles(C, Z, m)
      invariant UniformUpTo(img, m)
    {
      var tilepos := img.rect(0, 0, m);
      tiles := tiles + [tilepos];
      for c := 0 to C
        invariant visited == AllTiles(C, Z, m) + MosaicTiles(c, Z, m)
        invariant forall c': nat, z: nat :: c' < c && z < Z ==> SameRect(img, c', z, m)
      {
        for z := 0 to Z
          invariant visited == AllTiles(C, Z, m) + MosaicTiles(c, Z, m) + PlaneTiles(c, z, m)
          invariant forall z': nat :: z' < z ==> SameRect(img, c, z', m)
        {
          if img.rect(c, z, m) != tilepos {
            assert !SameRect(img, c, z, m);
            return Failure(TileRectVaries(c, z, m));
          }
          assert SameRect(img, c, z, m);
          PlaneTilesSnoc(c, z, m);
          visited := visited + [Tile(c, z, m)];
        }
      }
      UniformExtend(img, m);
      TileRectsSnoc(img, m);
    }
    return Success(TileRun(tiles, visited));
  }

  lemma UniformExtend(img: CziImage, m: nat)
    requires UniformUpTo(img, m)
    requires forall c: nat, z: nat :: c < img.size.c && z < img.size.z ==> SameRect(img, c, z, m)
    ensures UniformUpTo(img, m + 1)
  {
  }

  lemma TileRectsSnoc(img: CziImage, m: nat)
    ensures TileRects(img, m + 1) == TileRects(img, m) + [img.rect(0, 0, m)]
  {
  }

  /** A run visits exactly the tiles with `c < cs`, `z < zs` and `m < ms`. */
  lemma {:induction false} AllTilesMembers(cs: nat, zs: nat, ms: nat, k: Tile)
    ensures k in AllTiles(cs, zs, ms) <==> k.c < cs && k.z < zs && k.m < ms
    decreases ms
  {
    if ms > 0 {
      var before, last := AllTiles(cs, zs, ms - 1), MosaicTiles(cs, zs, ms - 1);
      assert AllTiles(cs, zs, ms) == before + last;
      AllTilesMembers(cs, zs, ms - 1, k);
      MosaicTilesMembers(cs, zs, ms - 1, k);
      assert k in before + last <==> k in before || k in last;
    }
  }

  lemma {:induction false} MosaicTilesMembers(cs: nat, zs: nat, m: nat, k: Tile)
    ensures k in MosaicTiles(cs, zs, m) <==> k.c < cs && k.z < zs && k.m == m
    decreases cs
  {
    if cs > 0 {
      MosaicTilesMembers(cs - 1, zs, m, k);
      if k.c == cs - 1 && k.z < zs && k.m == m {
        assert PlaneTiles(cs - 1, zs, m)[k.z] == k;
      }
    }
  }

  /** A run visits each tile once. */
  lemma {:induction false} AllTilesDistinct(cs: nat, zs: nat, ms: nat)
    ensures Distinct(AllTiles(cs, zs, ms))
    decreases ms
  {
    if ms > 0 {
      AllTilesDistinct(cs, zs, ms - 1);
      MosaicTilesDistinct(cs, zs, ms - 1);
      var before := AllTiles(cs, zs, ms - 1);
      forall i | 0 <= i < |before|
        ensures before[i] !in MosaicTiles(cs, zs, ms - 1)
      {
        AllTilesMembers(cs, zs, ms - 1, before[i]);
        MosaicTilesMembers(cs, zs, ms - 1, before[i]);
      }
      ConcatDistinct(AllTiles(cs, zs, ms - 1), MosaicTiles(cs, zs, ms - 1));
    }
  }

  lemma {:induction false} MosaicTilesDistinct(cs: nat, zs: nat, m: nat)
    ensures Distinct(MosaicTiles(cs, zs, m))
    decreases cs
  {
    if cs > 0 {
      MosaicTilesDistinct(cs - 1, zs, m);
      var before := MosaicTiles(cs - 1, zs, m);
      forall i | 0 <= i < |before|
        ensures before[i] !in PlaneTiles(cs - 1, zs, m)
      {
        MosaicTilesMembers(cs - 1, zs, m, before[i]);
      }
      ConcatDistinct(MosaicTiles(cs - 1, zs, m), PlaneTiles(cs - 1, zs, m));
    }
  }

  /** One file per tile: a run over `M` positions, `C` channels and `Z`
      planes writes `M * C * Z` files. */
  lemma {:induction false} AllTilesCount(cs: nat, zs: nat, ms: nat)
    ensures |AllTiles(cs, zs, ms)| == ms * (cs * zs)
    decreases ms
  {
    if ms > 0 {
      AllTilesCount(cs, zs, ms - 1);
      MosaicTilesCount(cs, zs, ms - 1);
      assert (ms - 1) * (cs * zs) + cs * zs == ms * (cs * zs);
    }
  }

  lemma {:induction false} MosaicTilesCount(cs: nat, zs: nat, m: nat)
    ensures |MosaicTiles(cs, zs, m)| == cs * zs
    decreases cs
  {
    if cs > 0 {
      MosaicTilesCount(cs - 1, zs, m);
      assert (cs - 1) * zs + zs == cs * zs;
    }
  }

  /** `os.path.join(dir, a) == os.path.join(dir, b)` forces `a == b` when
      neither or both of the names are absolute. */
  lemma PathJoinCancel(dir: string, a: string, b: string)
    requires a != [] && b != [] && (a[0] == '/' <==> b[0] == '/')
    requires PathJoin(dir, a) == PathJoin(dir, b)
    ensures a == b
  {
    if a[0] != '/' {
      var p := if dir == [] || dir[|dir| - 1] == '/' then dir else dir + "/";
      assert PathJoin(dir, a) == p + a && PathJoin(dir, b) == p + b;
      assert a == (p + a)[|p|..] && b == (p + b)[|p|..];
    }
  }

  /** A rendered tile name starts with the template's lead, or with a digit
      when the lead is empty; so it is absolute only when the lead is. */
  lemma TileNameStart(t: NameTemplate, c: nat, z: nat, m: nat)
    ensures TileName(t, c, z, m) != []
    ensures TileName(t, c, z, m)[0] == '/' <==> t.lead != [] && t.lead[0] == '/'
  {
    var d := ZeroPad(m + 1, t.mWidth);
    assert TileName(t, c, z, m) == t.lead + (d + t.zSep + ZeroPad(z + 1, t.zWidth) + t.cSep + ZeroPad(c + 1, t.cWidth));
    assert IsDigit(d[0]);
  }

  /** Different tiles are written to different files. */
  lemma TilePathInjective(t: NameTemplate, dir: string, k: Tile, k': Tile)
    requires Readable(t)
    requires TilePath(t, dir, k) == TilePath(t, dir, k')
    ensures k == k'
  {
    var n, n' := TileName(t, k.c, k.z, k.m), TileName(t, k'.c, k'.z, k'.m);
    var p, p' := PathJoin(dir, n), PathJoin(dir, n');
    assert p == (p + ".tif")[..|p + ".tif"| - 4];
    assert p' == (p' + ".tif")[..|p' + ".tif"| - 4];
    TileNameStart(t, k.c, k.z, k.m);
    TileNameStart(t, k'.c, k'.z, k'.m);
    PathJoinCancel(dir, n, n');
    TileNamesDistinct(t, k.c, k.z, k.m, k'.c, k'.z, k'.m);
  }

  /** A run never writes the same file twice. */
  lemma RunFilesDistinct(t: NameTemplate, dir: string, cs: nat, zs: nat, ms: nat)
    requires Readable(t)
    ensures Distinct(Paths(t, dir, AllTiles(cs, zs, ms)))
  {
    var ks := AllTiles(cs, zs, ms);
    var files := Paths(t, dir, ks);
    AllTilesDistinct(cs, zs, ms);
    forall i, j | 0 <= i < j < |files|
      ensures files[i] != files[j]
    {
      if files[i] == files[j] {
        TilePathInjective(t, dir, ks[i], ks[j]);
      }
    }
  }
}
