/** The single-file converter `czi_to_tiffs(path, outdir, template)`: make
    the folder `Cyc<last two characters of the name>_reg1`, check the
    image's structure, write one TIFF per tile into that folder and save the
    metadata. Opening the CZI file is an input (`images`); the files written
    are recorded as paths. */
module SingleCziToTiffs {
  import opened Wrappers
  import opened Text
  import opened PathNames
  import opened TileGeometry
  import opened TileNames
  import opened CziTiles

  /** What a conversion leaves on disk, and its `C`, `Z` and tiles. */
  datatype Conversion = Conversion(tileDir: string, shape: Shape, files: seq<string>, metadataFile: string)

  /** The file name of `path` without directory and extension. */
  function Stem(path: string): string {
    SplitExt(Basename(path)).0
  }

  /** The folder the converter creates: `outdir + 'Cyc' + basename[-2:] +
      '_reg1'`, a plain concatenation. */
  function MadeFolder(path: string, outdir: string): string {
    outdir + SingleCycleFolder(Stem(path))
  }

  /** The folder the tiles are written to: `os.path.join(outdir, foldername)`. */
  function TileDir(path: string, outdir: string): string {
    PathJoin(outdir, SingleCycleFolder(Stem(path)))
  }

  /** The tiles' folder is not the one made and was not on disk before
      (`existing`), so writing a tile into it fails. */
  predicate TileFolderAbsent(path: string, outdir: string, existing: set<string>) {
    TileDir(path, outdir) != MadeFolder(path, outdir) && TileDir(path, outdir) !in existing
  }

  /** The image has at least one tile to write. */
  predicate HasTiles(img: CziImage) {
    img.size.m > 0 && img.size.c > 0 && img.size.z > 0
  }

  /** The whole conversion. `existing` holds the folders on disk before the
      call. `made` is the cycle folder the converter creates: none when
      `outdir` is empty, since `os.makedirs('')` then fails before anything
      else happens. Otherwise the folder is made before the file is opened,
      so it exists whichever check fails. The first tile, at channel 0, plane 0 of
      position 0, is written right after its rectangle is compared with
      itself, so a missing tile folder fails before any tile check can. */
  method ConvertFile(path: string, outdir: string, template: NameTemplate, images: map<string, CziImage>,
                     existing: set<string>)
    returns (made: Option<string>, r: Result<Conversion, CziError>)
    ensures outdir == [] ==> made == None && r == Failure(OutdirNotCreatable(outdir))
    ensures outdir != [] ==> made == Some(MadeFolder(path, outdir))
    ensures outdir != [] && path !in images ==> r == Failure(CziFileMissing(path))
    ensures outdir != [] && path in images ==>
      var img := images[path];
      var blocked := HasTiles(img) && TileFolderAbsent(path, outdir, existing);
      && (r.Success? <==> WellFormed(img) && !blocked && UniformUpTo(img, img.size.m))
      && (!WellFormed(img) ==> r.Failure? && Some(r.error) == StructureError(img))
      && (WellFormed(img) && blocked ==> r == Failure(TileFolderMissing(TileDir(path, outdir))))
      && (WellFormed(img) && !blocked && r.Failure? ==>
            r.error.TileRectVaries? && FirstVarying(img, r.error.c, r.error.z, r.error.m))
      && (r.Success? ==> r.value == Conversion(
            TileDir(path, outdir),
            Shape(img.size.c, img.size.z, TileRects(img, img.size.m)),
            Paths(template, TileDir(path, outdir), AllTiles(img.size.c, img.size.z, img.size.m)),
            PathJoin(outdir, Stem(path) + ".xml")))
  {
    if outdir == [] {
      return None, Failure(OutdirNotCreatable(outdir));
    }
    made := Some(MadeFolder(path, outdir));
    if path !in images {
      return made, Failure(CziFileMissing(path));
    }
    var img := images[path];
    var err := CheckStructure(img);
    if err.Some? {
      return made, Failure(err.value);
    }
    r := WriteTiles(path, outdir, template, img, existing);
  }

  /** The tile loop and the metadata file of a well-formed image. */
  method WriteTiles(path: string, outdir: string, template: NameTemplate, img: CziImage, existing: set<string>)
    returns (r: Result<Conversion, CziError>)
    requires WellFormed(img)
    ensures HasTiles(img) && TileFolderAbsent(path, outdir, existing) ==>
      r == Failure(TileFolderMissing(TileDir(path, outdir)))
    ensures !(HasTiles(img) && TileFolderAbsent(path, outdir, existing)) ==>
      && (r.Success? <==> UniformUpTo(img, img.size.m))
      && (r.Failure? ==> r.error.TileRectVaries? && FirstVarying(img, r.error.c, r.error.z, r.error.m))
    ensures r.Success? ==> r.value == Conversion(
      TileDir(path, outdir),
      Shape(img.size.c, img.size.z, TileRects(img, img.size.m)),
      Paths(template, TileDir(path, outdir), AllTiles(img.size.c, img.size.z, img.size.m)),
      PathJoin(outdir, Stem(path) + ".xml"))
  {
    var dir := TileDir(path, outdir);
    if img.size.m > 0 && img.size.c > 0 && img.size.z > 0 && dir != MadeFolder(path, outdir) && dir !in existing {
      return Failure(TileFolderMissing(dir));
    }
    var run := CollectTiles(img);
    if run.Failure? {
      return Failure(run.error);
    }
    var files := Paths(template, dir, run.value.written);
    var metadataFile := PathJoin(outdir, Stem(path) + ".xml");
    return Success(Conversion(dir, Shape(img.size.c, img.size.z, run.value.tiles), files, metadataFile));
  }

  /** The tiles' folder and the folder the converter made are the same path
      exactly when `outdir` is empty or ends in a slash; an empty `outdir`
      fails before any folder is made, so in a conversion that gets that far
      they are the same exactly when `outdir` ends in a slash. Otherwise the
      folder made is a sibling (`out` + `Cyc01_reg1`) and the tiles go to
      `out/Cyc01_reg1`, which is missing unless it was already on disk. */
  lemma TilesInMadeFolder(path: string, outdir: string, existing: set<string>)
    ensures TileDir(path, outdir) == MadeFolder(path, outdir) <==> (outdir == [] || outdir[|outdir| - 1] == '/')
    ensures outdir != [] ==> (TileDir(path, outdir) == MadeFolder(path, outdir) <==> outdir[|outdir| - 1] == '/')
    ensures TileFolderAbsent(path, outdir, existing) <==>
      !(outdir == [] || outdir[|outdir| - 1] == '/') && TileDir(path, outdir) !in existing
  {
    JoinIsConcatenation(outdir, SingleCycleFolder(Stem(path)));
  }

  /** A conversion writes no file twice. */
  lemma ConversionFilesDistinct(path: string, outdir: string, template: NameTemplate, img: CziImage)
    requires Readable(template)
    ensures Sequences.Distinct(Paths(template, TileDir(path, outdir), AllTiles(img.size.c, img.size.z, img.size.m)))
  {
    RunFilesDistinct(template, TileDir(path, outdir), img.size.c, img.size.z, img.size.m);
  }
}
