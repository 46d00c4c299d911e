/** The experiment descriptor `meta_to_json`: merge the user's options, read
    the cycle numbers of the CZI files next to the image, check that the
    exposure ledger exists, take the channel names and wavelengths, the
    region size and the tile geometry of the image, cross-check the axial
    and lateral resolutions and the focus offset, and assemble the
    descriptor with the stripped channel-name lines and the split ledger
    lines. Parsing the XML, reading the CZI file and the text files, and
    writing the JSON are inputs and outputs of this model. */
module Descriptor {
  import opened Wrappers
  import opened Text
  import opened PathNames
  import opened Options
  import opened TileGeometry
  import opened CrossCheck
  import opened Cycles
  import opened CziTiles
  import opened Ledger
  import opened Sequences

  /** One entry of the image's channel list (`@Name`, `EmissionWavelength`). */
  datatype Channel = Channel(name: string, emissionWavelength: string)

  /** One track of the multi-track setup. */
  datatype Track = Track(focusOffset: string)

  /** The parts of the acquisition metadata the descriptor reads: the tile
      region's `Columns` and `Rows` as text, the scaling distance table, the
      Z-stack interval, the objective's magnification, the components of
      `ImagePixelSize`, the tracks and `ComponentBitCount`. Physical values
      are of the abstract type `V`. */
  datatype Metadata<V> = Metadata(
    channels: seq<Channel>,
    columns: string, rows: string,
    distances: seq<Distance<V>>, zStackInterval: V,
    magnification: V, pixelSize: seq<V>,
    tracks: seq<Track>,
    componentBitCount: string)

  datatype DescriptorError =
    | Config(config: ConfigError)
    | Cycle(cycle: CycleError)
    | FileMissing(path: string)
    | ExposureTimesMissing(path: string)
    | NotAnInteger(text: string)
    | SizeNotSevenAxes(axes: nat)
    | Grid(geometry: GeometryError)
    | Check(check: CheckError)

  /** The region size (`regionWidth`, `regionHeight`), the image size
      (`numRegions` and `regIdx` from `S`, `numChannels` from `C`,
      `numZPlanes` from `Z`) and the tile geometry (`tileWidth`,
      `tileHeight`, `tileOverlapX`, `tileOverlapY`). */
  datatype Layout = Layout(regionWidth: int, regionHeight: int, size: ImageSize, geometry: Geometry)

  /** `zPitch`, `xyResolution` and `focusingOffset`. */
  datatype Resolutions<V> = Resolutions(axial: V, lateral: V, focusOffset: string)

  /** `cycles_nr_list` with `numCycles`, `cycle_lower_limit` and
      `cycle_upper_limit`. */
  datatype CycleInfo = CycleInfo(numbers: seq<int>, numCycles: nat, lowerLimit: int, upperLimit: int)

  /** `per_cycle_channel_names`, `wavelengths` and `bitDepth`. */
  datatype ChannelInfo = ChannelInfo(names: seq<string>, wavelengths: seq<int>, bitDepth: int)

  /** The fields of `experiment.json` that the run computes, grouped by the
      block of `meta_to_json` that computes them; `name` is also `projName`,
      and `options` holds the fields copied from the merged options. */
  datatype Experiment<V> = Experiment(
    name: string, path: string, outputPath: string, options: OptionMap,
    cycles: CycleInfo, channels: ChannelInfo, layout: Layout, resolutions: Resolutions<V>,
    channelNamesArray: seq<string>, exposureTimesArray: seq<seq<string>>)

  /** The CZI files of the run: `glob(os.path.join(dirname(image_path), '*.czi'))`. */
  function CziFiles(imagePath: string, listing: seq<string>): seq<string> {
    Glob(Dirname(imagePath), listing, ".czi")
  }

  /** `basename` of the descriptor: the image's file name without extension. */
  function ImageStem(imagePath: string): string {
    SplitExt(Basename(imagePath)).0
  }

  /** The CZI file whose tiles give the geometry. */
  function CziPath(imagePath: string): string {
    PathJoin(Dirname(imagePath), ImageStem(imagePath) + ".czi")
  }

  /** The ledger path the descriptor reads: `outdir + "exposure_times.txt"`. */
  function ExposurePath(outdir: string): string {
    outdir + LedgerName
  }

  /** The index of the first text from `from` on that `parse` refuses, or
      `|texts|` when there is none. */
  function FirstRefused<T>(texts: seq<string>, parse: string -> Option<T>, from: nat): (k: nat)
    requires from <= |texts|
    ensures from <= k <= |texts|
    ensures k < |texts| ==> parse(texts[k]).None?
    ensures forall j :: from <= j < k ==> parse(texts[j]).Some?
    decreases |texts| - from
  {
    if from == |texts| || parse(texts[from]).None? then from else FirstRefused(texts, parse, from + 1)
  }

  /** `list(map(parse, texts))`: every text parsed, or the first one `parse`
      refuses. */
  function ParseAll<T>(texts: seq<string>, parse: string -> Option<T>): (r: Result<seq<T>, string>)
    ensures r.Success? <==> forall i :: 0 <= i < |texts| ==> parse(texts[i]).Some?
    ensures r.Success? ==> |r.value| == |texts| && forall i :: 0 <= i < |texts| ==> parse(texts[i]) == Some(r.value[i])
    ensures r.Failure? ==> exists i ::
      && 0 <= i < |texts| && texts[i] == r.error && parse(r.error).None?
      && forall j :: 0 <= j < i ==> parse(texts[j]).Some?
  {
    var k := FirstRefused(texts, parse, 0);
    if k == |texts| then
      Success(seq(|texts|, i requires 0 <= i < |texts| => parse(texts[i]).value))
    else
      Failure(texts[k])
  }

  /** `[x.strip() for x in cn]`: each line of the channel-name file without
      its surrounding whitespace; a stripped line strips to itself. */
  function StripLines(lines: seq<string>): (r: seq<string>)
    ensures |r| == |lines|
    ensures forall i :: 0 <= i < |lines| ==> r[i] == Strip(lines[i]) && Trimmed(r[i]) && Strip(r[i]) == r[i]
  {
    seq(|lines|, i requires 0 <= i < |lines| => Strip(lines[i]))
  }

  /** The cross-checks in source order: the axial resolution from the Z
      distance against the Z-stack interval, then the lateral resolution,
      then the focus offsets of the tracks. */
  function ResolutionsOf<V(==)>(meta: Metadata<V>, lateralOf: (V, V) -> V): (r: Result<Resolutions<V>, CheckError>)
    ensures r.Success? <==>
      && LastWithId(meta.distances, "Z") == Some(meta.zStackInterval)
      && |meta.pixelSize| >= 2 && meta.pixelSize[0] == meta.pixelSize[1]
      && LastWithId(meta.distances, "X") == Some(lateralOf(meta.pixelSize[0], meta.magnification))
      && LastWithId(meta.distances, "Y") == LastWithId(meta.distances, "X")
      && |meta.tracks| > 0 && (forall i :: 0 <= i < |meta.tracks| ==> meta.tracks[i].focusOffset == meta.tracks[0].focusOffset)
    ensures r.Success? ==>
      r.value == Resolutions(meta.zStackInterval, lateralOf(meta.pixelSize[0], meta.magnification), meta.tracks[0].focusOffset)
  {
    var offsets := seq(|meta.tracks|, i requires 0 <= i < |meta.tracks| => meta.tracks[i].focusOffset);
    assert forall i :: 0 <= i < |offsets| ==> offsets[i] == meta.tracks[i].focusOffset;
    match CheckAxial(LastWithId(meta.distances, "Z"), meta.zStackInterval)
    case Failure(e) => Failure(e)
    case Success(axial) =>
      match CheckLateral(meta.pixelSize, meta.magnification, lateralOf,
                         LastWithId(meta.distances, "X"), LastWithId(meta.distances, "Y"))
      case Failure(e) => Failure(e)
      case Success(lateral) =>
        match CheckFocusOffset(offsets)
        case Failure(e) => Failure(e)
        case Success(offset) => Success(Resolutions(axial, lateral, offset))
  }

  /** The resolution and focus block: the table loops, then the checks. */
  method CheckResolutions<V(==)>(meta: Metadata<V>, lateralOf: (V, V) -> V) returns (r: Result<Resolutions<V>, CheckError>)
    ensures r == ResolutionsOf(meta, lateralOf)
  {
    var z := LastValueWithId(meta.distances, "Z");
    var axial := CheckAxial(z, meta.zStackInterval);
    if axial.Failure? {
      return Failure(axial.error);
    }
    var x := LastValueWithId(meta.distances, "X");
    var y := LastValueWithId(meta.distances, "Y");
    var lateral := CheckLateral(meta.pixelSize, meta.magnification, lateralOf, x, y);
    if lateral.Failure? {
      return Failure(lateral.error);
    }
    var offsets := CollectFocusOffsets(meta.tracks, (t: Track) => t.focusOffset);
    assert offsets == seq(|meta.tracks|, i requires 0 <= i < |meta.tracks| => meta.tracks[i].focusOffset);
    var offset := CheckFocusOffset(offsets);
    if offset.Failure? {
      return Failure(offset.error);
    }
    return Success(Resolutions(axial.value, lateral.value, offset.value));
  }

  /** The channel loop's lists: names and emission wavelengths, in channel
      order. */
  method ChannelLists(channels: seq<Channel>) returns (names: seq<string>, emissions: seq<string>)
    ensures |names| == |emissions| == |channels|
    ensures forall i :: 0 <= i < |channels| ==>
      names[i] == channels[i].name && emissions[i] == channels[i].emissionWavelength
  {
    names, emissions := [], [];
    for i := 0 to |channels|
      invariant |names| == |emissions| == i
      invariant forall k :: 0 <= k < i ==>
        names[k] == channels[k].name && emissions[k] == channels[k].emissionWavelength
    {
      names := names + [channels[i].name];
      emissions := emissions + [channels[i].emissionWavelength];
    }
  }

  /** The grid the descriptor reports: `Columns` and `Rows` read as
      integers, the image's size, and the geometry of the rectangles of
      channel 0, plane 0 of every mosaic position with `Columns` columns,
      which needs at least two columns and more tiles than columns. */
  predicate LayoutOf(meta: Metadata, img: CziImage, l: Layout) {
    && ParseInt(meta.columns) == Some(l.regionWidth)
    && ParseInt(meta.rows) == Some(l.regionHeight)
    && l.size == img.size
    && 2 <= l.regionWidth < img.size.m
    && IsGeometryOf(TileRects(img, img.size.m), l.regionWidth, l.geometry)
  }

  /** `tilepos`: the rectangle of channel 0, plane 0 at every mosaic
      position, in order. */
  method TilePositions(img: CziImage) returns (tilepos: seq<Rect>)
    ensures tilepos == TileRects(img, img.size.m)
  {
    tilepos := [];
    for m := 0 to img.size.m
      invariant |tilepos| == m
      invariant forall k :: 0 <= k < m ==> tilepos[k] == img.rect(0, 0, k)
    {
      tilepos := tilepos + [img.rect(0, 0, m)];
    }
  }

  /** The channel loop body goes through: `Columns` and `Rows` are
      integers, the CZI file opens, its size unpacks into seven axes and
      there are at least two columns and more tiles than columns. */
  predicate LayoutReadable(meta: Metadata, cziPath: string, images: map<string, CziImage>) {
    && ParseInt(meta.columns).Some? && ParseInt(meta.rows).Some? && cziPath in images
    && |images[cziPath].dims| == 7
    && 2 <= ParseInt(meta.columns).value < images[cziPath].size.m
  }

  /** The body of the channel loop: the region size, the CZI file, the
      unpacking of its size into `S, T, C, Z, M, Y, X`, its tile positions
      and their geometry, failing at the first step that fails. */
  method TileLayout(meta: Metadata, cziPath: string, images: map<string, CziImage>) returns (r: Result<Layout, DescriptorError>)
    ensures ParseInt(meta.columns).None? ==> r == Failure(NotAnInteger(meta.columns))
    ensures ParseInt(meta.columns).Some? && ParseInt(meta.rows).None? ==> r == Failure(NotAnInteger(meta.rows))
    ensures ParseInt(meta.columns).Some? && ParseInt(meta.rows).Some? && cziPath !in images ==>
      r == Failure(FileMissing(cziPath))
    ensures ParseInt(meta.columns).Some? && ParseInt(meta.rows).Some? && cziPath in images && |images[cziPath].dims| != 7 ==>
      r == Failure(SizeNotSevenAxes(|images[cziPath].dims|))
    ensures r.Success? <==> LayoutReadable(meta, cziPath, images)
    ensures r.Success? ==> LayoutOf(meta, images[cziPath], r.value)
  {
    var regionWidth := ParseInt(meta.columns);
    if regionWidth.None? {
      return Failure(NotAnInteger(meta.columns));
    }
    var regionHeight := ParseInt(meta.rows);
    if regionHeight.None? {
      return Failure(NotAnInteger(meta.rows));
    }
    if cziPath !in images {
      return Failure(FileMissing(cziPath));
    }
    var img := images[cziPath];
    if |img.dims| != 7 {
      return Failure(SizeNotSevenAxes(|img.dims|));
    }
    var tilepos := TilePositions(img);
    var geometry := ComputeTileGeometry(tilepos, regionWidth.value);
    if geometry.Failure? {
      return Failure(Grid(geometry.error));
    }
    return Success(Layout(regionWidth.value, regionHeight.value, img.size, geometry.value));
  }

  /** The cycle block: as many cycles as CZI files, the cycle number of
      each file in file order, and the limits of those numbers. */
  predicate CyclesOf(files: seq<string>, info: CycleInfo) {
    && info.numCycles == |files| == |info.numbers|
    && (forall i :: 0 <= i < |files| ==> CycleNumberOf(files[i]) == Some(info.numbers[i]))
    && CycleLimits(info.numbers) == Success((info.lowerLimit, info.upperLimit))
  }

  /** The channel block: one name per channel, each emission wavelength
      read as an integer, and the bit depth read as an integer. */
  predicate ChannelsOf(meta: Metadata, info: ChannelInfo) {
    && |info.names| == |info.wavelengths| == |meta.channels|
    && (forall i :: 0 <= i < |meta.channels| ==>
          info.names[i] == meta.channels[i].name
          && ParseInt(meta.channels[i].emissionWavelength) == Some(info.wavelengths[i]))
    && ParseInt(meta.componentBitCount) == Some(info.bitDepth)
  }

  /** The channel names, the wavelengths parsed and the bit depth parsed. */
  method ChannelFields(meta: Metadata, names: seq<string>, emissions: seq<string>) returns (r: Result<ChannelInfo, DescriptorError>)
    requires |names| == |emissions| == |meta.channels|
    requires forall i :: 0 <= i < |meta.channels| ==>
      names[i] == meta.channels[i].name && emissions[i] == meta.channels[i].emissionWavelength
    ensures r.Success? <==>
      && (forall i :: 0 <= i < |meta.channels| ==> ParseInt(meta.channels[i].emissionWavelength).Some?)
      && ParseInt(meta.componentBitCount).Some?
    ensures r.Failure? ==> r.error.NotAnInteger?
    ensures r.Success? ==> ChannelsOf(meta, r.value)
  {
    var wavelengths := ParseAll(emissions, ParseInt);
    if wavelengths.Failure? {
      var i :| 0 <= i < |emissions| && ParseInt(emissions[i]).None?;
      assert ParseInt(meta.channels[i].emissionWavelength).None?;
      return Failure(NotAnInteger(wavelengths.error));
    }
    var bitDepth := ParseInt(meta.componentBitCount);
    if bitDepth.None? {
      return Failure(NotAnInteger(meta.componentBitCount));
    }
    return Success(ChannelInfo(names, wavelengths.value, bitDepth.value));
  }

  /** The side files and options: the merged options, the channel-name file
      and the ledger, read at the paths the descriptor uses. */
  ghost predicate InputsOf(outdir: string, channelNamesPath: string, user: OptionMap,
                           textFiles: map<string, seq<string>>, e: Experiment)
  {
    && Overlaid(e.options, DefaultOptions(), user)
    && channelNamesPath in textFiles && e.channelNamesArray == StripLines(textFiles[channelNamesPath])
    && ExposurePath(outdir) in textFiles && e.exposureTimesArray == ExposureTable(textFiles[ExposurePath(outdir)])
  }

  /** What is read before the image is opened: the merged options, the CZI
      files next to the image and their cycle numbers. */
  datatype Sources = Sources(options: OptionMap, files: seq<string>, numbers: seq<int>)

  /** The sources of a run: the options overlaid on the defaults, the CZI
      files of the image's directory with their cycle numbers in order, and
      both side files present. */
  ghost predicate SourcesOf(imagePath: string, listing: seq<string>, channelNamesPath: string, outdir: string,
                            user: OptionMap, textFiles: map<string, seq<string>>, s: Sources)
  {
    && Overlaid(s.options, DefaultOptions(), user)
    && s.files == CziFiles(imagePath, listing)
    && |s.numbers| == |s.files|
    && (forall i :: 0 <= i < |s.files| ==> CycleNumberOf(s.files[i]) == Some(s.numbers[i]))
    && channelNamesPath in textFiles && ExposurePath(outdir) in textFiles
  }

  /** The channel-name file is copied into `outdir` unless it already
      lies there; the copy fails when the file is missing. */
  predicate CopyFails(channelNamesPath: string, outdir: string, textFiles: map<string, seq<string>>) {
    Dirname(channelNamesPath) != outdir && channelNamesPath !in textFiles
  }

  /** Every CZI file next to the image has a name ending in an integer. */
  ghost predicate CyclesParse(imagePath: string, listing: seq<string>) {
    forall i :: 0 <= i < |CziFiles(imagePath, listing)| ==> CycleNumberOf(CziFiles(imagePath, listing)[i]).Some?
  }

  /** Every step before the image is opened goes through: the tiling mode
      is the grid, every CZI file's name ends in an integer and both side
      files are present. */
  ghost predicate SourcesReadable(imagePath: string, listing: seq<string>, channelNamesPath: string, outdir: string,
                                  user: OptionMap, textFiles: map<string, seq<string>>)
  {
    && EffectiveTilingMode(user) == GridRows
    && CyclesParse(imagePath, listing)
    && channelNamesPath in textFiles && ExposurePath(outdir) in textFiles
  }

  /** The opening steps of `meta_to_json`: the options, the copy of the
      channel-name file, the cycle numbers of the CZI files and the checks
      for the channel-name file and the ledger, failing at the first step
      that fails. */
  method ReadSources(imagePath: string, listing: seq<string>, channelNamesPath: string, outdir: string,
                     user: OptionMap, textFiles: map<string, seq<string>>)
    returns (r: Result<Sources, DescriptorError>)
    ensures EffectiveTilingMode(user) != GridRows ==> r == Failure(Config(TilingModeNotImplemented))
    ensures EffectiveTilingMode(user) == GridRows && CopyFails(channelNamesPath, outdir, textFiles) ==>
      r == Failure(FileMissing(channelNamesPath))
    ensures (&& EffectiveTilingMode(user) == GridRows && !CopyFails(channelNamesPath, outdir, textFiles)
             && !CyclesParse(imagePath, listing)) ==>
      r.Failure? && r.error.Cycle? && r.error.cycle.InvalidCycleSuffix?
    ensures (&& EffectiveTilingMode(user) == GridRows && !CopyFails(channelNamesPath, outdir, textFiles)
             && CyclesParse(imagePath, listing) && channelNamesPath !in textFiles) ==>
      r == Failure(FileMissing(channelNamesPath))
    ensures (&& EffectiveTilingMode(user) == GridRows && CyclesParse(imagePath, listing)
             && channelNamesPath in textFiles && ExposurePath(outdir) !in textFiles) ==>
      r == Failure(ExposureTimesMissing(ExposurePath(outdir)))
    ensures r.Success? <==> SourcesReadable(imagePath, listing, channelNamesPath, outdir, user, textFiles)
    ensures r.Success? ==> SourcesOf(imagePath, listing, channelNamesPath, outdir, user, textFiles, r.value)
  {
    var options := ProcessUserOptions(user);
    if options.Failure? {
      return Failure(Config(options.error));
    }
    if Dirname(channelNamesPath) != outdir && channelNamesPath !in textFiles {
      return Failure(FileMissing(channelNamesPath));
    }
    var files := CziFiles(imagePath, listing);
    var numbers := ParseCycleNumbers(files);
    assert numbers.Success? <==> CyclesParse(imagePath, listing);
    if numbers.Failure? {
      return Failure(Cycle(numbers.error));
    }
    if channelNamesPath !in textFiles {
      return Failure(FileMissing(channelNamesPath));
    }
    var exposurePath := ExposurePath(outdir);
    if exposurePath !in textFiles {
      return Failure(ExposureTimesMissing(exposurePath));
    }
    assert SourcesReadable(imagePath, listing, channelNamesPath, outdir, user, textFiles);
    return Success(Sources(options.value, files, numbers.value));
  }

  /** Every channel's wavelength and the bit depth are integers. */
  predicate ChannelFieldsParse(meta: Metadata) {
    && (forall i :: 0 <= i < |meta.channels| ==> ParseInt(meta.channels[i].emissionWavelength).Some?)
    && ParseInt(meta.componentBitCount).Some?
  }

  /** Every step after the sources goes through: there is a channel, the
      layout is read, the cross-checks pass and the channel fields parse. */
  predicate Measurable<V(==)>(meta: Metadata<V>, lateralOf: (V, V) -> V, cziPath: string, images: map<string, CziImage>) {
    && meta.channels != []
    && LayoutReadable(meta, cziPath, images)
    && ResolutionsOf(meta, lateralOf).Success?
    && ChannelFieldsParse(meta)
  }

  /** What is read from the image: the tile layout, the cross-checked
      resolutions and the channel fields. */
  datatype Measures<V> = Measures(layout: Layout, resolutions: Resolutions<V>, channels: ChannelInfo)

  /** The channel loop and the checks after it: the channel lists, the
      layout of the CZI file at `cziPath`, the resolutions and the parsed
      channel fields, failing at the first step that fails. With no
      channel the loop body never runs and the tile size is unbound. */
  method Measure<V(==)>(meta: Metadata<V>, lateralOf: (V, V) -> V, cziPath: string, images: map<string, CziImage>)
    returns (r: Result<Measures<V>, DescriptorError>)
    ensures meta.channels == [] ==> r == Failure(Check(Unbound("tile_width")))
    ensures meta.channels != [] && LayoutReadable(meta, cziPath, images) && ResolutionsOf(meta, lateralOf).Failure? ==>
      r == Failure(Check(ResolutionsOf(meta, lateralOf).error))
    ensures r.Success? <==> Measurable(meta, lateralOf, cziPath, images)
    ensures r.Success? ==> cziPath in images && LayoutOf(meta, images[cziPath], r.value.layout)
    ensures r.Success? ==> ResolutionsOf(meta, lateralOf) == Success(r.value.resolutions)
    ensures r.Success? ==> ChannelsOf(meta, r.value.channels)
  {
    var names, emissions := ChannelLists(meta.channels);
    if |meta.channels| == 0 {
      return Failure(Check(Unbound("tile_width")));
    }
    var layout := TileLayout(meta, cziPath, images);
    if layout.Failure? {
      return Failure(layout.error);
    }
    var resolutions := CheckResolutions(meta, lateralOf);
    if resolutions.Failure? {
      return Failure(Check(resolutions.error));
    }
    var channels := ChannelFields(meta, names, emissions);
    if channels.Failure? {
      return Failure(channels.error);
    }
    return Success(Measures(layout.value, resolutions.value, channels.value));
  }

  /** `meta_to_json`. `listing` is the directory of the image; `images` the
      CZI files that open; `textFiles` the lines of the text files present. */
  method MetaToJson<V(==)>(meta: Metadata<V>, lateralOf: (V, V) -> V, imagePath: string, outdir: string,
                           channelNamesPath: string, user: OptionMap, listing: seq<string>,
                           images: map<string, CziImage>, textFiles: map<string, seq<string>>)
    returns (r: Result<Experiment<V>, DescriptorError>)
    ensures EffectiveTilingMode(user) != GridRows ==> r == Failure(Config(TilingModeNotImplemented))
    ensures EffectiveTilingMode(user) == GridRows && CopyFails(channelNamesPath, outdir, textFiles) ==>
      r == Failure(FileMissing(channelNamesPath))
    ensures (&& EffectiveTilingMode(user) == GridRows && !CopyFails(channelNamesPath, outdir, textFiles)
             && !CyclesParse(imagePath, listing)) ==>
      r.Failure? && r.error.Cycle? && r.error.cycle.InvalidCycleSuffix?
    ensures (&& EffectiveTilingMode(user) == GridRows && !CopyFails(channelNamesPath, outdir, textFiles)
             && CyclesParse(imagePath, listing) && channelNamesPath !in textFiles) ==>
      r == Failure(FileMissing(channelNamesPath))
    ensures (&& EffectiveTilingMode(user) == GridRows && CyclesParse(imagePath, listing)
             && channelNamesPath in textFiles && ExposurePath(outdir) !in textFiles) ==>
      r == Failure(ExposureTimesMissing(ExposurePath(outdir)))
    ensures SourcesReadable(imagePath, listing, channelNamesPath, outdir, user, textFiles) && meta.channels == [] ==>
      r == Failure(Check(Unbound("tile_width")))
    ensures r.Success? <==>
      && SourcesReadable(imagePath, listing, channelNamesPath, outdir, user, textFiles)
      && Measurable(meta, lateralOf, CziPath(imagePath), images)
      && CziFiles(imagePath, listing) != []
    ensures r.Success? ==>
      && r.value.name == ImageStem(imagePath) && r.value.path == Dirname(imagePath) && r.value.outputPath == outdir
      && InputsOf(outdir, channelNamesPath, user, textFiles, r.value)
    ensures r.Success? ==> CyclesOf(CziFiles(imagePath, listing), r.value.cycles)
    ensures r.Success? ==> ChannelsOf(meta, r.value.channels)
    ensures r.Success? ==> CziPath(imagePath) in images && LayoutOf(meta, images[CziPath(imagePath)], r.value.layout)
    ensures r.Success? ==> ResolutionsOf(meta, lateralOf) == Success(r.value.resolutions)
  {
    var sources := ReadSources(imagePath, listing, channelNamesPath, outdir, user, textFiles);
    if sources.Failure? {
      return Failure(sources.error);
    }
    var basename := SplitExt(Basename(imagePath)).0;
    var dir := Dirname(imagePath);
    var measures := Measure(meta, lateralOf, PathJoin(dir, basename + ".czi"), images);
    if measures.Failure? {
      return Failure(measures.error);
    }
    var numbers := sources.value.numbers;
    var limits := CycleLimits(numbers);
    if limits.Failure? {
      return Failure(Cycle(limits.error));
    }
    var m := measures.value;
    r := Success(Experiment(
      basename, dir, outdir, sources.value.options,
      CycleInfo(numbers, |sources.value.files|, limits.value.0, limits.value.1), m.channels, m.layout, m.resolutions,
      StripLines(textFiles[channelNamesPath]), ExposureTable(textFiles[ExposurePath(outdir)])));
  }

  /** The descriptor reads the ledger at `outdir + "exposure_times.txt"`
      while the converter writes it at `os.path.join(outdir, ...)`: the two
      are the same file exactly when `outdir` is empty or ends in a slash. */
  lemma ReadsTheWrittenLedger(outdir: string)
    ensures ExposurePath(outdir) == PathJoin(outdir, LedgerName) <==> (outdir == [] || outdir[|outdir| - 1] == '/')
  {
    JoinIsConcatenation(outdir, LedgerName);
  }
}
