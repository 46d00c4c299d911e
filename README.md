# czi2codex core, modelled in Dafny

czi2codex turns Zeiss CZI mosaic acquisitions into the inputs of the CODEX
processing pipeline. This project models three pieces of it and proves
properties about them.

- **The multi-cycle converter.** This is `czi_to_tiffs` in
  `czi2codex/czi2tif_codex.py`. It finds one CZI file per cycle. For each
  file it checks the image structure (dimension order `STCZMYX`, one scene,
  one time point, zero-based axes, a mosaic). It then writes one TIFF per
  tile into `cycNNN_reg001`, insisting that every channel and plane of a
  mosaic position has the same rectangle. It saves the metadata and appends
  the cycle's exposure times to the ledger `exposure_times.txt`.
- **The single-file converter.** This is `czi_to_tiffs` in
  `src/czi2tif_codex.py`. It does the same for one file and the folder
  `Cyc<last two characters>_reg1`.
- **The experiment descriptor.** This is `meta_to_json` in
  `src/generate_metadata_json.py`. It:
  - merges the user's options over the defaults and refuses any tiling mode
    other than `gridrows`;
  - reads the cycle numbers of the CZI files and takes their bounds;
  - computes the tile geometry of a row-major grid;
  - cross-checks the axial and lateral resolutions and the focus offset;
  - embeds the channel names and the ledger lines, stripped and split.

The modules follow the program's structure:

- `Text` and `PathNames` cover the Python string and `os.path` behaviour the
  code relies on: `strip`, `split`, `int()`, `str()`, zero-padded formats,
  `splitext`, `basename`, `dirname`, `join` and `glob`.
- `Options`, `Cycles`, `TileGeometry` and `CrossCheck` cover the steps of
  the descriptor.
- `Exposure` and `Ledger` cover the exposure times and the ledger. The
  ledger is a class whose file is a field the write methods reassign.
- `TileNames` and `CziTiles` cover file naming and the tile loop shared by
  both converters.
- `CziToTiffs`, `SingleCziToTiffs` and `Descriptor` model the three entry
  points.

Reading CZI files, XML and directories is given as input values. Physical
values that are only compared are of an abstract type with equality.

## Model

| member | source | states |
|---|---|---|
| Text.TrimLeft | src/generate_metadata_json.py:329 | `lstrip` returns a suffix of the text that does not start with whitespace |
| Text.TrimLeftDropsSpaces | src/generate_metadata_json.py:329 | everything `lstrip` removes is whitespace |
| Text.TrimRight | src/generate_metadata_json.py:329 | `rstrip` returns a prefix that does not end with whitespace |
| Text.TrimRightDropsSpaces | src/generate_metadata_json.py:329 | everything `rstrip` removes is whitespace |
| Text.Strip | src/generate_metadata_json.py:329 | the result of `strip()` has no surrounding whitespace; text without surrounding whitespace comes back unchanged |
| Text.StripShape | src/generate_metadata_json.py:329 | what `strip()` keeps is the slice of the text that starts after its leading whitespace, and only whitespace lies before and after that slice |
| Text.StripIdempotent | src/generate_metadata_json.py:329-331 | stripping twice is stripping once |
| Text.StripTrailingSpace | czi2codex/czi2tif_codex.py:55 | `strip()` removes the single trailing space written after the ledger header |
| Text.Digits | czi2codex/czi2tif_codex.py:56 | `str(n)` is a non-empty digit string without leading zeros whose value is `n` |
| Text.IntText | czi2codex/czi2tif_codex.py:56 | `str(i)` is the digits of `i`, preceded by `-` when `i` is negative |
| Text.ParseIntText | czi2codex/czi2tif_codex.py:56 | `int(str(i)) == i` for every integer |
| Text.ParseDigits | src/generate_metadata_json.py:165-166 | `int()` of a digit string, leading zeros included, is its decimal value |
| Text.ParseNegative | src/generate_metadata_json.py:188-189 | `int()` of `-` followed by digits is the negated value |
| Text.ZeroPad | czi2codex/czi2tif_codex.py:180 | `'{:0w}'` gives digits worth `n`, of length `w` or the length of `str(n)` when that is longer |
| Text.PadInt | czi2codex/czi2tif_codex.py:125 | `'{:0w}'` of a non-negative integer is its zero-padded digits; of a negative integer, a minus sign then the zero-padded digits of its magnitude, the sign counting towards the width, so the text is `max(w, len(str(i)))` long |
| Text.Last2 | src/generate_metadata_json.py:165-166 | `s[-2:]` is the last two characters, or all of `s` when it is shorter |
| Text.LastTwoDigits | src/generate_metadata_json.py:165-166 | the last two digits of a digit string are worth its value modulo 100 |
| Text.PadLastTwo | czi2codex/czi2tif_codex.py:118-125 | `int()` of the last two characters of a number padded to width two or more is the number modulo 100 |
| Text.JoinSnoc | czi2codex/czi2tif_codex.py:56-59 | appending a part appends the separator and that part to the join |
| Text.JoinEnds | czi2codex/czi2tif_codex.py:56-59 | a join of non-empty parts starts with the first character of the first part and ends with the last character of the last part |
| Text.Split | src/generate_metadata_json.py:330-331 | `split(sep)` never returns an empty list; no piece holds `sep`; joining the pieces gives the text back |
| Text.SplitNoSeparator | src/generate_metadata_json.py:330-331 | text without the separator splits into itself alone |
| Text.SplitAtFirst | src/generate_metadata_json.py:330-331 | a piece without the separator, then the separator, splits off as the first piece |
| Text.SplitJoin | src/generate_metadata_json.py:330-331 | splitting a join gives back the parts when no part holds the separator |
| Text.Lower | czi2codex/czi2tif_codex.py:12-14 | `lower()` keeps the length, turns each ASCII capital `A`-`Z` into its small letter and keeps every other character; no capital is left |
| PathNames.SplitExt | czi2codex/czi2tif_codex.py:104 | `splitext`: base plus extension is the path; the extension is non-empty exactly when the last dot lies after the last slash and a character other than a dot precedes it within the file name, and then the extension starts at that dot, holding no other dot and no slash |
| PathNames.Extension | czi2codex/czi2tif_codex.py:12-14 | `extension` is as long as the `splitext` extension and has its shape; unlowered, it completes the `splitext` base to the path; lowered, it completes the lowered base to the lowered path and holds no ASCII capital |
| PathNames.ReplaceExtension | czi2codex/czi2tif_codex.py:17-19 | `replace_extension` keeps the `splitext` base and puts `.e` after it; when the path names a file and `e` holds no dot or slash, splitting the result gives back that base and `.e` |
| PathNames.ReplaceThenSplit | src/czi2tif_codex.py:14-16 | when a file name is replaced by an extension `e` free of dots and slashes, splitting again gives the old base and `.e`; `extension` then reads `.e` |
| PathNames.Basename | czi2codex/czi2tif_codex.py:104 | `basename` is the suffix of the path that starts right after its last slash, or the whole path when it has none |
| PathNames.Dirname | czi2codex/czi2tif_codex.py:105 | `dirname` is the path up to its last slash, empty when there is none; trailing slashes are dropped from it unless the part up to the last slash is all slashes, which is then kept whole |
| PathNames.PathJoin | czi2codex/czi2tif_codex.py:107 | `join(a, b)` is `b` when `b` is absolute, and otherwise `a + b` or `a + "/" + b` |
| PathNames.JoinIsConcatenation | src/generate_metadata_json.py:172 | `join(dir, name)` equals `dir + name` exactly when `dir` is empty or ends in a slash |
| PathNames.Matching | czi2codex/czi2tif_codex.py:107 | the names `'*' + ext` matches are exactly the listed names ending in `ext` that are not hidden |
| PathNames.GlobMembers | src/generate_metadata_json.py:160 | every path `glob` returns joins the folder to a listed name that matches the pattern, and every listed name that matches gives a returned path |
| PathNames.GlobEmpty | czi2codex/czi2tif_codex.py:107-113 | the glob is empty exactly when no listed name matches, which is when the converter raises `FileNotFoundError` |
| Sequences.SingletonIffUniform | src/generate_metadata_json.py:273 | `len(set(xs)) == 1` exactly when the list is non-empty and all its entries are equal |
| Sequences.FollowsAt | czi2codex/czi2tif_codex.py:116-118 | entry `k` of the results of the cycle loop is the result of cycle `k + 1` |
| Sequences.AllPresentMeans | czi2codex/czi2tif_codex.py:116-118 | cycles `1 .. n` all succeed exactly when each of them does |
| Options.MergeOptions | src/generate_metadata_json.py:75-83 | after the key loop, every user key has the user's value, every other default key keeps its default, and no other key appears |
| Options.ProcessUserOptions | src/generate_metadata_json.py:69-90 | fails with "not implemented" exactly when the tiling mode in force is not `gridrows`; otherwise returns the user options overlaid on the fourteen defaults, with tiling mode `gridrows` |
| TileGeometry.VerticalAt | src/generate_metadata_json.py:208-210 | the vertical list has an entry `j` exactly when the tile `j + 1` rows down exists; that entry compares it with the tile above |
| TileGeometry.HorizontalOverlaps | src/generate_metadata_json.py:205-207 | the horizontal loop fails with an index error exactly when `cols` exceeds the number of tiles; otherwise entry `i` is `x[i] + w - x[i+1]` for `i < cols - 1` |
| TileGeometry.VerticalOverlaps | src/generate_metadata_json.py:208-210 | the loop over `arange(0, M - cols, cols)` yields the vertical overlaps down the first column |
| TileGeometry.ComputeTileGeometry | src/generate_metadata_json.py:196-222 | the overlap block fails at the index error, or the zero-step `arange`, that the source meets, and succeeds exactly when `2 <= cols < M`; then the tile size comes from tile 0 and the overlaps are the first entries of the two lists; the size after overlap subtracts them |
| CrossCheck.LastWithIdIsLast | src/generate_metadata_json.py:228-231 | the last-entry lookup finds nothing exactly when no entry has the id; otherwise it returns the value of the entry that no later entry overrides |
| CrossCheck.LastValueWithId | src/generate_metadata_json.py:251-257 | the loop over the distance table that assigns on every matching `@Id` ends with the last match, or unbound |
| CrossCheck.CheckAxial | src/generate_metadata_json.py:228-237 | the axial check passes exactly when the Z distance exists and equals the Z-stack interval; an absent Z distance is the unbound-variable error and a different one is the mismatch |
| CrossCheck.CheckLateral | src/generate_metadata_json.py:241-265 | the lateral check passes exactly when the pixels are square, X equals the resolution computed from pixel size and magnification, and Y equals X; non-square pixels and X differing from Y fail with their own errors, in source order |
| CrossCheck.CollectFocusOffsets | src/generate_metadata_json.py:269-271 | one focus offset per track, in track order |
| CrossCheck.CheckFocusOffset | src/generate_metadata_json.py:272-278 | the offset is accepted exactly when the list is non-empty and all its entries are equal; the result equals every entry |
| Cycles.ParseCycleNumbers | src/generate_metadata_json.py:162-166 | succeeds exactly when every file's two-character suffix is an integer, giving one number per file in file order; otherwise it reports the first file that fails |
| Cycles.Min | src/generate_metadata_json.py:335 | `min` is an entry of the list and no entry is smaller |
| Cycles.Max | src/generate_metadata_json.py:336 | `max` is an entry of the list and no entry is larger |
| Cycles.CycleLimits | src/generate_metadata_json.py:335-336 | fails exactly when there are no cycle numbers; otherwise both bounds are found numbers and every number lies between them |
| Cycles.DistinctCyclesFitBounds | src/generate_metadata_json.py:335-336 | with distinct cycle numbers, the bounds span at least as many numbers as there are cycles |
| Cycles.CycleSuffixOfName | src/generate_metadata_json.py:165-166 | for a plain `stem.ext`, the cycle suffix is the last two characters of the stem |
| Cycles.CycleOneFile | src/generate_metadata_json.py:165-166 | any plain `.czi` stem ending in `01` is cycle 1 |
| Cycles.RepeatedSuffixesAccepted | src/generate_metadata_json.py:164-166 | two different files with the same two-digit suffix both get cycle number 1; no distinctness check exists |
| Cycles.RepeatedNumbersLimits | src/generate_metadata_json.py:335-336 | an example: two cycles both numbered 1 get the limits `(1, 1)`, which span one number for two cycles |
| Exposure.ToSeconds | czi2codex/czi2tif_codex.py:33-37 | the converted value is an integer exactly when the raw count is a multiple of 10^6, and it loses nothing of the raw count |
| Exposure.Converted | czi2codex/czi2tif_codex.py:32-37 | one converted value per channel, in channel order; each loses nothing of its raw count and is whole exactly when the count is a multiple of 10^6 |
| Exposure.ConvertExposures | czi2codex/czi2tif_codex.py:32-37 | the conversion loop computes `Converted` of the raw counts |
| Exposure.TextRoundTrip | czi2codex/czi2tif_codex.py:57-58 | the `'%s'` text of any converted value reads back as the raw count it came from |
| Exposure.WholeRoundTrip | czi2codex/czi2tif_codex.py:35 | an integer number of seconds reads back as that many millions of raw units |
| Exposure.FixedRoundTrip | czi2codex/czi2tif_codex.py:37 | a fractional value of at least 10^-4 s, written in fixed notation, reads back exactly |
| Exposure.TinyRoundTrip | czi2codex/czi2tif_codex.py:37 | a value below 10^-4 s, written in exponent notation, reads back exactly |
| Exposure.TinyOnes | czi2codex/czi2tif_codex.py:58 | the `Ne-06` shape reads back |
| Exposure.TinyTens | czi2codex/czi2tif_codex.py:58 | the `Ne-05` shape reads back |
| Exposure.TinyMixed | czi2codex/czi2tif_codex.py:58 | the `N.Ne-05` shape reads back |
| Exposure.ExponentIffTiny | czi2codex/czi2tif_codex.py:58 | the written text uses exponent notation exactly when the value is fractional and below 10^-4 s |
| Exposure.DotIffFraction | czi2codex/czi2tif_codex.py:58 | from 10^-4 s upwards, the text holds a dot exactly when the quotient is not whole |
| Exposure.ConversionExamples | czi2codex/czi2tif_codex.py:33-37 | 2 000 000 is written `2`, 1 500 000 `1.5` and 25 `2.5e-05` |
| Ledger.AsWrittenStepCases | czi2codex/czi2tif_codex.py:41-59 | the three branches of one call: an existing file is left alone when overwrite is off; cycle 1 under overwrite replaces it with the header and the row; otherwise the call appends |
| Ledger.FreshLedger | czi2codex/czi2tif_codex.py:53-55 | cycle 1 on an absent file writes the header, then the row |
| Ledger.LaterRow | czi2codex/czi2tif_codex.py:53-59 | any later cycle appends its row only |
| Ledger.AsWrittenFrozen | czi2codex/czi2tif_codex.py:41-47 | as written, once the file exists and overwrite is off, no later call of the run changes it |
| Ledger.AsWrittenLosesLaterCycles | czi2codex/czi2tif_codex.py:41-47 | as written, a fresh run with overwrite off and two or more cycles leaves only the header and cycle 1's row |
| Ledger.AsWrittenAppendsRows | czi2codex/czi2tif_codex.py:49-59 | as written, under overwrite, cycles from 2 on each append their row |
| Ledger.AsWrittenOverwriteRun | czi2codex/czi2tif_codex.py:49-59 | as written, a run under overwrite leaves the header and every cycle's row, whatever was there before |
| Ledger.IntendedAppendsRows | czi2codex/czi2tif_codex.py:49-59 | after cycle 1, a ledger that is not kept gets one row per cycle, in cycle order |
| Ledger.IntendedKeeps | czi2codex/czi2tif_codex.py:41-47 | a ledger kept at cycle 1 is never written again |
| Ledger.IntendedRunLedger | czi2codex/czi2tif_codex.py:22-62 | a corrected run keeps a pre-existing ledger when overwrite is off, and otherwise leaves the header followed by one row per cycle |
| Ledger.WriteRow | czi2codex/czi2tif_codex.py:56-59 | the write loop produces the cycle number, then `,value` for each value: the comma join of those fields |
| Ledger.ExposureLedger.constructor | czi2codex/czi2tif_codex.py:41 | the ledger starts as the file found on disk, with no keep decision |
| Ledger.ExposureLedger.WriteExposureTimesAsWritten | czi2codex/czi2tif_codex.py:22-62 | the call as written: the new file is the as-written step; it warns exactly when cycle 1 finds a file and overwrite is off; it returns `join(outdir, 'exposure_times.txt')` |
| Ledger.ExposureLedger.WriteExposureTimes | czi2codex/czi2tif_codex.py:22-62 | the corrected call: the new file and the remembered keep decision are the intended step; same warning and returned path |
| Ledger.HeaderFields | src/generate_metadata_json.py:330-331 | the header line reads back as its five column names |
| Ledger.RowFields | src/generate_metadata_json.py:330-331 | a written row reads back as the cycle number text, then one text per channel |
| Ledger.RowValues | src/generate_metadata_json.py:330-331 | every field of a row parses back: the first to the cycle number, the others to the raw exposures they came from |
| Ledger.LedgerReadBack | src/generate_metadata_json.py:330-331 | a ledger of header plus rows is read back by the descriptor as the column names, then per cycle its number and its exposure texts |
| TileNames.RenderParse | czi2codex/czi2tif_codex.py:180 | a name rendered from a template whose separators are not digits parses back to its three numbers |
| TileNames.TileNameNumbers | czi2codex/czi2tif_codex.py:180 | the name of tile `(c, z, m)` carries the 1-based `m+1`, `z+1`, `c+1` |
| TileNames.TileNamesDistinct | czi2codex/czi2tif_codex.py:180-181 | different tiles get different names, for templates of the modelled `<lead>{m}<sep>{z}<sep>{c}` shape whose separators are not digits |
| TileNames.DefaultIsReadable | czi2codex/czi2tif_codex.py:68 | the default template `1_{m:05}_Z{z:03}_CH{c:03}` has separators that can be told from digits |
| TileNames.NumberedCycleFolder | czi2codex/czi2tif_codex.py:118-125 | with a `{:0W}` cycle placeholder at the end of the name, cycle `i` gets folder `cyc` followed by `i mod 100` padded to three digits, then `_reg001` |
| CziTiles.StructureError | czi2codex/czi2tif_codex.py:136-154 | the structural checks report no error exactly when the image is well formed; otherwise the first failing check, in source order |
| CziTiles.CheckStructure | src/czi2tif_codex.py:52-69 | the checks run one axis at a time and report the same first error |
| CziTiles.FirstVaryingUnique | czi2codex/czi2tif_codex.py:164-169 | at most one tile is the first, in visiting order, whose rectangle differs |
| CziTiles.CollectTiles | czi2codex/czi2tif_codex.py:157-186 | the mosaic loop succeeds exactly when every channel and plane keeps its position's rectangle; then it returns that tile list and has written every tile in visiting order; otherwise it stops at the first tile that differs |
| CziTiles.AllTilesMembers | czi2codex/czi2tif_codex.py:159-164 | a run visits exactly the tiles with `c < C`, `z < Z` and `m < M` |
| CziTiles.MosaicTilesMembers | czi2codex/czi2tif_codex.py:164 | one mosaic position visits exactly its `C * Z` channel-plane pairs |
| CziTiles.AllTilesDistinct | czi2codex/czi2tif_codex.py:159-164 | a run visits each tile once |
| CziTiles.MosaicTilesDistinct | czi2codex/czi2tif_codex.py:164 | one mosaic position visits each channel-plane pair once |
| CziTiles.AllTilesCount | czi2codex/czi2tif_codex.py:159-164 | a run writes `M * C * Z` files |
| CziTiles.MosaicTilesCount | czi2codex/czi2tif_codex.py:164 | one mosaic position writes `C * Z` files |
| CziTiles.TilePathInjective | czi2codex/czi2tif_codex.py:180-181 | different tiles are written to different paths, for templates of the modelled shape whose separators are not digits |
| CziTiles.RunFilesDistinct | czi2codex/czi2tif_codex.py:157-186 | a run never writes the same file twice, for templates of the modelled shape whose separators are not digits |
| CziToTiffs.LedgerRows | czi2codex/czi2tif_codex.py:196-202 | one ledger row per completed cycle |
| CziToTiffs.ConvertCycle | czi2codex/czi2tif_codex.py:116-202 | one cycle succeeds exactly when its file exists, `outdir` is not empty (so `os.makedirs` can run), its name ends in a number, and the image passes the structural and tile checks, failing in that order; then it yields the expected folder, shape and exposures, and the ledger takes one step: the source's write (`AsWrittenStep`) when `corrected` is off, the corrected write when it is on; a failing cycle reports its first error and leaves the ledger alone |
| CziToTiffs.NextCycle | czi2codex/czi2tif_codex.py:116-202 | one turn of the cycle loop: on success the outputs still follow the cycles and the ledger state advances by the new row; on failure the run stops at that cycle with its error and the ledger is unchanged |
| CziToTiffs.ConvertCycles | czi2codex/czi2tif_codex.py:104-208 | the run fails with no CZI files when the glob is empty; it succeeds exactly when every cycle converts and returns the last cycle's shape; the outputs are those of the completed cycles in order, a failure is the error of the first cycle that fails, and the ledger is the as-written run (`AsWrittenRun`) of the completed cycles' rows when `corrected` is off, the corrected run when it is on |
| SingleCziToTiffs.ConvertFile | src/czi2tif_codex.py:29-109 | an empty `outdir` fails first, at `os.makedirs('')`, with no folder made; otherwise the cycle folder is made before the file is opened; a missing file fails; a well-formed image with tiles whose join folder differs from the made folder and is not among the existing folders fails on that folder; otherwise the conversion succeeds exactly when the structural and tile checks pass, reporting the first failing check, and writes every tile under the join folder |
| SingleCziToTiffs.WriteTiles | src/czi2tif_codex.py:72-101 | for a well-formed image: fails on the missing tile folder when there are tiles and the join folder is absent; otherwise it is the tile loop, writing each tile under the join folder |
| SingleCziToTiffs.TilesInMadeFolder | src/czi2tif_codex.py:38-41 | as paths, the join folder equals the made folder exactly when `outdir` is empty or ends in a slash; an empty `outdir` fails before any folder is made, so in a conversion that gets that far the tiles land in the made folder exactly when `outdir` ends in a slash; the tiles' folder is missing exactly when the two paths differ and it is not already on disk |
| SingleCziToTiffs.ConversionFilesDistinct | src/czi2tif_codex.py:72-101 | a conversion writes no file twice, for templates of the modelled shape whose separators are not digits |
| Descriptor.FirstRefused | src/generate_metadata_json.py:299 | the first text, from a given index on, that the parser refuses, or the end of the list; every text before it parses |
| Descriptor.ParseAll | src/generate_metadata_json.py:299 | `list(map(int, xs))` succeeds exactly when every text parses, giving their values in order; otherwise it fails on the first text that does not parse |
| Descriptor.StripLines | src/generate_metadata_json.py:329 | each channel-name line stripped, in order; a stripped line strips to itself |
| Descriptor.ResolutionsOf | src/generate_metadata_json.py:224-278 | the three checks pass exactly when the Z distance equals the Z-stack interval, the pixels are square, the X distance equals the computed lateral resolution, Y equals X, and every track has the first track's offset; the results are those values |
| Descriptor.CheckResolutions | src/generate_metadata_json.py:224-278 | the loops and checks compute exactly the checked resolutions |
| Descriptor.ChannelLists | src/generate_metadata_json.py:181-185 | the channel names and emission wavelengths, one per channel, in order |
| Descriptor.TilePositions | src/generate_metadata_json.py:196-199 | `tilepos` is the channel 0, plane 0 rectangle of every mosaic position |
| Descriptor.TileLayout | src/generate_metadata_json.py:187-219 | reading `Columns`, reading `Rows`, opening the CZI file and unpacking `czi.size` into seven axes each fail in that order; the layout succeeds exactly when all four work and `2 <= Columns < M`; then it holds the tile geometry of that grid |
| Descriptor.ChannelFields | src/generate_metadata_json.py:298-301 | the wavelengths and the bit depth are read as integers; succeeds exactly when all of them parse |
| Descriptor.ReadSources | src/generate_metadata_json.py:124-177 | the options, the channel-name copy, the cycle numbers and the two side files, failing in source order: tiling mode, a copy whose source file is missing, a cycle suffix that is not an integer, then (the cycles parsing) a missing channel-name file, then (that file present) a missing ledger at `outdir + "exposure_times.txt"`; it succeeds exactly when none of these fails, and then returns the merged options, the CZI files and their cycle numbers |
| Descriptor.Measure | src/generate_metadata_json.py:181-278 | no channel leaves `tile_width` unbound; a readable layout with failing resolutions fails with the resolution error; it succeeds exactly when there are channels, the layout is readable, the resolutions check out and the channel fields parse, and then the layout, resolutions and channel fields are those the checks define |
| Descriptor.MetaToJson | src/generate_metadata_json.py:97-341 | failures in source order (tiling mode, channel-name copy, cycle numbers, missing channel-name file, missing ledger, then no channels leaving `tile_width` unbound); it succeeds exactly when the sources are readable, the measurements succeed and there is a CZI file, and then carries the image stem, the cycle numbers and limits, the channel fields, the layout and the resolutions those steps define |
| Descriptor.ReadsTheWrittenLedger | src/generate_metadata_json.py:172 | the ledger path the descriptor reads is the path the converter writes exactly when `outdir` is empty or ends in a slash |

## Left out

- Reading CZI files (pixel data, subblock metadata, the XML tree) is left out: a CZI file is a value holding its dimension string, sizes, axis starts, mosaic flag, subblock rectangles and raw exposure times.
- Writing TIFF, XML and JSON files is recorded as file paths and returned values only; compression and `save_tile_metadata` are not modelled.
- Directory listings are given as input: the names in a directory, and which text files exist with their lines. `glob` is modelled on a given listing, in listing order.
- `os.makedirs` is modelled only by its failure on an empty `outdir` (SingleCziToTiffs.ConvertFile, CziToTiffs.ConvertCycle); other failures of it (permissions, a file in the way) are left out, and so is the file the copy of the channel names (`shutil.copyfile`) writes; only the copy's failure on a missing source file is modelled. `shutil.copyfile` onto itself, a path spelled differently from `outdir`'s own folder, is not modelled either. The progress messages and the warning text are left out too; the warning appears only as a flag.
- Text.Lower: only ASCII capitals are lowered. Python's Unicode `lower()`, which can change other letters and even the length, is not modelled.
- PathNames.Extension: lowers through Text.Lower, so only ASCII capitals in an extension are lowered.
- Text.ParseInt: accepts ASCII digits only. Python's `int()` also accepts `_` between digits (`int("1_0") == 10`) and decimal digits of other scripts; the model refuses those.
- TileNames.NameTemplate: only templates of the form `<lead>{m:0W}<sep>{z:0W}<sep>{c:0W}` are representable. A template missing a placeholder, with which the source writes several tiles to one file, is outside the model; so TileNames.TileNamesDistinct, CziTiles.TilePathInjective, CziTiles.RunFilesDistinct and SingleCziToTiffs.ConversionFilesDistinct hold for that form with separators that are not digits, not for every template the source accepts.
- Descriptor.TileLayout: `czi.size` is unpacked positionally, so for seven axes in an order other than `STCZMYX` the source takes the fifth axis as `M`; the model always reads the mosaic size.
- Ledger.AsWrittenStep: `overwrite` is a `bool`. The source tests `overwrite_exposure is False` by identity (czi2codex/czi2tif_codex.py:41-42), so a falsy non-bool flag such as `None` or `0` on an existing ledger takes the append branch rather than the skip branch; that case is not modelled.
- Ledger.LedgerFile: the file is a list of lines. A pre-existing ledger whose last line lacks a newline gets the next row glued onto that line by the source; the model keeps the lines apart.
- CrossCheck.CheckLateral: the physical values are abstract, so `float()` parsing and the scaling by `1e9` and `1e-6` are not modelled. The lateral resolution is a given function of pixel size and magnification.
- Exposure.ToSeconds: a raw `ExposureTime` is modelled as a whole number of micro-units (10^-6 s). Raw values with finer fractions, and float rounding, are not modelled.
- Descriptor.MetaToJson: the tile geometry is computed once rather than once per channel. Every iteration has the same inputs and the same result.
- Descriptor.MetaToJson: the fields copied verbatim from the metadata are not modelled: date, microscope, numerical aperture, objective type, the magnification text. Neither are the constant fields: `numSubTiles`, `num_z_planes` and the `tile_width`/`tile_height` placeholder strings.
- Descriptor.MetaToJson: the `xmltodict` shortcuts that raise `KeyError` on missing XML elements are not modelled. The metadata is a value with the needed fields present.
- Descriptor.ChannelLists, CrossCheck.CollectFocusOffsets, CziToTiffs.ConvertCycle: `xmltodict` turns a lone repeated element into a dict rather than a one-element list, so with exactly one `Channel` the source's `d_channel[i]` raises `KeyError: 0` (czi2codex/czi2tif_codex.py:33-34, after the tiles and metadata are written; src/generate_metadata_json.py:183-184), and with exactly one `Track` so does src/generate_metadata_json.py:270-271. The model holds channels and tracks as lists, so one-channel and one-track metadata succeed in the model where the source crashes.
- CziToTiffs.ConvertCycles: when a cycle fails part-way, the tile files it wrote before failing are not recorded. Only completed cycles are listed.
- TileNames.CycleFileName: `czi_filename.format(i)` is modelled for a name without a placeholder and for one `{:0W}` placeholder only. Other forms of the format mini-language are not modelled.
- Options.ProcessUserOptions: reading and decoding the JSON options file is left out; the user's options are given as a map.

## Findings

| source | as written | input that shows it | evidently intended | confidence | as-written member | corrected member |
|---|---|---|---|---|---|---|
| czi2codex/czi2tif_codex.py:41-47 | every call skips writing when the ledger exists and `overwrite_exposure` is false, whatever the cycle | a run on a directory without `exposure_times.txt`, with the default `overwrite_exposure=False` and two or more CZI files: cycle 1 creates the ledger, and cycle 2 and later find it and are skipped | the keep-or-replace decision is taken at cycle 1; later cycles of the same run append their rows | not executed | Ledger.AsWrittenLosesLaterCycles | Ledger.IntendedRunLedger |

CziToTiffs.ConvertCycle and CziToTiffs.ConvertCycles take a `corrected` flag. With it off they write the ledger as the source does, so a fresh run with `overwrite_exposure` off keeps only cycle 1; with it on they write the corrected ledger.
