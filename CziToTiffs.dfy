/** The multi-cycle converter `czi_to_tiffs`: for each cycle
    `1 .. number of CZI files`, open the CZI file named by the cycle template,
    check its structure, write one TIFF per tile into the cycle's folder
    `cyc{NNN}_reg001`, save its metadata next to the folders and append the
    cycle's exposure times to the ledger. Reading the directory, the CZI
    files and the metadata are inputs; the files written are recorded as
    paths. */
module CziToTiffs {
  import opened Wrappers
  import opened PathNames
  import opened TileGeometry
  import opened TileNames
  import opened CziTiles
  import opened Ledger
  import opened Sequences

  /** The arguments of a run and what it finds on disk. `basedir` and `ext`
      come from the user's CZI path (`JobFor`); `stem` is that path's file
      name without the extension, as the template whose `format(i)` names
      cycle `i`; `listing` holds the names in `basedir`; `images` maps a
      path to the CZI file found there. */
  datatype Job = Job(
    basedir: string, ext: string, stem: CycleFileTemplate, outdir: string, template: NameTemplate,
    overwrite: bool, listing: seq<string>, images: map<string, CziImage>)

  /** `basedir = os.path.dirname(czidir)` and `czi_ext`, the extension of
      `os.path.basename(czidir)`. */
  function JobFor(czidir: string, stem: CycleFileTemplate, outdir: string, template: NameTemplate,
                  overwrite: bool, listing: seq<string>, images: map<string, CziImage>): Job
  {
    Job(Dirname(czidir), SplitExt(Basename(czidir)).1, stem, outdir, template, overwrite, listing, images)
  }

  /** What one completed cycle left on disk, and its `C`, `Z` and tiles. */
  datatype CycleOutput = CycleOutput(
    folder: string, shape: Shape, files: seq<string>, metadataFile: string, exposures: seq<nat>)

  /** `len(glob.glob(os.path.join(basedir, '*' + czi_ext)))`. */
  function NumCycles(job: Job): nat {
    |Glob(job.basedir, job.listing, job.ext)|
  }

  /** `czi_filename.format(i_cyc)`. */
  function CycleBasename(job: Job, cycle: nat): string {
    CycleFileName(job.stem, cycle)
  }

  /** The CZI file of a cycle. */
  function CyclePath(job: Job, cycle: nat): string {
    PathJoin(job.basedir, CycleBasename(job, cycle) + job.ext)
  }

  /** A cycle converts when its file is there, the output folder can be
      made (it is not the empty path), its name ends in a number, the image
      passes the structural checks and its tiles do not move between
      channels and planes. */
  predicate CycleConverts(job: Job, cycle: nat) {
    && CyclePath(job, cycle) in job.images
    && job.outdir != []
    && CycleFolder(CycleBasename(job, cycle)).Some?
    && var img := job.images[CyclePath(job, cycle)];
       WellFormed(img) && UniformUpTo(img, img.size.m)
  }

  /** The error that stops a cycle that does not convert, in the order the
      converter meets the failures. */
  predicate CycleFails(job: Job, cycle: nat, e: CziError) {
    var path := CyclePath(job, cycle);
    if path !in job.images then e == CziFileMissing(path)
    else if job.outdir == [] then e == OutdirNotCreatable(job.outdir)
    else if CycleFolder(CycleBasename(job, cycle)).None? then e == InvalidCycleSuffix(CycleBasename(job, cycle))
    else
      var img := job.images[path];
      if !WellFormed(img) then Some(e) == StructureError(img)
      else e.TileRectVaries? && FirstVarying(img, e.c, e.z, e.m)
  }

  /** The run stopped after the cycles in `outputs`: the next cycle exists
      and fails with `e`. */
  predicate StoppedAt(job: Job, outputs: seq<CycleOutput>, e: CziError) {
    |outputs| < NumCycles(job) && CycleFails(job, |outputs| + 1, e)
  }

  /** The output of a cycle that converts. */
  function Expected(job: Job, cycle: nat): CycleOutput
    requires CycleConverts(job, cycle)
  {
    var basename := CycleBasename(job, cycle);
    var img := job.images[CyclePath(job, cycle)];
    var folder := PathJoin(job.outdir, CycleFolder(basename).value);
    CycleOutput(
      folder, Shape(img.size.c, img.size.z, TileRects(img, img.size.m)),
      Paths(job.template, folder, AllTiles(img.size.c, img.size.z, img.size.m)),
      PathJoin(job.outdir, basename + ".xml"), img.exposures)
  }

  /** What cycle `k` produces when it converts. */
  function Outcome(job: Job): (nat -> Option<CycleOutput>) {
    (k: nat) => if CycleConverts(job, k) then Some(Expected(job, k)) else None
  }

  /** The ledger rows of the completed cycles, in cycle order. */
  function LedgerRows(outputs: seq<CycleOutput>): (rows: seq<string>)
    ensures |rows| == |outputs|
  {
    Rows(seq(|outputs|, i requires 0 <= i < |outputs| => outputs[i].exposures), 1)
  }

  lemma LedgerRowsSnoc(outputs: seq<CycleOutput>, o: CycleOutput)
    ensures LedgerRows(outputs + [o]) == LedgerRows(outputs) + [Row(|outputs| + 1, o.exposures)]
  {
    var exposures := seq(|outputs|, i requires 0 <= i < |outputs| => outputs[i].exposures);
    var exposures' := seq(|outputs| + 1, i requires 0 <= i < |outputs| + 1 => (outputs + [o])[i].exposures);
    assert exposures' == exposures + [o.exposures];
    assert Rows(exposures', 1)[|outputs|] == Row(|outputs| + 1, o.exposures);
    assert Rows(exposures', 1) == Rows(exposures, 1) + [Row(|outputs| + 1, o.exposures)];
  }

  /** The loop's bookkeeping after a cycle converts: its output joins the
      list and its row joins the ledger. */
  lemma AfterCycle(job: Job, corrected: bool, f: LedgerFile, keep: bool, outputs: seq<CycleOutput>,
                   f0: LedgerFile, k0: bool, out: CycleOutput, f1: LedgerFile, k1: bool)
    requires Follows(outputs, Outcome(job))
    requires (f0, k0) == LedgerState(f, keep, job.overwrite, corrected, LedgerRows(outputs), 1)
    requires CycleConverts(job, |outputs| + 1) && out == Expected(job, |outputs| + 1)
    requires (f1, k1) == LedgerStep(f0, k0, |outputs| + 1, job.overwrite, corrected, Row(|outputs| + 1, out.exposures))
    ensures Follows(outputs + [out], Outcome(job))
    ensures (f1, k1) == LedgerState(f, keep, job.overwrite, corrected, LedgerRows(outputs + [out]), 1)
  {
    LedgerRowsSnoc(outputs, out);
    LedgerStateSnoc(f, keep, job.overwrite, corrected, LedgerRows(outputs), 1, Row(|outputs| + 1, out.exposures));
    assert Outcome(job)(|outputs| + 1) == Some(out);
    FollowsSnoc(outputs, Outcome(job), out);
  }

  /** One pass of the cycle loop: open the cycle's file, make the output
      folder (`os.makedirs` of the empty path fails), name the cycle's folder,
      check the image, write its tiles and metadata, then call the ledger
      write, the source's own (`corrected` false) or the corrected one. The
      ledger is written only when the cycle gets that far. */
  method ConvertCycle(job: Job, cycle: nat, ledger: ExposureLedger, corrected: bool) returns (r: Result<CycleOutput, CziError>)
    modifies ledger
    ensures r.Success? <==> CycleConverts(job, cycle)
    ensures r.Success? ==> r.value == Expected(job, cycle)
    ensures r.Failure? ==> CycleFails(job, cycle, r.error)
    ensures r.Success? ==>
      (ledger.file, ledger.keepExisting) ==
      LedgerStep(old(ledger.file), old(ledger.keepExisting), cycle, job.overwrite, corrected, Row(cycle, r.value.exposures))
    ensures r.Failure? ==> ledger.file == old(ledger.file) && ledger.keepExisting == old(ledger.keepExisting)
  {
    var basename := CycleBasename(job, cycle);
    var path := PathJoin(job.basedir, basename + job.ext);
    if path !in job.images {
      return Failure(CziFileMissing(path));
    }
    var img := job.images[path];
    if job.outdir == [] {
      return Failure(OutdirNotCreatable(job.outdir));
    }
    var folderName := CycleFolder(basename);
    if folderName.None? {
      return Failure(InvalidCycleSuffix(basename));
    }
    var folder := PathJoin(job.outdir, folderName.value);
    var err := CheckStructure(img);
    if err.Some? {
      return Failure(err.value);
    }
    var run := CollectTiles(img);
    if run.Failure? {
      return Failure(run.error);
    }
    var metadataFile := PathJoin(job.outdir, basename + ".xml");
    if corrected {
      var ledgerPath, warned := ledger.WriteExposureTimes(img.exposures, cycle, job.outdir, job.overwrite);
    } else {
      var ledgerPath, warned := ledger.WriteExposureTimesAsWritten(img.exposures, cycle, job.outdir, job.overwrite);
    }
    var files := Paths(job.template, folder, run.value.written);
    return Success(CycleOutput(folder, Shape(img.size.c, img.size.z, run.value.tiles), files, metadataFile, img.exposures));
  }

  /** One pass of the loop in terms of the run so far: a failing cycle
      leaves the run as it was; a converting cycle extends the outputs and
      the ledger by one. */
  method NextCycle(job: Job, ledger: ExposureLedger, corrected: bool, outputs: seq<CycleOutput>,
                   ghost f: LedgerFile, ghost keep: bool)
    returns (r: Result<CycleOutput, CziError>)
    requires Follows(outputs, Outcome(job)) && |outputs| < NumCycles(job)
    requires (ledger.file, ledger.keepExisting) == LedgerState(f, keep, job.overwrite, corrected, LedgerRows(outputs), 1)
    modifies ledger
    ensures r.Failure? ==> StoppedAt(job, outputs, r.error) && !AllPresent(Outcome(job), NumCycles(job))
    ensures r.Failure? ==> ledger.file == old(ledger.file) && ledger.keepExisting == old(ledger.keepExisting)
    ensures r.Success? ==> Follows(outputs + [r.value], Outcome(job))
    ensures r.Success? ==>
      (ledger.file, ledger.keepExisting) == LedgerState(f, keep, job.overwrite, corrected, LedgerRows(outputs + [r.value]), 1)
  {
    ghost var f0, k0 := ledger.file, ledger.keepExisting;
    r := ConvertCycle(job, |outputs| + 1, ledger, corrected);
    if r.Success? {
      AfterCycle(job, corrected, f, keep, outputs, f0, k0, r.value, ledger.file, ledger.keepExisting);
    } else {
      assert Outcome(job)(|outputs| + 1).None?;
      AllPresentMeans(Outcome(job), NumCycles(job));
    }
  }

  /** The run, cycle by cycle. `outputs` are the cycles completed before the
      run ended; a failing cycle stops the run with the earlier cycles'
      files and ledger writes already done. With `corrected` false the
      ledger is the source's: on a fresh directory with overwrite off it
      keeps cycle 1's row only (`AsWrittenLosesLaterCycles`). */
  method ConvertCycles(job: Job, ledger: ExposureLedger, corrected: bool) returns (r: Result<Shape, CziError>, outputs: seq<CycleOutput>)
    modifies ledger
    ensures NumCycles(job) == 0 ==> r == Failure(NoCziFiles) && outputs == []
    ensures r.Success? <==> NumCycles(job) > 0 && AllPresent(Outcome(job), NumCycles(job))
    ensures Follows(outputs, Outcome(job))
    ensures r.Success? ==> |outputs| == NumCycles(job)
    ensures r.Success? ==> |outputs| > 0 && r.value == outputs[|outputs| - 1].shape
    ensures r.Failure? && NumCycles(job) > 0 ==> StoppedAt(job, outputs, r.error)
    ensures (ledger.file, ledger.keepExisting) ==
      LedgerState(old(ledger.file), old(ledger.keepExisting), job.overwrite, corrected, LedgerRows(outputs), 1)
  {
    var n := NumCycles(job);
    outputs := [];
    if n == 0 {
      return Failure(NoCziFiles), outputs;
    }
    var last := Shape(0, 0, []);
    for cycle := 1 to n + 1
      invariant |outputs| == cycle - 1
      invariant Follows(outputs, Outcome(job))
      invariant cycle > 1 ==> last == outputs[cycle - 2].shape
      invariant (ledger.file, ledger.keepExisting) ==
        LedgerState(old(ledger.file), old(ledger.keepExisting), job.overwrite, corrected, LedgerRows(outputs), 1)
    {
      var step := NextCycle(job, ledger, corrected, outputs, old(ledger.file), old(ledger.keepExisting));
      if step.Failure? {
        return Failure(step.error), outputs;
      }
      outputs := outputs + [step.value];
      last := step.value.shape;
    }
    FollowsPresent(outputs, Outcome(job));
    return Success(last), outputs;
  }
}
