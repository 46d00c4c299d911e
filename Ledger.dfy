/** The exposure ledger `exposure_times.txt`: a text file, absent or holding
    lines, to which each cycle of a conversion run appends one row of
    per-channel exposure times (after a header on cycle 1). The file is a
    field of `ExposureLedger` that the write operations reassign. */
module Ledger {
  import opened Wrappers
  import opened Text
  import opened PathNames
  import opened Exposure

  /** The ledger's file name inside the output directory. */
  const LedgerName := "exposure_times.txt"

  /** The column names of the header line. */
  const ColumnNames := ["Cycle", "CH1", "CH2", "CH3", "CH4"]

  /** `Cycle,CH1,CH2,CH3,CH4 `, written on cycle 1, trailing space included,
      whatever the channel count. */
  const Header := Join(ColumnNames, ',') + " "

  /** The ledger file: absent, or present with its lines. */
  type LedgerFile = Option<seq<string>>

  /** The texts `'%s'` gives for converted values. */
  function Texts(vals: seq<Seconds>): (ts: seq<string>)
    ensures |ts| == |vals|
    ensures forall i :: 0 <= i < |vals| ==> ts[i] == ValueText(vals[i])
  {
    seq(|vals|, i requires 0 <= i < |vals| => ValueText(vals[i]))
  }

  /** The row a cycle writes: `str(i_cycle)`, then `,v` per value. */
  function Row(cycle: int, raws: seq<nat>): string {
    Join([IntText(cycle)] + Texts(Converted(raws)), ',')
  }

  /** The lines already in the file, none when it is absent. */
  function Lines(f: LedgerFile): seq<string> {
    if f.Some? then f.value else []
  }

  /** Appending in mode `'a'`: the file is created when absent; the header
      comes first on cycle 1; then the cycle's row. */
  function Appended(f: LedgerFile, cycle: int, row: string): LedgerFile {
    Some(Lines(f) + (if cycle == 1 then [Header] else []) + [row])
  }

  /** One call of `write_exposure_times` as the source has it: an existing
      file is left alone whenever overwrite is off, whatever the cycle. */
  function AsWrittenStep(f: LedgerFile, cycle: int, overwrite: bool, row: string): LedgerFile {
    if f.Some? && !overwrite then f
    else if f.Some? && overwrite && cycle == 1 then Appended(None, cycle, row)
    else Appended(f, cycle, row)
  }

  /** The three branches of a call: skip, truncate-then-write, append. */
  lemma {:induction false} AsWrittenStepCases(f: LedgerFile, cycle: int, overwrite: bool, row: string)
    ensures f.Some? && !overwrite ==> AsWrittenStep(f, cycle, overwrite, row) == f
    ensures f.Some? && overwrite && cycle == 1 ==>
      AsWrittenStep(f, cycle, overwrite, row) == Some([Header, row])
    ensures (f.None? || (overwrite && cycle != 1)) ==>
      var g := AsWrittenStep(f, cycle, overwrite, row);
      && g.Some? && Lines(f) <= g.value
      && |g.value| == |Lines(f)| + (if cycle == 1 then 2 else 1)
      && g.value[|Lines(f)|..] == (if cycle == 1 then [Header, row] else [row])
  {
    FreshLedger(row);
    var g := AsWrittenStep(f, cycle, overwrite, row);
    if f.None? || (overwrite && cycle != 1) {
      assert g.value[|Lines(f)|..] == (if cycle == 1 then [Header] else []) + [row];
    }
  }

  /** Cycle 1 on an absent file writes the header and the row. */
  lemma FreshLedger(row: string)
    ensures Appended(None, 1, row) == Some([Header, row])
  {
    assert [] + [Header] + [row] == [Header, row];
  }

  /** Any later cycle appends its row only. */
  lemma LaterRow(lines: seq<string>, cycle: int, row: string)
    requires cycle != 1
    ensures Appended(Some(lines), cycle, row) == Some(lines + [row])
  {
    assert lines + [] + [row] == lines + [row];
  }

  /** The rows of cycles `first`, `first + 1`, ... for the given per-cycle
      raw exposures. */
  function Rows(exposures: seq<seq<nat>>, first: int): (rows: seq<string>)
    ensures |rows| == |exposures|
    ensures forall i :: 0 <= i < |exposures| ==> rows[i] == Row(first + i, exposures[i])
  {
    seq(|exposures|, i requires 0 <= i < |exposures| => Row(first + i, exposures[i]))
  }

  /** A whole conversion run over the rows of cycles `first`, `first + 1`,
      ..., each calling the source's `write_exposure_times` with the same
      overwrite flag. */
  function AsWrittenRun(f: LedgerFile, overwrite: bool, rows: seq<string>, first: int): LedgerFile
    decreases |rows|
  {
    if rows == [] then f
    else AsWrittenRun(AsWrittenStep(f, first, overwrite, rows[0]), overwrite, rows[1..], first + 1)
  }

  /** Writing one more row is one more call. */
  lemma {:induction false} AsWrittenRunSnoc(f: LedgerFile, overwrite: bool, rows: seq<string>, first: int, row: string)
    ensures AsWrittenRun(f, overwrite, rows + [row], first) ==
      AsWrittenStep(AsWrittenRun(f, overwrite, rows, first), first + |rows|, overwrite, row)
    decreases |rows|
  {
    if rows == [] {
      assert rows + [row] == [row];
      assert [row][1..] == [];
    } else {
      assert (rows + [row])[0] == rows[0];
      assert (rows + [row])[1..] == rows[1..] + [row];
      AsWrittenRunSnoc(AsWrittenStep(f, first, overwrite, rows[0]), overwrite, rows[1..], first + 1, row);
    }
  }

  /** Once the file exists and overwrite is off, the source never writes
      to it again. */
  lemma {:induction false} AsWrittenFrozen(f: LedgerFile, rows: seq<string>, first: int)
    requires f.Some?
    ensures AsWrittenRun(f, false, rows, first) == f
    decreases |rows|
  {
    if rows != [] {
      AsWrittenFrozen(f, rows[1..], first + 1);
    }
  }

  /** The defect: a fresh run with the default `overwrite_exposure=False`
      records cycle 1 only; every later cycle finds the file cycle 1 made and
      is skipped. */
  lemma AsWrittenLosesLaterCycles(rows: seq<string>)
    requires |rows| >= 2
    ensures AsWrittenRun(None, false, rows, 1) == Some([Header, rows[0]])
    ensures AsWrittenRun(None, false, rows, 1) != Some([Header] + rows)
  {
    FreshLedger(rows[0]);
    AsWrittenFrozen(Some([Header, rows[0]]), rows[1..], 2);
    assert |[Header] + rows| == |rows| + 1;
  }

  /** From cycle 2 on, a present file under overwrite gets one row per cycle. */
  lemma {:induction false} AsWrittenAppendsRows(lines: seq<string>, rows: seq<string>, first: int)
    requires first >= 2
    ensures AsWrittenRun(Some(lines), true, rows, first) == Some(lines + rows)
    decreases |rows|
  {
    if rows != [] {
      LaterRow(lines, first, rows[0]);
      AsWrittenAppendsRows(lines + [rows[0]], rows[1..], first + 1);
      assert lines + [rows[0]] + rows[1..] == lines + rows;
    } else {
      assert lines + rows == lines;
    }
  }

  /** With overwrite on, the source's run writes the header and every cycle's
      row, in cycle order, whatever was there before. */
  lemma AsWrittenOverwriteRun(f: LedgerFile, rows: seq<string>)
    requires |rows| >= 1
    ensures AsWrittenRun(f, true, rows, 1) == Some([Header] + rows)
  {
    FreshLedger(rows[0]);
    assert AsWrittenStep(f, 1, true, rows[0]) == Some([Header, rows[0]]);
    AsWrittenAppendsRows([Header, rows[0]], rows[1..], 2);
    assert [Header, rows[0]] + rows[1..] == [Header] + rows;
  }

  /** The intended ledger step. Whether a file found at cycle 1 is to be
      kept is decided at cycle 1 and remembered (`keep`); later cycles append
      unless it was kept. Returns the new file and the new `keep`. */
  function IntendedStep(f: LedgerFile, keep: bool, cycle: int, overwrite: bool, row: string): (LedgerFile, bool) {
    var keep' := if cycle == 1 then f.Some? && !overwrite else keep;
    if keep' then (f, keep')
    else if f.Some? && overwrite && cycle == 1 then (Appended(None, cycle, row), keep')
    else (Appended(f, cycle, row), keep')
  }

  /** The file and the remembered decision after writing `rows` for cycles
      `first`, `first + 1`, ... */
  function IntendedState(f: LedgerFile, keep: bool, overwrite: bool, rows: seq<string>, first: int): (LedgerFile, bool)
    decreases |rows|
  {
    if rows == [] then (f, keep)
    else
      var next := IntendedStep(f, keep, first, overwrite, rows[0]);
      IntendedState(next.0, next.1, overwrite, rows[1..], first + 1)
  }

  function IntendedRun(f: LedgerFile, keep: bool, overwrite: bool, rows: seq<string>, first: int): LedgerFile {
    IntendedState(f, keep, overwrite, rows, first).0
  }

  /** Writing one more row is one more step. */
  lemma {:induction false} IntendedStateSnoc(f: LedgerFile, keep: bool, overwrite: bool, rows: seq<string>, first: int, row: string)
    ensures IntendedState(f, keep, overwrite, rows + [row], first) ==
      var s := IntendedState(f, keep, overwrite, rows, first);
      IntendedStep(s.0, s.1, first + |rows|, overwrite, row)
    decreases |rows|
  {
    if rows == [] {
      assert rows + [row] == [row];
      assert [row][1..] == [];
    } else {
      var next := IntendedStep(f, keep, first, overwrite, rows[0]);
      assert (rows + [row])[0] == rows[0];
      assert (rows + [row])[1..] == rows[1..] + [row];
      IntendedStateSnoc(next.0, next.1, overwrite, rows[1..], first + 1, row);
    }
  }

  /** Past cycle 1, a ledger that is not kept gets exactly one row per cycle
      appended, in cycle order. */
  lemma {:induction false} IntendedAppendsRows(lines: seq<string>, overwrite: bool, rows: seq<string>, first: int)
    requires first >= 2
    ensures IntendedRun(Some(lines), false, overwrite, rows, first) == Some(lines + rows)
    decreases |rows|
  {
    if rows != [] {
      LaterRow(lines, first, rows[0]);
      IntendedAppendsRows(lines + [rows[0]], overwrite, rows[1..], first + 1);
      assert lines + [rows[0]] + rows[1..] == lines + rows;
    } else {
      assert lines + rows == lines;
    }
  }

  /** A kept ledger is never written. */
  lemma {:induction false} IntendedKeeps(f: LedgerFile, overwrite: bool, rows: seq<string>, first: int)
    requires first >= 2
    ensures IntendedRun(f, true, overwrite, rows, first) == f
    decreases |rows|
  {
    if rows != [] {
      IntendedKeeps(f, overwrite, rows[1..], first + 1);
    }
  }

  /** The ledger a whole run leaves: a file found at the start is kept
      untouched when overwrite is off; otherwise the file is the header
      followed by one row per cycle, in cycle order. */
  lemma IntendedRunLedger(f: LedgerFile, overwrite: bool, rows: seq<string>)
    requires |rows| >= 1
    ensures IntendedRun(f, false, overwrite, rows, 1) ==
      if f.Some? && !overwrite then f else Some([Header] + rows)
  {
    var next := IntendedStep(f, false, 1, overwrite, rows[0]);
    if f.Some? && !overwrite {
      IntendedKeeps(f, overwrite, rows[1..], 2);
    } else {
      FreshLedger(rows[0]);
      assert next == (Some([Header, rows[0]]), false);
      IntendedAppendsRows([Header, rows[0]], overwrite, rows[1..], 2);
      assert [Header, rows[0]] + rows[1..] == [Header] + rows;
    }
  }

  /** One ledger write, as the source has it (`corrected` false) or
      corrected: the new file and the remembered keep decision, which the
      source's write leaves alone. */
  function LedgerStep(f: LedgerFile, keep: bool, cycle: int, overwrite: bool, corrected: bool, row: string): (LedgerFile, bool) {
    if corrected then IntendedStep(f, keep, cycle, overwrite, row) else (AsWrittenStep(f, cycle, overwrite, row), keep)
  }

  /** The file and the keep decision after the writes of `rows` for cycles
      `first`, `first + 1`, ... */
  function LedgerState(f: LedgerFile, keep: bool, overwrite: bool, corrected: bool, rows: seq<string>, first: int): (LedgerFile, bool) {
    if corrected then IntendedState(f, keep, overwrite, rows, first) else (AsWrittenRun(f, overwrite, rows, first), keep)
  }

  lemma LedgerStateSnoc(f: LedgerFile, keep: bool, overwrite: bool, corrected: bool, rows: seq<string>, first: int, row: string)
    ensures LedgerState(f, keep, overwrite, corrected, rows + [row], first) ==
      var s := LedgerState(f, keep, overwrite, corrected, rows, first);
      LedgerStep(s.0, s.1, first + |rows|, overwrite, corrected, row)
  {
    if corrected {
      IntendedStateSnoc(f, keep, overwrite, rows, first, row);
    } else {
      AsWrittenRunSnoc(f, overwrite, rows, first, row);
    }
  }

  /** The write loop `filehandle.write(',%s' % listitem)`: the cycle number,
      then a comma and the text of each value. */
  method WriteRow(cycle: int, vals: seq<Seconds>) returns (row: string)
    ensures row == Join([IntText(cycle)] + Texts(vals), ',')
  {
    var fields := [IntText(cycle)] + Texts(vals);
    row := IntText(cycle);
    for i := 0 to |vals|
      invariant row == Join(fields[..i + 1], ',')
    {
      JoinPrefixStep(fields, i + 1, ',');
      row := row + "," + ValueText(vals[i]);
    }
    assert fields[..|vals| + 1] == fields;
  }

  lemma JoinPrefixStep(parts: seq<string>, n: nat, sep: char)
    requires 1 <= n < |parts|
    ensures Join(parts[..n + 1], sep) == Join(parts[..n], sep) + [sep] + parts[n]
  {
    JoinSnoc(parts[..n], parts[n], sep);
    assert parts[..n + 1] == parts[..n] + [parts[n]];
  }

  /** The ledger file of one output directory. `keepExisting` is the memory
      the corrected write needs: whether cycle 1 found a file to keep. */
  class ExposureLedger {
    var file: LedgerFile
    var keepExisting: bool

    constructor (existing: LedgerFile)
      ensures file == existing && !keepExisting
    {
      file := existing;
      keepExisting := false;
    }

    /** `write_exposure_times` as written: skip (warning on cycle 1) when the
        file exists and overwrite is off; otherwise remove an existing file on
        cycle 1 under overwrite, then append the header on cycle 1 and the
        cycle's row. The path is returned whichever branch ran. */
    method WriteExposureTimesAsWritten(raws: seq<nat>, cycle: int, outdir: string, overwrite: bool)
      returns (path: string, warned: bool)
      modifies this
      ensures file == AsWrittenStep(old(file), cycle, overwrite, Row(cycle, raws))
      ensures keepExisting == old(keepExisting)
      ensures warned <==> old(file).Some? && !overwrite && cycle == 1
      ensures path == PathJoin(outdir, LedgerName)
    {
      var vals := ConvertExposures(raws);
      assert vals == Converted(raws);
      warned := false;
      if file.Some? && !overwrite {
        warned := cycle == 1;
      } else {
        if file.Some? && overwrite && cycle == 1 {
          file := None;
        }
        var lines := Lines(file);
        if cycle == 1 {
          lines := lines + [Header];
        }
        assert lines == Lines(file) + (if cycle == 1 then [Header] else []);
        var row := WriteRow(cycle, vals);
        assert row == Row(cycle, raws);
        file := Some(lines + [row]);
      }
      path := PathJoin(outdir, LedgerName);
    }

    /** The corrected write: the keep-or-replace decision is taken on cycle 1
        and remembered, so later cycles of the same run still append. */
    method WriteExposureTimes(raws: seq<nat>, cycle: int, outdir: string, overwrite: bool)
      returns (path: string, warned: bool)
      modifies this
      ensures (file, keepExisting) ==
        IntendedStep(old(file), old(keepExisting), cycle, overwrite, Row(cycle, raws))
      ensures warned <==> old(file).Some? && !overwrite && cycle == 1
      ensures path == PathJoin(outdir, LedgerName)
    {
      var vals := ConvertExposures(raws);
      assert vals == Converted(raws);
      warned := false;
      if cycle == 1 {
        keepExisting := file.Some? && !overwrite;
        warned := keepExisting;
      }
      if !keepExisting {
        if file.Some? && overwrite && cycle == 1 {
          file := None;
        }
        var lines := Lines(file);
        if cycle == 1 {
          lines := lines + [Header];
        }
        assert lines == Lines(file) + (if cycle == 1 then [Header] else []);
        var row := WriteRow(cycle, vals);
        assert row == Row(cycle, raws);
        file := Some(lines + [row]);
      }
      path := PathJoin(outdir, LedgerName);
    }
  }

  /** `[(line.strip()).split(',') for line in et]`: the ledger as the
      descriptor embeds it. */
  function ExposureTable(lines: seq<string>): (table: seq<seq<string>>)
    ensures |table| == |lines|
    ensures forall i :: 0 <= i < |lines| ==> table[i] == Split(Strip(lines[i]), ',')
  {
    seq(|lines|, i requires 0 <= i < |lines| => Split(Strip(lines[i]), ','))
  }

  /** The header reads back as its five column names. */
  lemma HeaderFields()
    ensures Split(Strip(Header), ',') == ColumnNames
  {
    var names := Join(ColumnNames, ',');
    forall i | 0 <= i < |ColumnNames| ensures ColumnNames[i] != [] && ',' !in ColumnNames[i] {
    }
    JoinEnds(ColumnNames, ',');
    assert names[0] == 'C' && names[|names| - 1] == '4';
    StripTrailingSpace(names);
    SplitJoin(ColumnNames, ',');
  }

  /** A row reads back as the cycle number and one field per channel. */
  lemma RowFields(cycle: int, raws: seq<nat>)
    ensures Split(Strip(Row(cycle, raws)), ',') == [IntText(cycle)] + Texts(Converted(raws))
  {
    var parts := [IntText(cycle)] + Texts(Converted(raws));
    forall i | 0 <= i < |parts| ensures ',' !in parts[i] && parts[i] != [] && Trimmed(parts[i]) {
      if i == 0 {
        PlainIntText(cycle);
      } else {
        assert parts[i] == ValueText(ToSeconds(raws[i - 1]));
        PlainValueText(raws[i - 1]);
      }
    }
    JoinTrimmed(parts);
    SplitJoin(parts, ',');
  }

  /** Every field of a row parses back: the first to the cycle number, the
      others to the raw exposures they were written from. */
  lemma RowValues(cycle: int, raws: seq<nat>)
    ensures var fields := Split(Strip(Row(cycle, raws)), ',');
      && |fields| == |raws| + 1
      && ParseInt(fields[0]) == Some(cycle)
      && forall i :: 0 <= i < |raws| ==> MicrosOf(fields[i + 1]) == Some(raws[i])
  {
    RowFields(cycle, raws);
    var fields := Split(Strip(Row(cycle, raws)), ',');
    var texts := Texts(Converted(raws));
    assert fields == [IntText(cycle)] + texts;
    ParseIntText(cycle);
    forall i | 0 <= i < |raws| ensures MicrosOf(fields[i + 1]) == Some(raws[i]) {
      assert fields[i + 1] == texts[i] == ValueText(ToSeconds(raws[i]));
      TextRoundTrip(raws[i]);
    }
  }

  lemma PlainIntText(i: int)
    ensures ',' !in IntText(i) && IntText(i) != [] && Trimmed(IntText(i))
  {
    var d := Digits(if i < 0 then -i else i);
    DigitsArePlain(d);
    if i < 0 {
      assert IntText(i) == "-" + d;
      assert IntText(i)[|IntText(i)| - 1] == d[|d| - 1];
    }
  }

  lemma PlainValueText(raw: nat)
    ensures var t := ValueText(ToSeconds(raw));
      ',' !in t && t != [] && Trimmed(t)
  {
    if raw % Scale == 0 {
      DigitsArePlain(Digits(raw / Scale));
    } else if raw >= 100 {
      PlainFixed(raw);
    } else {
      PlainTiny(raw);
    }
  }

  lemma PlainFixed(r: nat)
    requires r >= 100 && r % Scale != 0
    ensures ',' !in ValueText(Fractional(r)) && ValueText(Fractional(r)) != [] && Trimmed(ValueText(Fractional(r)))
  {
    var d := Digits(r / Scale);
    var fd := DropTrailing(ZeroPad(r % Scale, 6), '0');
    FractionDigits(r % Scale);
    DigitsArePlain(d);
    DigitsArePlain(fd);
    var t := d + "." + fd;
    assert ValueText(Fractional(r)) == t;
    assert t[0] == d[0] && t[|t| - 1] == fd[|fd| - 1];
  }

  lemma PlainTiny(r: nat)
    requires r < 100
    ensures ',' !in ValueText(Fractional(r)) && ValueText(Fractional(r)) != [] && Trimmed(ValueText(Fractional(r)))
  {
    var t := ValueText(Fractional(r));
    var m := if r < 10 then Digits(r) else Digits(r / 10);
    DigitsArePlain(m);
    DigitsArePlain(Digits(r % 10));
    assert t[0] == m[0];
    assert t[|t| - 1] == '5' || t[|t| - 1] == '6';
  }

  /** Joining fields that begin and end without whitespace gives a line that
      `strip()` leaves alone. */
  lemma JoinTrimmed(parts: seq<string>)
    requires |parts| >= 1
    requires forall i :: 0 <= i < |parts| ==> parts[i] != [] && Trimmed(parts[i])
    ensures Trimmed(Join(parts, ','))
  {
    JoinEnds(parts, ',');
  }

  /** A run that left the ledger as header plus rows is read back by the
      descriptor as the column names, then per cycle its number and its
      exposure fields. */
  lemma LedgerReadBack(exposures: seq<seq<nat>>)
    ensures var table := ExposureTable([Header] + Rows(exposures, 1));
      && table[0] == ColumnNames
      && forall c :: 0 <= c < |exposures| ==>
           table[c + 1] == [IntText(c + 1)] + Texts(Converted(exposures[c]))
  {
    HeaderFields();
    forall c | 0 <= c < |exposures|
      ensures ExposureTable([Header] + Rows(exposures, 1))[c + 1] == [IntText(c + 1)] + Texts(Converted(exposures[c]))
    {
      RowReadBack(exposures, c);
    }
  }

  /** The line of cycle `c + 1` is read back as its number and its fields. */
  lemma RowReadBack(exposures: seq<seq<nat>>, c: nat)
    requires c < |exposures|
    ensures ExposureTable([Header] + Rows(exposures, 1))[c + 1] == [IntText(c + 1)] + Texts(Converted(exposures[c]))
  {
    var lines := [Header] + Rows(exposures, 1);
    assert lines[c + 1] == Row(c + 1, exposures[c]);
    RowFields(c + 1, exposures[c]);
  }
}
