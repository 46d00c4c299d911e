/** Names of the files and folders the converters write: the tile-file
    template `1_{m:05}_Z{z:03}_CH{c:03}` rendered with 1-based indices, the
    per-cycle CZI file template (`name-{:02}`), and the two cycle-folder
    conventions. Only these fixed zero-padded shapes of Python's format
    mini-language are modelled. */
module TileNames {
  import opened Wrappers
  import opened Text

  /** A tile-file template `<lead>{m:0W}<zSep>{z:0W}<cSep>{c:0W}`. */
  datatype NameTemplate = NameTemplate(
    lead: string, mWidth: nat, zSep: string, zWidth: nat, cSep: string, cWidth: nat)

  /** `'1_{m:05}_Z{z:03}_CH{c:03}'`. */
  const DefaultTemplate := NameTemplate("1_", 5, "_Z", 3, "_CH", 3)

  /** `template.format(c=c, z=z, m=m)` for non-negative numbers. */
  function RenderTile(t: NameTemplate, c: nat, z: nat, m: nat): string {
    t.lead + ZeroPad(m, t.mWidth) + t.zSep + ZeroPad(z, t.zWidth) + t.cSep + ZeroPad(c, t.cWidth)
  }

  /** The file name of the tile at zero-based channel `c`, plane `z` and
      mosaic position `m`: the template rendered with `c+1`, `z+1`, `m+1`. */
  function TileName(t: NameTemplate, c: nat, z: nat, m: nat): string {
    RenderTile(t, c + 1, z + 1, m + 1)
  }

  /** The separators can be told apart from the digits around them. */
  predicate Readable(t: NameTemplate) {
    t.zSep != [] && !IsDigit(t.zSep[0]) && t.cSep != [] && !IsDigit(t.cSep[0])
  }

  /** Reads a non-empty run of digits and the separator after it; returns
      the number and what follows the separator. */
  function ReadNumberThen(s: string, sep: string): Option<(nat, string)> {
    var n := DigitRun(s);
    var r := s[n..];
    if n == 0 || |r| < |sep| || r[..|sep|] != sep then None
    else Some((ValueOf(s[..n]), r[|sep|..]))
  }

  /** Reads a non-empty string made of digits only. */
  function ReadLastNumber(s: string): Option<nat> {
    if s == [] || DigitRun(s) != |s| then None
    else
      assert s[..|s|] == s;
      Some(ValueOf(s))
  }

  /** Reads `(m, z, c)` back out of a rendered name. */
  function ParseTileName(t: NameTemplate, name: string): Option<(nat, nat, nat)> {
    if |name| < |t.lead| || name[..|t.lead|] != t.lead then None
    else
      match ReadNumberThen(name[|t.lead|..], t.zSep)
      case None => None
      case Some((m, r)) =>
        match ReadNumberThen(r, t.cSep)
        case None => None
        case Some((z, r')) =>
          match ReadLastNumber(r')
          case None => None
          case Some(c) => Some((m, z, c))
  }

  /** A digit field followed by a separator that starts with a non-digit is
      read as exactly that field, and the separator comes next. */
  lemma ReadField(d: string, sep: string, rest: string)
    requires AllDigits(d) && d != []
    requires sep != [] && !IsDigit(sep[0])
    ensures ReadNumberThen(d + sep + rest, sep) == Some((ValueOf(d), rest))
  {
    var s := d + sep + rest;
    assert s == d + (sep + rest);
    DigitRunOf(d, sep + rest);
    assert s[..|d|] == d;
    assert s[|d|..] == sep + rest;
    assert (sep + rest)[..|sep|] == sep && (sep + rest)[|sep|..] == rest;
  }

  lemma ReadLast(d: string)
    requires AllDigits(d) && d != []
    ensures ReadLastNumber(d) == Some(ValueOf(d))
  {
    DigitRunOf(d, []);
    assert d + [] == d;
  }

  /** Rendering then reading gives the three numbers back, so a readable
      template never gives two tiles the same name. */
  lemma RenderParse(t: NameTemplate, c: nat, z: nat, m: nat)
    requires Readable(t)
    ensures ParseTileName(t, RenderTile(t, c, z, m)) == Some((m, z, c))
  {
    var dm, dz, dc := ZeroPad(m, t.mWidth), ZeroPad(z, t.zWidth), ZeroPad(c, t.cWidth);
    var r1 := RenderedFields(t, c, z, m);
    ReadField(dm, t.zSep, dz + t.cSep + dc);
    ReadField(dz, t.cSep, dc);
    ReadLast(dc);
  }

  /** A rendered name is the lead, then the fields from the mosaic number on. */
  lemma RenderedFields(t: NameTemplate, c: nat, z: nat, m: nat) returns (r1: string)
    ensures var name := RenderTile(t, c, z, m);
      && r1 == ZeroPad(m, t.mWidth) + t.zSep + (ZeroPad(z, t.zWidth) + t.cSep + ZeroPad(c, t.cWidth))
      && |name| >= |t.lead| && name[..|t.lead|] == t.lead && name[|t.lead|..] == r1
  {
    var dm, dz, dc := ZeroPad(m, t.mWidth), ZeroPad(z, t.zWidth), ZeroPad(c, t.cWidth);
    var name := RenderTile(t, c, z, m);
    r1 := dm + t.zSep + (dz + t.cSep + dc);
    assert name == t.lead + r1;
  }

  /** The name of tile `(c, z, m)` carries the 1-based numbers `m+1`, `z+1`
      and `c+1`. */
  lemma TileNameNumbers(t: NameTemplate, c: nat, z: nat, m: nat)
    requires Readable(t)
    ensures ParseTileName(t, TileName(t, c, z, m)) == Some((m + 1, z + 1, c + 1))
  {
    RenderParse(t, c + 1, z + 1, m + 1);
  }

  /** Distinct tiles get distinct names. */
  lemma TileNamesDistinct(t: NameTemplate, c: nat, z: nat, m: nat, c': nat, z': nat, m': nat)
    requires Readable(t)
    requires TileName(t, c, z, m) == TileName(t, c', z', m')
    ensures c == c' && z == z' && m == m'
  {
    TileNameNumbers(t, c, z, m);
    TileNameNumbers(t, c', z', m');
  }

  lemma DefaultIsReadable()
    ensures Readable(DefaultTemplate)
  {
  }

  /** The per-cycle CZI file name (without extension) from the user's path
      template: a name without a placeholder is used as it is for every
      cycle; `<prefix>{:0W}<suffix>` gets the cycle number zero-padded. */
  datatype CycleFileTemplate =
    | Literal(name: string)
    | Numbered(prefix: string, width: nat, suffix: string)

  /** `czi_filename.format(i_cyc)`. */
  function CycleFileName(t: CycleFileTemplate, cycle: int): string {
    match t
    case Literal(name) => name
    case Numbered(prefix, width, suffix) => prefix + PadInt(cycle, width) + suffix
  }

  /** `'cyc{:03}_reg001'.format(int(basename[-2:]))`: fails as `int()` does
      when the last two characters are not an integer. */
  function CycleFolder(basename: string): Option<string> {
    match ParseInt(Last2(basename))
    case None => None
    case Some(n) => Some("cyc" + PadInt(n, 3) + "_reg001")
  }

  /** `'Cyc' + basename[-2:] + '_reg1'`: the two characters as they are. */
  function SingleCycleFolder(basename: string): string {
    "Cyc" + Last2(basename) + "_reg1"
  }

  /** With a `{:02}`-or-wider placeholder at the end of the template, cycle
      `i` lands in folder `cyc` + the last two digits of `i`, padded to three. */
  lemma NumberedCycleFolder(prefix: string, width: nat, cycle: nat)
    requires width >= 2
    ensures CycleFolder(CycleFileName(Numbered(prefix, width, ""), cycle)) ==
      Some("cyc" + ZeroPad(cycle % 100, 3) + "_reg001")
  {
    var d := ZeroPad(cycle, width);
    var name := prefix + d + "";
    assert name == prefix + d;
    assert Last2(name) == Last2(d);
    PadLastTwo(cycle, width);
  }
}
