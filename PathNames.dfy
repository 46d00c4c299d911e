/** POSIX path handling as the converter uses it: `os.path.splitext`,
    `basename`, `dirname` and `join`, and the two helpers built on
    `splitext`, `extension` and `replace_extension`. */
module PathNames {
  import opened Text

  /** `s.rfind(c)`: the last index holding `c`, or -1 when there is none. */
  function RFind(s: string, c: char): (r: int)
    ensures -1 <= r < |s|
    ensures r >= 0 ==> s[r] == c
    ensures forall k :: r < k < |s| ==> s[k] != c
    decreases |s|
  {
    if s == [] then -1
    else if s[|s| - 1] == c then |s| - 1
    else RFind(s[..|s| - 1], c)
  }

  /** The three properties of `RFind` determine it. */
  lemma RFindUnique(s: string, c: char, r: int)
    requires -1 <= r < |s|
    requires r >= 0 ==> s[r] == c
    requires forall k :: r < k < |s| ==> s[k] != c
    ensures r == RFind(s, c)
  {
  }

  predicate HasNonDot(s: string, lo: int, hi: int)
    requires 0 <= lo <= hi <= |s|
  {
    exists k :: lo <= k < hi && s[k] != '.'
  }

  /** The file-name part of `p` (after its last `/`) holds a character other
      than a dot. */
  predicate NamedFile(p: string) {
    HasNonDot(p, RFind(p, '/') + 1, |p|)
  }

  /** `os.path.splitext(p)`: the extension starts at the last dot of the file
      name, provided some non-dot character precedes that dot in the file
      name (so leading dots, as in `.bashrc`, never start an extension). */
  function SplitExt(p: string): (r: (string, string))
    ensures r.0 + r.1 == p
    ensures r.1 == [] || (r.1[0] == '.' && '.' !in r.1[1..] && '/' !in r.1)
    ensures r.1 != [] <==>
      RFind(p, '.') > RFind(p, '/') && HasNonDot(p, RFind(p, '/') + 1, RFind(p, '.'))
    ensures r.1 != [] ==> |r.0| == RFind(p, '.')
  {
    var sepIndex := RFind(p, '/');
    var dotIndex := RFind(p, '.');
    if dotIndex > sepIndex && HasNonDot(p, sepIndex + 1, dotIndex) then
      var ext := p[dotIndex..];
      assert forall k :: 1 <= k < |ext| ==> ext[k] == p[dotIndex + k];
      (p[..dotIndex], ext)
    else
      (p, "")
  }

  /** `extension(path, lower=...)`: what follows the splitext base, as it
      stands or lowered, so empty or a dot with no further dot or slash.
      Lowered, it holds no capital and completes the lowered base to the
      lowered path. */
  function Extension(p: string, lower: bool): (r: string)
    ensures |r| == |SplitExt(p).1|
    ensures r == [] || (r[0] == '.' && '.' !in r[1..] && '/' !in r)
    ensures !lower ==> SplitExt(p).0 + r == p
    ensures lower ==> Lower(SplitExt(p).0) + r == Lower(p)
    ensures lower ==> forall i :: 0 <= i < |r| ==> !('A' <= r[i] <= 'Z')
  {
    var (base, ext) := SplitExt(p);
    if lower then
      LowerConcat(base, ext);
      assert forall i :: 1 <= i < |ext| ==> Lower(ext)[1..][i - 1] == Lower(ext)[i];
      Lower(ext)
    else ext
  }

  /** `replace_extension(path, ext)`: the splitext base, a dot, then `e`.
      For a named file and an `e` without dots or slashes, splitting the
      result again gives back the old base and the extension `.e`. */
  function ReplaceExtension(p: string, e: string): (r: string)
    ensures r == SplitExt(p).0 + "." + e
    ensures NamedFile(p) && '.' !in e && '/' !in e ==> SplitExt(r) == (SplitExt(p).0, "." + e)
  {
    var base := SplitExt(p).0;
    if NamedFile(p) && '.' !in e && '/' !in e then
      BaseIsNamed(p);
      SplitAfterDot(base, e);
      base + "." + e
    else
      base + "." + e
  }

  /** Text appended after the last occurrence of `c` does not move it. */
  lemma RFindAppend(s: string, t: string, c: char)
    requires c !in t
    ensures RFind(s + t, c) == RFind(s, c)
  {
    RFindUnique(s + t, c, RFind(s, c));
  }

  /** The splitext base of a named file is a named file. */
  lemma BaseIsNamed(p: string)
    requires NamedFile(p)
    ensures NamedFile(SplitExt(p).0)
  {
    var b := SplitExt(p).0;
    var s := RFind(p, '/');
    var d := RFind(p, '.');
    if d > s && HasNonDot(p, s + 1, d) {
      assert b == p[..d];
      RFindUnique(b, '/', s);
      var j :| s + 1 <= j < d && p[j] != '.';
      assert b[j] != '.';
    }
  }

  /** A dot and an `e` without dots or slashes appended to a named file
      split off again as its extension. */
  lemma SplitAfterDot(b: string, e: string)
    requires NamedFile(b) && '.' !in e && '/' !in e
    ensures SplitExt(b + "." + e) == (b, "." + e)
  {
    var q := b + ("." + e);
    assert b + "." + e == q;
    RFindAppend(b, "." + e, '/');
    RFindUnique(q, '.', |b|);
    var k :| RFind(b, '/') + 1 <= k < |b| && b[k] != '.';
    assert q[k] == b[k];
    assert HasNonDot(q, RFind(q, '/') + 1, RFind(q, '.'));
    assert q[..|b|] == b && q[|b|..] == "." + e;
  }

  /** Replacing the extension of a named file by an `e` without dots or
      slashes keeps the base, and `extension` then reads `.e`. */
  lemma ReplaceThenSplit(p: string, e: string)
    requires '.' !in e && '/' !in e
    requires NamedFile(p)
    ensures SplitExt(ReplaceExtension(p, e)) == (SplitExt(p).0, "." + e)
    ensures Extension(ReplaceExtension(p, e), false) == "." + e
  {
    var q := ReplaceExtension(p, e);
    assert SplitExt(q).0 + Extension(q, false) == q;
  }

  /** `os.path.basename(p)`: what follows the last slash, or all of `p`
      when it has none. */
  function Basename(p: string): (r: string)
    ensures '/' !in r && |r| <= |p|
    ensures p == p[..|p| - |r|] + r
    ensures |r| == |p| - RFind(p, '/') - 1
  {
    var r := p[RFind(p, '/') + 1..];
    assert forall i :: 0 <= i < |r| ==> r[i] == p[RFind(p, '/') + 1 + i];
    r
  }

  /** `os.path.dirname(p)`: everything up to the last slash, without the
      trailing slashes unless it consists of slashes only. */
  function Dirname(p: string): (r: string)
    ensures |r| <= |p|
    ensures '/' in p ==> r == p[..|r|]
    ensures '/' !in p ==> r == []
    ensures |r| <= RFind(p, '/') + 1 && forall i :: |r| <= i <= RFind(p, '/') ==> p[i] == '/'
    ensures (exists k :: 0 <= k <= RFind(p, '/') && p[k] != '/') ==> r != [] && r[|r| - 1] != '/'
    ensures (forall k :: 0 <= k <= RFind(p, '/') ==> p[k] == '/') ==> |r| == RFind(p, '/') + 1
  {
    var head := p[..RFind(p, '/') + 1];
    if exists k :: 0 <= k < |head| && head[k] != '/' then DropTrailing(head, '/') else head
  }

  /** `os.path.join(a, b)`. */
  function PathJoin(a: string, b: string): (r: string)
    ensures b != [] && b[0] == '/' ==> r == b
    ensures (b == [] || b[0] != '/') ==> r == a + b || r == a + "/" + b
  {
    if b != [] && b[0] == '/' then b
    else if a == [] || a[|a| - 1] == '/' then a + b
    else a + "/" + b
  }

  /** `os.path.join(dir, name)` agrees with plain concatenation `dir + name`
      exactly when `dir` is empty or ends in a slash. */
  lemma JoinIsConcatenation(dir: string, name: string)
    requires name != [] && name[0] != '/'
    ensures PathJoin(dir, name) == dir + name <==> (dir == [] || dir[|dir| - 1] == '/')
  {
    if !(dir == [] || dir[|dir| - 1] == '/') {
      assert |PathJoin(dir, name)| == |dir + name| + 1;
    }
  }

  /** A name in a directory listing that the pattern `'*' + ext` matches:
      it ends in `ext`, and `*` does not match a leading dot. */
  predicate GlobMatch(name: string, ext: string) {
    name != [] && name[0] != '.' && |name| >= |ext| && name[|name| - |ext|..] == ext
  }

  /** The names of a listing that `'*' + ext` matches, in listing order. */
  function Matching(names: seq<string>, ext: string): (r: seq<string>)
    ensures |r| <= |names|
    ensures forall n :: n in r <==> n in names && GlobMatch(n, ext)
  {
    if names == [] then []
    else
      var rest := Matching(names[1..], ext);
      assert forall n :: n in names <==> n == names[0] || n in names[1..];
      if GlobMatch(names[0], ext) then [names[0]] + rest else rest
  }

  /** `glob.glob(os.path.join(dir, '*' + ext))`, given the names in `dir`. */
  function Glob(dir: string, names: seq<string>, ext: string): (r: seq<string>)
    ensures |r| == |Matching(names, ext)|
    ensures forall i :: 0 <= i < |r| ==> r[i] == PathJoin(dir, Matching(names, ext)[i])
  {
    var ms := Matching(names, ext);
    seq(|ms|, i requires 0 <= i < |ms| => PathJoin(dir, ms[i]))
  }

  /** `path` joins `dir` to a name of the listing that `'*' + ext` matches. */
  predicate JoinsMatch(path: string, dir: string, names: seq<string>, ext: string) {
    exists n :: n in names && GlobMatch(n, ext) && path == PathJoin(dir, n)
  }

  /** Every path of the glob joins `dir` to a listed name that matches, and
      every listed name that matches gives one of its paths. */
  lemma GlobMembers(dir: string, names: seq<string>, ext: string)
    ensures forall i :: 0 <= i < |Glob(dir, names, ext)| ==> JoinsMatch(Glob(dir, names, ext)[i], dir, names, ext)
    ensures forall n :: n in names && GlobMatch(n, ext) ==> PathJoin(dir, n) in Glob(dir, names, ext)
  {
    var ms := Matching(names, ext);
    var r := Glob(dir, names, ext);
    forall i | 0 <= i < |r|
      ensures JoinsMatch(r[i], dir, names, ext)
    {
      var n := ms[i];
      assert n in ms;
      assert n in names && GlobMatch(n, ext) && r[i] == PathJoin(dir, n);
    }
    forall n | n in names && GlobMatch(n, ext)
      ensures PathJoin(dir, n) in r
    {
      var j :| 0 <= j < |ms| && ms[j] == n;
      assert r[j] == PathJoin(dir, n);
    }
  }

  /** A listing has a match exactly when one of its names ends in `ext` and
      is not hidden. */
  lemma {:induction false} GlobEmpty(dir: string, names: seq<string>, ext: string)
    ensures Glob(dir, names, ext) == [] <==> forall n :: n in names ==> !GlobMatch(n, ext)
  {
    var ms := Matching(names, ext);
    if ms != [] {
      assert ms[0] in ms;
    }
  }
}
