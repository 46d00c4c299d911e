/** Cycle enumeration for the descriptor: one acquisition file per cycle,
    whose cycle number is the integer value of the last two characters of
    its base name; the bounds are the least and greatest number found. */
module Cycles {
  import opened Wrappers
  import opened Text
  import opened PathNames
  import opened Sequences

  datatype CycleError =
    | InvalidCycleSuffix(suffix: string)   // `int()` refused the two characters
    | NoCycleFiles                         // `min()` of an empty list

  /** The text whose integer value is a file's cycle number. */
  function CycleSuffix(path: string): string {
    Last2(SplitExt(Basename(path)).0)
  }

  /** `int(os.path.splitext(os.path.basename(f))[0][-2:])`. */
  function CycleNumberOf(path: string): Option<int> {
    ParseInt(CycleSuffix(path))
  }

  /** The loop building `cycles_nr_list`: one number per file, in file order;
      the first file whose suffix is not an integer stops it. */
  method ParseCycleNumbers(files: seq<string>) returns (r: Result<seq<int>, CycleError>)
    ensures r.Success? <==> forall i :: 0 <= i < |files| ==> CycleNumberOf(files[i]).Some?
    ensures r.Success? ==> |r.value| == |files|
    ensures r.Success? ==> forall i :: 0 <= i < |files| ==> r.value[i] == CycleNumberOf(files[i]).value
    ensures r.Failure? ==> exists i ::
      && 0 <= i < |files| && CycleNumberOf(files[i]).None?
      && r.error == InvalidCycleSuffix(CycleSuffix(files[i]))
      && forall j :: 0 <= j < i ==> CycleNumberOf(files[j]).Some?
  {
    var nrs: seq<int> := [];
    for i := 0 to |files|
      invariant |nrs| == i
      invariant forall k :: 0 <= k < i ==> CycleNumberOf(files[k]) == Some(nrs[k])
    {
      var n := CycleNumberOf(files[i]);
      if n.None? {
        r := Failure(InvalidCycleSuffix(CycleSuffix(files[i])));
        assert 0 <= i < |files| && CycleNumberOf(files[i]).None?;
        return;
      }
      var extended := nrs + [n.value];
      forall k | 0 <= k < i + 1 ensures CycleNumberOf(files[k]) == Some(extended[k]) {
        if k < i {
          assert extended[k] == nrs[k];
        }
      }
      nrs := extended;
    }
    return Success(nrs);
  }

  /** Python's `min` of a non-empty list. */
  function Min(s: seq<int>): (m: int)
    requires |s| > 0
    ensures m in s && forall i :: 0 <= i < |s| ==> m <= s[i]
  {
    if |s| == 1 then s[0]
    else
      var rest := Min(s[1..]);
      if s[0] <= rest then s[0] else rest
  }

  /** Python's `max` of a non-empty list. */
  function Max(s: seq<int>): (m: int)
    requires |s| > 0
    ensures m in s && forall i :: 0 <= i < |s| ==> s[i] <= m
  {
    if |s| == 1 then s[0]
    else
      var rest := Max(s[1..]);
      if s[0] >= rest then s[0] else rest
  }

  /** `cycle_lower_limit` and `cycle_upper_limit`: both are found cycle
      numbers and every found number lies between them; no files at all is
      an error. */
  function CycleLimits(nrs: seq<int>): (r: Result<(int, int), CycleError>)
    ensures r.Failure? <==> nrs == []
    ensures r.Failure? ==> r.error == NoCycleFiles
    ensures r.Success? ==>
      && r.value.0 in nrs && r.value.1 in nrs
      && forall i :: 0 <= i < |nrs| ==> r.value.0 <= nrs[i] <= r.value.1
  {
    if nrs == [] then Failure(NoCycleFiles) else Success((Min(nrs), Max(nrs)))
  }

  /** The integers from `lo` to `hi`. */
  function Range(lo: int, hi: int): (r: set<int>)
    ensures forall i :: i in r <==> lo <= i <= hi
    ensures lo <= hi + 1 ==> |r| == hi - lo + 1
    decreases hi - lo
  {
    if lo > hi then {} else Range(lo, hi - 1) + {hi}
  }

  /** When no two files carry the same cycle number, the bounds span at
      least as many numbers as there are cycles (gaps allowed). */
  lemma DistinctCyclesFitBounds(nrs: seq<int>)
    requires nrs != [] && Distinct(nrs)
    ensures CycleLimits(nrs).Success?
    ensures CycleLimits(nrs).value.1 - CycleLimits(nrs).value.0 + 1 >= |nrs|
  {
    var lo, hi := Min(nrs), Max(nrs);
    assert Elements(nrs) <= Range(lo, hi);
    DistinctElements(nrs);
    assert |Elements(nrs)| <= |Range(lo, hi)| by {
      assert Range(lo, hi) == Elements(nrs) + (Range(lo, hi) - Elements(nrs));
    }
  }

  /** For a plain file name `stem` + `ext` (no directory, one dot, which
      starts `ext`), the cycle suffix is the last two characters of the stem. */
  lemma CycleSuffixOfName(stem: string, ext: string)
    requires stem != [] && '/' !in stem && '.' !in stem
    requires |ext| >= 1 && ext[0] == '.' && '/' !in ext && '.' !in ext[1..]
    ensures CycleSuffix(stem + ext) == Last2(stem)
  {
    var e := ext[1..];
    assert ext == "." + e;
    RFindUnique(stem, '.', -1);
    RFindUnique(stem, '/', -1);
    assert SplitExt(stem) == (stem, "");
    assert stem[0] != '.';
    assert NamedFile(stem);
    ReplaceThenSplit(stem, e);
    assert ReplaceExtension(stem, e) == stem + ext;
    RFindUnique(stem + ext, '/', -1);
    assert Basename(stem + ext) == stem + ext;
  }

  /** The source never checks that cycle numbers are distinct: two files
      ending in the same two digits give the same number, ... */
  lemma RepeatedSuffixesAccepted()
    ensures CycleNumberOf("a01" + ".czi") == CycleNumberOf("b01" + ".czi") == Some(1)
  {
    CycleOneFile("a01");
    CycleOneFile("b01");
  }

  /** ... and the limits do not notice: for the two cycles above, both
      numbered 1, the limits are `(1, 1)`, a span of one number for two
      cycles. */
  lemma RepeatedNumbersLimits()
    ensures CycleLimits([1, 1]) == Success((1, 1))
    ensures var (lo, hi) := CycleLimits([1, 1]).value; hi - lo + 1 < |[1, 1]|
  {
    assert Min([1, 1]) == 1 && Max([1, 1]) == 1;
  }

  /** Any plain `.czi` file name whose stem ends in `01` is cycle 1. */
  lemma CycleOneFile(stem: string)
    requires |stem| >= 2 && stem[|stem| - 2..] == "01"
    requires '/' !in stem && '.' !in stem
    ensures CycleNumberOf(stem + ".czi") == Some(1)
  {
    CycleSuffixOfName(stem, ".czi");
    ParseOne();
  }

  lemma ParseOne()
    ensures ParseInt("01") == Some(1)
  {
    assert ValueOf("01") == 1 by {
      assert "01"[..1] == "0";
    }
    ParseDigits("01");
  }
}
