/** The parts of Python's `str` and `int` behaviour the converter relies on:
    `strip()`, `split(',')`, `','.join`, `int(text)`, `str(n)`, the
    zero-padded `'{:0N}'` format, the `s[-2:]` slice and `lower()`. */
module Text {
  import opened Wrappers

  /** Python's `str.isspace()` for one character. */
  predicate IsSpace(c: char) {
    || c == ' '
    || ('\t' <= c <= '\r')
    || ('\U{1C}' <= c <= '\U{1F}')
    || c == '\U{85}' || c == '\U{A0}' || c == '\U{1680}'
    || ('\U{2000}' <= c <= '\U{200A}')
    || c == '\U{2028}' || c == '\U{2029}' || c == '\U{202F}'
    || c == '\U{205F}' || c == '\U{3000}'
  }

  /** `s.lstrip()`: a suffix of `s` that does not start with whitespace. */
  function TrimLeft(s: string): (r: string)
    ensures |r| <= |s| && r == s[|s| - |r|..]
    ensures r == [] || !IsSpace(r[0])
  {
    if s != [] && IsSpace(s[0]) then TrimLeft(s[1..]) else s
  }

  /** What `lstrip` drops is whitespace only. */
  lemma {:induction false} TrimLeftDropsSpaces(s: string)
    ensures forall i :: 0 <= i < |s| - |TrimLeft(s)| ==> IsSpace(s[i])
    decreases |s|
  {
    if s != [] && IsSpace(s[0]) {
      TrimLeftDropsSpaces(s[1..]);
    }
  }

  /** `s.rstrip()`: a prefix of `s` that does not end with whitespace. */
  function TrimRight(s: string): (r: string)
    ensures |r| <= |s| && r == s[..|r|]
    ensures r == [] || !IsSpace(r[|r| - 1])
  {
    if s != [] && IsSpace(s[|s| - 1]) then TrimRight(s[..|s| - 1]) else s
  }

  /** What `rstrip` drops is whitespace only. */
  lemma {:induction false} TrimRightDropsSpaces(s: string)
    ensures forall i :: |TrimRight(s)| <= i < |s| ==> IsSpace(s[i])
    decreases |s|
  {
    if s != [] && IsSpace(s[|s| - 1]) {
      TrimRightDropsSpaces(s[..|s| - 1]);
    }
  }

  predicate Trimmed(s: string) {
    s == [] || (!IsSpace(s[0]) && !IsSpace(s[|s| - 1]))
  }

  /** `r` sits in `s` at index `k`, with only whitespace before and after
      it. */
  predicate Surrounds(s: string, r: string, k: nat) {
    && k + |r| <= |s|
    && (forall i :: 0 <= i < |r| ==> r[i] == s[k + i])
    && (forall i :: 0 <= i < k ==> IsSpace(s[i]))
    && (forall i :: k + |r| <= i < |s| ==> IsSpace(s[i]))
  }

  /** `s.strip()`: the part of `s` left once the whitespace on both sides is
      removed. The result has no surrounding whitespace, and a string
      without surrounding whitespace is returned unchanged; StripShape
      places the result in `s`. */
  function Strip(s: string): (r: string)
    ensures Trimmed(r) && |r| <= |s|
    ensures Trimmed(s) ==> r == s
  {
    TrimmedKept(s);
    TrimRight(TrimLeft(s))
  }

  /** What `strip()` keeps sits in `s` right after the leading whitespace,
      and only whitespace lies on either side of it. */
  lemma {:induction false} StripShape(s: string)
    ensures Surrounds(s, Strip(s), |s| - |TrimLeft(s)|)
  {
    var u := TrimLeft(s);
    var r := TrimRight(u);
    assert Strip(s) == r;
    TrimLeftDropsSpaces(s);
    TrimRightDropsSpaces(u);
    InnerSlice(s, u, r);
  }

  /** Text without surrounding whitespace is left alone by both trims. */
  lemma TrimmedKept(s: string)
    ensures Trimmed(s) ==> TrimLeft(s) == s && TrimRight(s) == s
  {
  }

  /** A prefix `r` of a suffix `u` of `s`, where only whitespace precedes
      `u` in `s` and follows `r` in `u`, sits in `s` where `u` starts. */
  lemma {:induction false} InnerSlice(s: string, u: string, r: string)
    requires |u| <= |s| && u == s[|s| - |u|..]
    requires |r| <= |u| && r == u[..|r|]
    requires forall i :: 0 <= i < |s| - |u| ==> IsSpace(s[i])
    requires forall i :: |r| <= i < |u| ==> IsSpace(u[i])
    ensures Surrounds(s, r, |s| - |u|)
  {
    var k := |s| - |u|;
    forall i | 0 <= i < |r|
      ensures r[i] == s[k + i]
    {
      assert r[i] == u[i];
    }
    forall i | k + |r| <= i < |s|
      ensures IsSpace(s[i])
    {
      assert s[i] == u[i - k];
    }
  }

  lemma StripIdempotent(s: string)
    ensures Strip(Strip(s)) == Strip(s)
  {
  }

  predicate IsDigit(c: char) {
    '0' <= c <= '9'
  }

  predicate AllDigits(s: string) {
    forall i :: 0 <= i < |s| ==> IsDigit(s[i])
  }

  function DigitValue(c: char): (d: nat)
    requires IsDigit(c)
    ensures d < 10
  {
    (c as int) - ('0' as int)
  }

  function DigitChar(d: nat): (c: char)
    requires d < 10
    ensures IsDigit(c) && DigitValue(c) == d
  {
    (48 + d) as char
  }

  /** The number a string of decimal digits denotes (leading zeros allowed). */
  function ValueOf(s: string): nat
    requires AllDigits(s)
    decreases |s|
  {
    if s == [] then 0 else ValueOf(s[..|s| - 1]) * 10 + DigitValue(s[|s| - 1])
  }

  /** `str(n)` for a natural number: decimal digits without leading zeros. */
  function Digits(n: nat): (s: string)
    ensures |s| >= 1 && AllDigits(s)
    ensures |s| > 1 ==> s[0] != '0'
    ensures ValueOf(s) == n
    decreases n
  {
    if n < 10 then [DigitChar(n)]
    else
      var s := Digits(n / 10) + [DigitChar(n % 10)];
      assert s[..|s| - 1] == Digits(n / 10);
      s
  }

  /** `str(i)` for any integer. */
  function IntText(i: int): (s: string)
    ensures |s| >= 1 && IsDigit(s[|s| - 1])
    ensures i >= 0 ==> s == Digits(i)
    ensures i < 0 ==> s == "-" + Digits(-i)
  {
    if i < 0 then "-" + Digits(-i) else Digits(i)
  }

  function Zeros(k: nat): (s: string)
    ensures |s| == k && forall i :: 0 <= i < k ==> s[i] == '0'
  {
    seq(k, _ => '0')
  }

  lemma {:induction false} ValueOfZeros(k: nat)
    ensures AllDigits(Zeros(k)) && ValueOf(Zeros(k)) == 0
  {
    if k > 0 {
      assert Zeros(k)[..k - 1] == Zeros(k - 1);
      ValueOfZeros(k - 1);
    }
  }

  /** Leading zeros do not change the value of a digit string. */
  lemma {:induction false} ValueOfLeadingZeros(k: nat, s: string)
    requires AllDigits(s)
    ensures AllDigits(Zeros(k) + s) && ValueOf(Zeros(k) + s) == ValueOf(s)
    decreases |s|
  {
    var t := Zeros(k) + s;
    if s == [] {
      assert t == Zeros(k);
      ValueOfZeros(k);
    } else {
      assert t[..|t| - 1] == Zeros(k) + s[..|s| - 1];
      ValueOfLeadingZeros(k, s[..|s| - 1]);
    }
  }

  function Pow10(k: nat): (p: nat)
    ensures p >= 1
  {
    if k == 0 then 1 else 10 * Pow10(k - 1)
  }

  /** A number below `10^k` needs at most `k` digits. */
  lemma {:induction false} DigitsLength(n: nat, k: nat)
    requires k >= 1 && n < Pow10(k)
    ensures |Digits(n)| <= k
    decreases k
  {
    if n >= 10 {
      assert n / 10 < Pow10(k - 1);
      DigitsLength(n / 10, k - 1);
    }
  }

  /** Trailing zeros scale the value of a digit string by a power of ten. */
  lemma {:induction false} ValueOfTrailingZeros(s: string, k: nat)
    requires AllDigits(s)
    ensures AllDigits(s + Zeros(k)) && ValueOf(s + Zeros(k)) == ValueOf(s) * Pow10(k)
    decreases k
  {
    var t := s + Zeros(k);
    if k > 0 {
      assert t[..|t| - 1] == s + Zeros(k - 1);
      ValueOfTrailingZeros(s, k - 1);
      assert t[|t| - 1] == '0';
      var v := ValueOf(s);
      calc {
        ValueOf(t);
        ValueOf(s + Zeros(k - 1)) * 10;
        v * Pow10(k - 1) * 10;
        { assert Pow10(k) == 10 * Pow10(k - 1); }
        v * Pow10(k);
      }
    } else {
      assert t == s;
    }
  }

  /** A digit string holds no separator or sign, and no surrounding space. */
  lemma DigitsArePlain(s: string)
    requires AllDigits(s)
    ensures ',' !in s && '.' !in s && 'e' !in s && '-' !in s
    ensures s != [] ==> Trimmed(s)
  {
  }

  /** `strip()` removes one trailing space from text without surrounding
      whitespace. */
  lemma StripTrailingSpace(s: string)
    requires s != [] && Trimmed(s)
    ensures Strip(s + " ") == s
  {
    var t := s + " ";
    assert t[0] == s[0];
    assert TrimLeft(t) == t;
    assert t[|t| - 1] == ' ' && t[..|t| - 1] == s;
    assert TrimRight(s) == s;
    assert TrimRight(t) == s;
  }

  /** `'{:0w}'.format(n)` for a natural number. */
  function ZeroPad(n: nat, w: nat): (s: string)
    ensures AllDigits(s) && ValueOf(s) == n
    ensures |s| == if w > |Digits(n)| then w else |Digits(n)|
  {
    var d := Digits(n);
    var k := if w > |d| then w - |d| else 0;
    ValueOfLeadingZeros(k, d);
    Zeros(k) + d
  }

  /** `'{:0w}'.format(i)` for any integer: the sign counts towards the width. */
  function PadInt(i: int, w: nat): (s: string)
    ensures i >= 0 ==> s == ZeroPad(i, w)
    ensures |s| >= 1
    ensures i < 0 ==> s[0] == '-' && AllDigits(s[1..]) && ValueOf(s[1..]) == -i
    ensures i < 0 ==> |s| == if w > |IntText(i)| then w else |IntText(i)|
  {
    if i >= 0 then ZeroPad(i, w)
    else
      var s := "-" + ZeroPad(-i, if w > 0 then w - 1 else 0);
      assert s[1..] == ZeroPad(-i, if w > 0 then w - 1 else 0);
      s
  }

  /** Python's `int(text)` on decimal text: surrounding whitespace, an
      optional sign, then at least one ASCII digit. */
  function ParseInt(s: string): (r: Option<int>)
  {
    var t := Strip(s);
    if |t| >= 2 && (t[0] == '+' || t[0] == '-') && AllDigits(t[1..]) then
      var magnitude: int := ValueOf(t[1..]);
      var v: int := if t[0] == '-' then 0 - magnitude else magnitude;
      Some(v)
    else if |t| >= 1 && AllDigits(t) then
      Some(ValueOf(t))
    else
      None
  }

  lemma ParseDigits(s: string)
    requires |s| >= 1 && AllDigits(s)
    ensures ParseInt(s) == Some(ValueOf(s))
  {
    assert !IsSpace(s[0]) && !IsSpace(s[|s| - 1]);
  }

  /** `int(str(i)) == i`. */
  lemma ParseIntText(i: int)
    ensures ParseInt(IntText(i)) == Some(i)
  {
    if i < 0 {
      ParseNegative(Digits(-i));
    } else {
      ParseDigits(Digits(i));
    }
  }

  lemma ParseNegative(d: string)
    requires |d| >= 1 && AllDigits(d)
    ensures ParseInt("-" + d) == Some(0 - ValueOf(d))
  {
    var s := "-" + d;
    assert s[1..] == d;
    assert !IsSpace(s[0]) && !IsSpace(s[|s| - 1]);
    assert Strip(s) == s;
  }

  /** Python's `s[-2:]`. */
  function Last2(s: string): (r: string)
    ensures |r| == if |s| >= 2 then 2 else |s|
    ensures r == s[|s| - |r|..]
  {
    if |s| >= 2 then s[|s| - 2..] else s
  }

  lemma {:induction false} LastTwoDigits(s: string)
    requires AllDigits(s) && |s| >= 2
    ensures AllDigits(Last2(s)) && ValueOf(Last2(s)) == ValueOf(s) % 100
  {
    var n := |s|;
    var p := s[..n - 2];
    var t := Last2(s);
    assert s[..n - 1][..n - 2] == p;
    assert t[..1] == [s[n - 2]];
    assert [s[n - 2]][..0] == [];
    assert ValueOf([s[n - 2]]) == DigitValue(s[n - 2]);
    assert t[1] == s[n - 1] && |t| == 2;
    assert ValueOf(t) == DigitValue(s[n - 2]) * 10 + DigitValue(s[n - 1]);
    assert ValueOf(s) == ValueOf(p) * 100 + ValueOf(t);
  }

  /** The last two characters of a zero-padded number of width at least two
      parse back to the number modulo 100. */
  lemma PadLastTwo(n: nat, w: nat)
    requires w >= 2
    ensures ParseInt(Last2(ZeroPad(n, w))) == Some(n % 100)
  {
    LastTwoDigits(ZeroPad(n, w));
    ParseDigits(Last2(ZeroPad(n, w)));
  }

  /** `sep.join(parts)`. */
  function Join(parts: seq<string>, sep: char): string
    decreases |parts|
  {
    if parts == [] then ""
    else if |parts| == 1 then parts[0]
    else parts[0] + [sep] + Join(parts[1..], sep)
  }

  /** Adding one more part adds a separator and that part at the end. */
  lemma {:induction false} JoinSnoc(parts: seq<string>, x: string, sep: char)
    requires |parts| >= 1
    ensures Join(parts + [x], sep) == Join(parts, sep) + [sep] + x
    decreases |parts|
  {
    var q := parts + [x];
    assert q[1..] == parts[1..] + [x];
    if |parts| > 1 {
      JoinSnoc(parts[1..], x, sep);
    }
  }

  /** A join of non-empty parts starts where the first part starts and ends
      where the last part ends. */
  lemma {:induction false} JoinEnds(parts: seq<string>, sep: char)
    requires |parts| >= 1
    requires forall i :: 0 <= i < |parts| ==> parts[i] != []
    ensures var j := Join(parts, sep);
      j != [] && j[0] == parts[0][0] && j[|j| - 1] == parts[|parts| - 1][|parts[|parts| - 1]| - 1]
    decreases |parts|
  {
    if |parts| > 1 {
      JoinEnds(parts[1..], sep);
    }
  }

  /** Python's `s.split(sep)`: the pieces between separators, never an empty
      list; joining them back gives `s`. */
  function Split(s: string, sep: char): (parts: seq<string>)
    ensures |parts| >= 1
    ensures forall i :: 0 <= i < |parts| ==> sep !in parts[i]
    ensures Join(parts, sep) == s
    decreases |s|
  {
    if s == [] then [""]
    else
      var rest := Split(s[1..], sep);
      if s[0] == sep then
        assert ([""] + rest)[1..] == rest;
        [""] + rest
      else
        var parts := [[s[0]] + rest[0]] + rest[1..];
        assert |rest| > 1 ==> Join(rest, sep) == rest[0] + [sep] + Join(rest[1..], sep);
        assert parts[1..] == rest[1..];
        parts
  }

  lemma {:induction false} SplitNoSeparator(p: string, sep: char)
    requires sep !in p
    ensures Split(p, sep) == [p]
    decreases |p|
  {
    if p != [] {
      SplitNoSeparator(p[1..], sep);
      assert [p[0]] + p[1..] == p;
    }
  }

  lemma {:induction false} SplitAtFirst(p: string, rest: string, sep: char)
    requires sep !in p
    ensures Split(p + [sep] + rest, sep) == [p] + Split(rest, sep)
    decreases |p|
  {
    var s := p + [sep] + rest;
    if p == [] {
      assert s[1..] == rest;
    } else {
      assert s[1..] == p[1..] + [sep] + rest;
      SplitAtFirst(p[1..], rest, sep);
      assert [p[0]] + p[1..] == p;
    }
  }

  /** Splitting a join gives the parts back when no part holds the separator. */
  lemma {:induction false} SplitJoin(parts: seq<string>, sep: char)
    requires |parts| >= 1
    requires forall i :: 0 <= i < |parts| ==> sep !in parts[i]
    ensures Split(Join(parts, sep), sep) == parts
    decreases |parts|
  {
    if |parts| == 1 {
      SplitNoSeparator(parts[0], sep);
    } else {
      SplitJoin(parts[1..], sep);
      SplitAtFirst(parts[0], Join(parts[1..], sep), sep);
      assert [parts[0]] + parts[1..] == parts;
    }
  }

  /** Length of the run of digits at the front of `s`. */
  function DigitRun(s: string): (n: nat)
    ensures n <= |s| && AllDigits(s[..n]) && (n == |s| || !IsDigit(s[n]))
  {
    if s != [] && IsDigit(s[0]) then
      var n := 1 + DigitRun(s[1..]);
      assert s[..n] == [s[0]] + s[1..][..n - 1];
      n
    else 0
  }

  lemma {:induction false} DigitRunOf(d: string, t: string)
    requires AllDigits(d)
    requires t == [] || !IsDigit(t[0])
    ensures DigitRun(d + t) == |d|
    decreases |d|
  {
    if d != [] {
      assert (d + t)[1..] == d[1..] + t;
      DigitRunOf(d[1..], t);
    }
  }

  function LowerChar(c: char): char {
    if 'A' <= c <= 'Z' then ((c as int) + 32) as char else c
  }

  /** `s.lower()` on ASCII text: each capital `A`..`Z` becomes the small
      letter at the same place in the alphabet, every other character stays,
      and no capital is left. */
  function Lower(s: string): (r: string)
    ensures |r| == |s|
    ensures forall i :: 0 <= i < |s| && 'A' <= s[i] <= 'Z' ==>
      'a' <= r[i] <= 'z' && r[i] as int - 'a' as int == s[i] as int - 'A' as int
    ensures forall i :: 0 <= i < |s| && !('A' <= s[i] <= 'Z') ==> r[i] == s[i]
    ensures forall i :: 0 <= i < |r| ==> !('A' <= r[i] <= 'Z')
  {
    seq(|s|, i requires 0 <= i < |s| => LowerChar(s[i]))
  }

  /** Lowering goes character by character, so it distributes over
      concatenation. */
  lemma LowerConcat(a: string, b: string)
    ensures Lower(a + b) == Lower(a) + Lower(b)
  {
    assert forall i :: 0 <= i < |a + b| ==> Lower(a + b)[i] == (Lower(a) + Lower(b))[i];
  }

  /** `s` without its trailing `ch` characters: the longest prefix that
      does not end in `ch`, the rest being `ch` only. */
  function DropTrailing(s: string, ch: char): (r: string)
    ensures |r| <= |s| && r == s[..|r|]
    ensures r == [] || r[|r| - 1] != ch
    ensures forall i :: |r| <= i < |s| ==> s[i] == ch
    decreases |s|
  {
    if s != [] && s[|s| - 1] == ch then DropTrailing(s[..|s| - 1], ch) else s
  }
}
