/** Exposure-time conversion: a channel's raw `ExposureTime` is divided by
    10^6; an exact quotient is kept as an integer, anything else as a float,
    and the value is written into the ledger with Python's `'%s'`. Raw
    values are modelled as whole micro-units, so the float is represented
    exactly by its micro-unit count. */
module Exposure {
  import opened Wrappers
  import opened Text

  /** `default_scaling = 1E6`. */
  const Scale: nat := 1000000

  /** `int(etime)` when `raw / 10^6` is whole, the float `etime` otherwise
      (kept as the raw count it came from). */
  datatype Seconds = Whole(seconds: nat) | Fractional(raw: nat)

  /** The micro-unit count a converted value stands for. */
  function MicrosIn(v: Seconds): nat {
    match v
    case Whole(s) => s * Scale
    case Fractional(r) => r
  }

  /** One step of the conversion loop: whole seconds exactly when the raw
      count is a multiple of 10^6, and no precision is lost either way. */
  function ToSeconds(raw: nat): (v: Seconds)
    ensures v.Whole? <==> raw % Scale == 0
    ensures MicrosIn(v) == raw
  {
    if raw % Scale == 0 then Whole(raw / Scale) else Fractional(raw)
  }

  /** The converted exposure values of one cycle: one per channel, in
      channel order, each whole exactly when its raw count is a multiple of
      10^6 and each losing nothing of it. */
  function Converted(raws: seq<nat>): (vals: seq<Seconds>)
    ensures |vals| == |raws|
    ensures forall i :: 0 <= i < |raws| ==>
      MicrosIn(vals[i]) == raws[i] && (vals[i].Whole? <==> raws[i] % Scale == 0)
  {
    seq(|raws|, i requires 0 <= i < |raws| => ToSeconds(raws[i]))
  }

  /** The conversion loop of `write_exposure_times`. */
  method ConvertExposures(raws: seq<nat>) returns (vals: seq<Seconds>)
    ensures vals == Converted(raws)
  {
    vals := [];
    for i := 0 to |raws|
      invariant vals == Converted(raws[..i])
    {
      assert raws[..i + 1] == raws[..i] + [raws[i]];
      vals := vals + [ToSeconds(raws[i])];
    }
    assert raws[..|raws|] == raws;
  }

  /** `'%s' % v`: `str(int)` for whole seconds; for a float, Python's
      shortest `repr`, which is fixed notation with no trailing zeros from
      10^-4 upwards and exponent notation (`5e-06`, `9.9e-05`) below. */
  function ValueText(v: Seconds): string {
    match v
    case Whole(s) => Digits(s)
    case Fractional(r) =>
      if r >= 100 then Digits(r / Scale) + "." + DropTrailing(ZeroPad(r % Scale, 6), '0')
      else if r < 10 then Digits(r) + "e-06"
      else if r % 10 == 0 then Digits(r / 10) + "e-05"
      else Digits(r / 10) + "." + Digits(r % 10) + "e-05"
  }

  /** The micro-units a fixed-notation decimal `I` or `I.F` (at most six
      fraction digits) denotes. */
  function FixedMicros(s: string): Option<nat> {
    PartsMicros(Split(s, '.'))
  }

  /** The value of a decimal already split at its dots. */
  function PartsMicros(parts: seq<string>): Option<nat> {
    if |parts| == 1 && parts[0] != [] && AllDigits(parts[0]) then
      Some(ValueOf(parts[0]) * Scale)
    else if |parts| == 2 && parts[0] != [] && AllDigits(parts[0])
            && 1 <= |parts[1]| <= 6 && AllDigits(parts[1]) then
      Some(ValueOf(parts[0]) * Scale + ValueOf(parts[1]) * Pow10(6 - |parts[1]|))
    else None
  }

  /** Reads a written exposure value back as micro-units: fixed notation, or
      a mantissa with exponent `e-05` / `e-06` whose value is a whole number
      of micro-units. */
  function MicrosOf(s: string): Option<nat> {
    var parts := Split(s, 'e');
    if |parts| == 1 then FixedMicros(s)
    else if |parts| == 2 && (parts[1] == "-05" || parts[1] == "-06") then
      var k := if parts[1] == "-05" then 5 else 6;
      match FixedMicros(parts[0])
      case Some(m) => if m % Pow10(k) == 0 then Some(m / Pow10(k)) else None
      case None => None
    else None
  }

  lemma SixthPower()
    ensures Pow10(5) == 100000 && Pow10(6) == Scale
  {
    assert Pow10(2) == 100;
  }

  /** The fraction digits of a fixed-notation value: six zero-padded digits
      less the trailing zeros, never empty, and worth the fraction. */
  lemma {:induction false} FractionDigits(f: nat)
    requires 0 < f < Scale
    ensures var fd := DropTrailing(ZeroPad(f, 6), '0');
      && 1 <= |fd| <= 6 && AllDigits(fd)
      && ValueOf(fd) * Pow10(6 - |fd|) == f
  {
    var p := ZeroPad(f, 6);
    var fd := DropTrailing(p, '0');
    SixthPower();
    DigitsLength(f, 6);
    assert |p| == 6;
    assert AllDigits(fd) by {
      forall i | 0 <= i < |fd| ensures IsDigit(fd[i]) {
        assert fd[i] == p[i];
      }
    }
    assert p == fd + Zeros(6 - |fd|);
    ValueOfTrailingZeros(fd, 6 - |fd|);
    assert ValueOf([]) == 0;
    assert fd != [];
  }

  /** Text made of digits and at most one dot holds no `e`. */
  lemma NoExponentMark(a: string, b: string)
    requires AllDigits(a) && AllDigits(b)
    ensures 'e' !in a + "." + b && '.' !in a && '.' !in b
  {
    assert forall i :: 0 <= i < |a + "." + b| ==> (a + "." + b)[i] == '.' || IsDigit((a + "." + b)[i]);
  }

  /** Fixed notation `D.F` reads back as `D * 10^6 + F * 10^(6 - |F|)`. */
  lemma FixedDecimal(d: nat, fd: string)
    requires 1 <= |fd| <= 6 && AllDigits(fd)
    ensures FixedMicros(Digits(d) + "." + fd) == Some(d * Scale + ValueOf(fd) * Pow10(6 - |fd|))
  {
    var a := Digits(d);
    NoExponentMark(a, fd);
    var s := a + ['.'] + fd;
    assert a + "." + fd == s;
    SplitAtFirst(a, fd, '.');
    SplitNoSeparator(fd, '.');
    assert Split(s, '.') == [a, fd];
    TwoPartMicros(a, fd);
  }

  /** A decimal that splits at its dot into `I` and `F` is worth
      `I * 10^6 + F * 10^(6 - |F|)`. */
  lemma TwoPartMicros(a: string, fd: string)
    requires a != [] && AllDigits(a) && 1 <= |fd| <= 6 && AllDigits(fd)
    ensures PartsMicros([a, fd]) == Some(ValueOf(a) * Scale + ValueOf(fd) * Pow10(6 - |fd|))
  {
  }

  /** A mantissa followed by an exponent splits into exactly those two. */
  lemma ExponentParts(m: string, x: string)
    requires 'e' !in m && 'e' !in x
    ensures Split(m + ['e'] + x, 'e') == [m, x]
  {
    SplitAtFirst(m, x, 'e');
    SplitNoSeparator(x, 'e');
  }

  /** Whatever value is written, reading its text back gives the raw count
      it was converted from. */
  lemma TextRoundTrip(raw: nat)
    ensures MicrosOf(ValueText(ToSeconds(raw))) == Some(raw)
  {
    if raw % Scale == 0 {
      WholeRoundTrip(raw / Scale);
    } else if raw >= 100 {
      FixedRoundTrip(raw);
    } else {
      TinyRoundTrip(raw);
    }
  }

  lemma WholeRoundTrip(n: nat)
    ensures FixedMicros(Digits(n)) == Some(n * Scale)
    ensures MicrosOf(Digits(n)) == Some(n * Scale)
  {
    var t := Digits(n);
    assert forall i :: 0 <= i < |t| ==> IsDigit(t[i]);
    SplitNoSeparator(t, 'e');
    SplitNoSeparator(t, '.');
  }

  lemma FixedRoundTrip(raw: nat)
    requires raw >= 100 && raw % Scale != 0
    ensures MicrosOf(ValueText(Fractional(raw))) == Some(raw)
  {
    var d, f := raw / Scale, raw % Scale;
    assert ValueText(Fractional(raw)) == Digits(d) + "." + DropTrailing(ZeroPad(f, 6), '0');
    FixedText(d, f);
    assert d * Scale + f == raw;
  }

  /** Whole part `d` and fraction `f` (in micro-units) written in fixed
      notation read back as `d * 10^6 + f`. */
  lemma FixedText(d: nat, f: nat)
    requires 0 < f < Scale
    ensures MicrosOf(Digits(d) + "." + DropTrailing(ZeroPad(f, 6), '0')) == Some(d * Scale + f)
  {
    var fd := DropTrailing(ZeroPad(f, 6), '0');
    FractionDigits(f);
    NoExponentMark(Digits(d), fd);
    ReadsAsFixed(Digits(d) + "." + fd);
    FixedDecimal(d, fd);
  }

  /** Text without an exponent mark is read in fixed notation. */
  lemma ReadsAsFixed(t: string)
    requires 'e' !in t
    ensures MicrosOf(t) == FixedMicros(t)
  {
    SplitNoSeparator(t, 'e');
  }

  /** A mantissa worth `units * 10^k` micro-units, with exponent `-0k`,
      reads back as `units`. */
  lemma ExponentRead(m: string, k: nat, units: nat)
    requires k == 5 || k == 6
    requires 'e' !in m && FixedMicros(m) == Some(units * Pow10(k))
    ensures MicrosOf(m + ['e'] + (if k == 5 then "-05" else "-06")) == Some(units)
  {
    SixthPower();
    if k == 5 {
      ExponentFive(m, units);
    } else {
      ExponentSix(m, units);
    }
  }

  /** The `e-05` case: the mantissa's micro-units divided by 10^5. */
  lemma ExponentFive(m: string, units: nat)
    requires 'e' !in m && FixedMicros(m) == Some(units * 100000)
    ensures MicrosOf(m + ['e'] + "-05") == Some(units)
  {
    ExponentParts(m, "-05");
    SixthPower();
    assert (units * 100000) % 100000 == 0 && (units * 100000) / 100000 == units;
  }

  /** The `e-06` case: the mantissa's micro-units divided by 10^6. */
  lemma ExponentSix(m: string, units: nat)
    requires 'e' !in m && FixedMicros(m) == Some(units * 1000000)
    ensures MicrosOf(m + ['e'] + "-06") == Some(units)
  {
    ExponentParts(m, "-06");
    SixthPower();
    assert (units * 1000000) % 1000000 == 0 && (units * 1000000) / 1000000 == units;
  }

  /** Below 100 micro-units Python writes exponent notation; each of its
      three shapes reads back. */
  lemma TinyRoundTrip(raw: nat)
    requires 0 < raw < 100
    ensures MicrosOf(ValueText(Fractional(raw))) == Some(raw)
  {
    if raw < 10 {
      TinyOnes(raw);
    } else if raw % 10 == 0 {
      TinyTens(raw);
    } else {
      TinyMixed(raw);
    }
  }

  /** `5e-06`. */
  lemma TinyOnes(raw: nat)
    requires 0 < raw < 10
    ensures MicrosOf(ValueText(Fractional(raw))) == Some(raw)
  {
    SixthPower();
    var m := Digits(raw);
    WholeRoundTrip(raw);
    NoExponentMark(m, "");
    assert ValueText(Fractional(raw)) == m + ['e'] + "-06";
    ExponentRead(m, 6, raw);
  }

  /** `5e-05`. */
  lemma TinyTens(raw: nat)
    requires 10 <= raw < 100 && raw % 10 == 0
    ensures MicrosOf(ValueText(Fractional(raw))) == Some(raw)
  {
    SixthPower();
    var m := Digits(raw / 10);
    WholeRoundTrip(raw / 10);
    NoExponentMark(m, "");
    assert (raw / 10) * Scale == raw * Pow10(5);
    assert ValueText(Fractional(raw)) == m + ['e'] + "-05";
    ExponentRead(m, 5, raw);
  }

  /** `9.9e-05`. */
  lemma TinyMixed(raw: nat)
    requires 10 <= raw < 100 && raw % 10 != 0
    ensures MicrosOf(ValueText(Fractional(raw))) == Some(raw)
  {
    SixthPower();
    var m := Digits(raw / 10) + "." + Digits(raw % 10);
    NoExponentMark(Digits(raw / 10), Digits(raw % 10));
    FixedDecimal(raw / 10, Digits(raw % 10));
    assert ValueText(Fractional(raw)) == m + ['e'] + "-05";
    assert (raw / 10) * Scale + (raw % 10) * Pow10(5) == raw * Pow10(5);
    ExponentRead(m, 5, raw);
  }

  /** Below 10^-4 s (a raw count under 100 that is not whole) the value is
      written in exponent notation, and only then. */
  lemma ExponentIffTiny(raw: nat)
    ensures 'e' in ValueText(ToSeconds(raw)) <==> 0 < raw < 100
  {
    var t := ValueText(ToSeconds(raw));
    if raw % Scale == 0 {
      assert forall i :: 0 <= i < |t| ==> IsDigit(t[i]);
    } else if raw >= 100 {
      NoExponentMark(Digits(raw / Scale), DropTrailing(ZeroPad(raw % Scale, 6), '0'));
    } else {
      TinyHasExponent(raw);
    }
  }

  /** Each of the three exponent shapes holds an `e`. */
  lemma TinyHasExponent(raw: nat)
    requires 0 < raw < 100
    ensures 'e' in ValueText(Fractional(raw))
  {
    var m := if raw < 10 then Digits(raw)
      else if raw % 10 == 0 then Digits(raw / 10)
      else Digits(raw / 10) + "." + Digits(raw % 10);
    var x := if raw < 10 then "e-06" else "e-05";
    assert ValueText(Fractional(raw)) == m + x;
    assert (m + x)[|m|] == 'e';
  }

  /** From 10^-4 s upwards, a dot appears in the text exactly when the
      quotient is not whole. */
  lemma DotIffFraction(raw: nat)
    requires raw >= 100
    ensures '.' in ValueText(ToSeconds(raw)) <==> raw % Scale != 0
  {
    var t := ValueText(ToSeconds(raw));
    if raw % Scale == 0 {
      assert forall i :: 0 <= i < |t| ==> IsDigit(t[i]);
    } else {
      assert t[|Digits(raw / Scale)|] == '.';
    }
  }

  /** 2 000 000 is written `2`, 1 500 000 `1.5` and 25 `2.5e-05`. */
  lemma ConversionExamples()
    ensures ValueText(ToSeconds(2000000)) == "2"
    ensures ValueText(ToSeconds(1500000)) == "1.5"
    ensures ValueText(ToSeconds(25)) == "2.5e-05"
  {
    assert Digits(2) == "2";
    HalfSecond();
    assert Digits(5) == "5";
  }

  lemma HalfSecond()
    ensures ValueText(ToSeconds(1500000)) == "1.5"
  {
    var d := Digits(500000);
    assert d == "500000" by {
      assert Digits(5) == "5";
      assert Digits(50) == "50";
      assert Digits(500) == "500";
      assert Digits(5000) == "5000";
      assert Digits(50000) == "50000";
    }
    assert ZeroPad(500000, 6) == d by {
      assert Zeros(0) == "";
    }
    assert DropTrailing("500000", '0') == "5" by {
      assert "500000"[..5] == "50000";
      assert "50000"[..4] == "5000";
      assert "5000"[..3] == "500";
      assert "500"[..2] == "50";
      assert "50"[..1] == "5";
    }
    assert Digits(1) == "1";
  }
}
