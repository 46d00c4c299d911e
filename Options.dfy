/** User options for the experiment descriptor: a fixed table of defaults
    overlaid, key by key, with the user's options file, then checked for the
    one supported tiling mode. */
module Options {
  import opened Wrappers

  /** A JSON value read from the options file. A JSON number with a
      fraction or exponent is a `Float`; arrays and objects are not looked
      into, so they are one opaque case. Only `tilingMode` is ever compared,
      so the other values are merely carried along. */
  datatype Value = Str(s: string) | Bool(b: bool) | Int(i: int) | Float(x: real) | Null | Nested

  type OptionMap = map<string, Value>

  datatype ConfigError = TilingModeNotImplemented

  const GridRows := Str("gridrows")

  /** `generate_std_options_file(save=False)`: the default settings. */
  function DefaultOptions(): OptionMap {
    map[
      "codex_instrument" := Str("CODEX instrument"),
      "tilingMode" := GridRows,
      "referenceCycle" := Str("2"),
      "referenceChannel" := Str("1"),
      "deconvolutionIterations" := Str("25"),
      "deconvolutionModel" := Str("vectorial"),
      "useBackgroundSubtraction" := Bool(true),
      "useDeconvolution" := Bool(true),
      "useExtendedDepthOfField" := Bool(true),
      "useShadingCorrection" := Bool(true),
      "use3dDriftCompensation" := Bool(true),
      "useBleachMinimizingCrop" := Bool(false),
      "useBlindDeconvolution" := Bool(false),
      "useDiagnosticMode" := Bool(false)
    ]
  }

  /** The user's options win on every key they name; every other default
      keeps its default value; no other key appears. */
  ghost predicate Overlaid(merged: OptionMap, defaults: OptionMap, user: OptionMap) {
    && merged.Keys == defaults.Keys + user.Keys
    && (forall k :: k in user ==> merged[k] == user[k])
    && (forall k :: k in defaults && k !in user ==> merged[k] == defaults[k])
  }

  /** The key loop of `process_user_options`: `default_options[key] =
      user_input[key]` for every key of the user's map. */
  method MergeOptions(defaults: OptionMap, user: OptionMap) returns (merged: OptionMap)
    ensures Overlaid(merged, defaults, user)
  {
    merged := defaults;
    var pending := user.Keys;
    while pending != {}
      invariant pending <= user.Keys
      invariant merged.Keys == defaults.Keys + (user.Keys - pending)
      invariant forall k :: k in user.Keys - pending ==> merged[k] == user[k]
      invariant forall k :: k in defaults && k !in user.Keys - pending ==> merged[k] == defaults[k]
      decreases pending
    {
      var key :| key in pending;
      merged := merged[key := user[key]];
      pending := pending - {key};
    }
  }

  /** The tiling mode in force once the user's options are applied. */
  function EffectiveTilingMode(user: OptionMap): Value {
    if "tilingMode" in user then user["tilingMode"] else GridRows
  }

  /** `process_user_options`: the merged options, refused with "Not
      implemented" exactly when the tiling mode in force is not `gridrows`. */
  method ProcessUserOptions(user: OptionMap) returns (r: Result<OptionMap, ConfigError>)
    ensures r.Failure? <==> EffectiveTilingMode(user) != GridRows
    ensures r.Failure? ==> r.error == TilingModeNotImplemented
    ensures r.Success? ==> Overlaid(r.value, DefaultOptions(), user)
    ensures r.Success? ==> "tilingMode" in r.value && r.value["tilingMode"] == GridRows
  {
    var merged := MergeOptions(DefaultOptions(), user);
    assert "tilingMode" in DefaultOptions();
    if merged["tilingMode"] != GridRows {
      return Failure(TilingModeNotImplemented);
    }
    return Success(merged);
  }
}
