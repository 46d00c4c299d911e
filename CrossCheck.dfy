/** The cross-validators of the experiment descriptor. Every physical
    quantity read from two places in the acquisition metadata must agree
    EXACTLY; the values themselves are abstract (`V` with equality), so the
    float parsing and unit scaling that produce them are not part of this
    module. */
module CrossCheck {
  import opened Wrappers
  import opened Sequences

  /** One entry of the metadata's per-axis distance table (`@Id`, `Value`). */
  datatype Distance<V> = Distance(id: string, value: V)

  datatype CheckError =
    | Unbound(variable: string)      // a Python local read before any assignment
    | AxialMismatch
    | PixelSizeIndex                 // fewer than two pixel-size components
    | NonSquarePixel
    | DistanceXYMismatch
    | LateralMismatch
    | FocusOffsetMismatch

  /** `d[k]` is the entry with the given id that no later entry overrides. */
  ghost predicate IsLastWithId<V>(dists: seq<Distance<V>>, id: string, k: int) {
    && 0 <= k < |dists|
    && dists[k].id == id
    && forall j :: k < j < |dists| ==> dists[j].id != id
  }

  /** The value of the last entry with the given id, if any. */
  function LastWithId<V>(dists: seq<Distance<V>>, id: string): Option<V>
    decreases |dists|
  {
    if dists == [] then None
    else if dists[|dists| - 1].id == id then Some(dists[|dists| - 1].value)
    else LastWithId(dists[..|dists| - 1], id)
  }

  /** `LastWithId` finds nothing exactly when no entry has the id, and
      otherwise the entry that no later entry overrides. */
  lemma {:induction false} LastWithIdIsLast<V>(dists: seq<Distance<V>>, id: string)
    ensures LastWithId(dists, id).None? <==> forall j :: 0 <= j < |dists| ==> dists[j].id != id
    ensures LastWithId(dists, id).Some? ==>
      exists k :: IsLastWithId(dists, id, k) && dists[k].value == LastWithId(dists, id).value
    decreases |dists|
  {
    if dists != [] {
      var n := |dists| - 1;
      var front := dists[..n];
      if dists[n].id == id {
        assert IsLastWithId(dists, id, n);
      } else {
        LastWithIdIsLast(front, id);
        assert forall j :: 0 <= j < n ==> front[j] == dists[j];
        if LastWithId(front, id).Some? {
          var k :| IsLastWithId(front, id, k) && front[k].value == LastWithId(front, id).value;
          assert IsLastWithId(dists, id, k);
        }
      }
    }
  }

  /** The loops over the distance table that assign the value of every
      entry with a given `@Id`: the last such entry wins, and with no such
      entry the variable stays unassigned. */
  method LastValueWithId<V>(dists: seq<Distance<V>>, id: string) returns (r: Option<V>)
    ensures r == LastWithId(dists, id)
  {
    r := None;
    for i := 0 to |dists|
      invariant r == LastWithId(dists[..i], id)
    {
      assert dists[..i + 1][..i] == dists[..i];
      if dists[i].id == id {
        r := Some(dists[i].value);
      }
    }
    assert dists[..|dists|] == dists;
  }

  /** The axial-resolution check: the Z entry of the distance table must
      exist and equal the Z-stack interval, which is then the result. */
  function CheckAxial<V(==)>(z: Option<V>, interval: V): (r: Result<V, CheckError>)
    ensures r.Success? <==> z == Some(interval)
    ensures r.Success? ==> r.value == interval
    ensures z.None? ==> r == Failure(Unbound("axial_resolution"))
    ensures z.Some? && z.value != interval ==> r == Failure(AxialMismatch)
  {
    match z
    case None => Failure(Unbound("axial_resolution"))
    case Some(v) => if v != interval then Failure(AxialMismatch) else Success(v)
  }

  /** The lateral-resolution checks in source order: square pixels, then the
      X and Y distances equal, then the resolution computed from the pixel
      size (`lateralOf(pixel, magnification)`) equal to the X distance. */
  function CheckLateral<V(==)>(pixel: seq<V>, magnification: V, lateralOf: (V, V) -> V,
                           x: Option<V>, y: Option<V>): (r: Result<V, CheckError>)
    ensures r.Success? <==>
      && |pixel| >= 2 && pixel[0] == pixel[1]
      && x == Some(lateralOf(pixel[0], magnification)) && y == x
    ensures r.Success? ==> r.value == x.value == y.value
    ensures |pixel| >= 2 && pixel[0] != pixel[1] ==> r == Failure(NonSquarePixel)
    ensures |pixel| >= 2 && pixel[0] == pixel[1] && x.Some? && y.Some? && x != y ==>
      r == Failure(DistanceXYMismatch)
  {
    if |pixel| < 2 then Failure(PixelSizeIndex)
    else if pixel[0] != pixel[1] then Failure(NonSquarePixel)
    else
      var lateral := lateralOf(pixel[0], magnification);
      if x.None? then Failure(Unbound("lat_resolutionx"))
      else if y.None? then Failure(Unbound("lat_resolutiony"))
      else if x.value != y.value then Failure(DistanceXYMismatch)
      else if lateral != x.value then Failure(LateralMismatch)
      else Success(lateral)
  }

  /** The focus-offset loop: one entry per track, in track order. */
  method CollectFocusOffsets<T>(tracks: seq<T>, offsetOf: T -> string) returns (offsets: seq<string>)
    ensures |offsets| == |tracks|
    ensures forall i :: 0 <= i < |tracks| ==> offsets[i] == offsetOf(tracks[i])
  {
    offsets := [];
    for i := 0 to |tracks|
      invariant |offsets| == i
      invariant forall k :: 0 <= k < i ==> offsets[k] == offsetOf(tracks[k])
    {
      offsets := offsets + [offsetOf(tracks[i])];
    }
  }

  /** `len(set(focus_offset_list)) == 1`: the focus offset is accepted only
      when every track has the same one, and an empty track list is refused. */
  function CheckFocusOffset<T(==)>(offsets: seq<T>): (r: Result<T, CheckError>)
    ensures r.Success? <==> |offsets| > 0 && AllEqual(offsets)
    ensures r.Success? ==> forall i :: 0 <= i < |offsets| ==> offsets[i] == r.value
    ensures r.Failure? ==> r.error == FocusOffsetMismatch
  {
    SingletonIffUniform(offsets);
    if |Elements(offsets)| == 1 then Success(offsets[0]) else Failure(FocusOffsetMismatch)
  }
}
