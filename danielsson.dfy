/** The Danielsson distance-map filter's extra output: for every voxel, the
    1-based linear index of the closest object voxel. ITK's vector distance
    map is an input here, `offsets[i]` being the offset from voxel i (in
    linear order) to its closest object voxel. */
module MexDanielsson {
  import opened MexErrors
  import opened GerardusCommon

  const TooManyOutputsError := "Too many output arguments"

  /** The filter gives the distance map and, optionally, the nearest-voxel
      map: asking for a third output is an error. */
  function CheckNumberOfOutputs(nargout: nat): (err: Option<string>)
    ensures err.Some? <==> nargout > 2
    ensures err.Some? ==> err.value == TooManyOutputsError
  {
    if nargout > 2 then Some(TooManyOutputsError) else None
  }

  /** The nearest-voxel map is produced only when a second output is asked for. */
  predicate ExportsNearest(nargout: nat) {
    nargout > 1
  }

  /** The 1-based linear index of voxel i displaced by `off`, or the
      sub2ind error when the displaced subscripts leave the volume. */
  function NearestIndex(R: nat, C: nat, S: nat, i: nat, off: Offset3): (r: Result<nat>)
    requires i < R * C * S
    ensures Ind2Sub(R, C, S, i).Ok?
    ensures var o := Ind2Sub(R, C, S, i).value.Plus(off);
            r.Ok? <==> InVolume(R, C, S, o.r, o.c, o.s)
    ensures r.Err? ==> r.msg == Sub2IndRangeError
    ensures r.Ok? ==> 1 <= r.value <= R * C * S
  {
    var o := Ind2Sub(R, C, S, i).value;
    match Sub2IndOffset(R, C, S, o.Plus(off))
    case Err(m) => Err(m)
    case Ok(j) => Ok(j + 1)
  }

  /** The nearest-voxel map of the first k voxels: all k values, or the
      error of the first voxel whose offset leaves the volume. */
  function NearestPrefix(R: nat, C: nat, S: nat, offsets: seq<Offset3>, k: nat): (r: Result<seq<nat>>)
    requires |offsets| == R * C * S && k <= |offsets|
    ensures r.Ok? ==> |r.value| == k
    ensures r.Err? ==> r.msg == Sub2IndRangeError
  {
    if k == 0 then Ok([])
    else
      match NearestPrefix(R, C, S, offsets, k - 1)
      case Err(m) => Err(m)
      case Ok(vs) =>
        match NearestIndex(R, C, S, k - 1, offsets[k - 1])
        case Err(m) => Err(m)
        case Ok(v) => Ok(vs + [v])
  }

  function NearestMap(R: nat, C: nat, S: nat, offsets: seq<Offset3>): Result<seq<nat>>
    requires |offsets| == R * C * S
  {
    NearestPrefix(R, C, S, offsets, |offsets|)
  }

  /** A prefix succeeds exactly when every voxel in it stays in the volume,
      and then holds each voxel's own nearest index. */
  lemma {:induction false} NearestPrefixAt(R: nat, C: nat, S: nat, offsets: seq<Offset3>, k: nat)
    requires |offsets| == R * C * S && k <= |offsets|
    ensures NearestPrefix(R, C, S, offsets, k).Ok? <==>
              forall i :: 0 <= i < k ==> NearestIndex(R, C, S, i, offsets[i]).Ok?
    ensures NearestPrefix(R, C, S, offsets, k).Ok? ==>
              forall i :: 0 <= i < k ==>
                NearestPrefix(R, C, S, offsets, k).value[i] == NearestIndex(R, C, S, i, offsets[i]).value
  {
    if k > 0 {
      NearestPrefixAt(R, C, S, offsets, k - 1);
    }
  }

  /** Every value of a successful map is a 1-based index into the volume,
      and it names exactly the voxel reached by adding the offset: ind2sub
      of the 0-based value is the voxel's subscripts plus its offset. */
  lemma NearestMapNamesDisplacedVoxel(R: nat, C: nat, S: nat, offsets: seq<Offset3>, i: nat)
    requires |offsets| == R * C * S && i < |offsets|
    requires NearestMap(R, C, S, offsets).Ok?
    ensures var v := NearestMap(R, C, S, offsets).value[i];
            && 1 <= v <= R * C * S
            && Ind2Sub(R, C, S, v - 1) == Ok(Ind2Sub(R, C, S, i).value.Plus(offsets[i]))
  {
    NearestPrefixAt(R, C, S, offsets, |offsets|);
    assert NearestIndex(R, C, S, i, offsets[i]).Ok?;
    var o := Ind2Sub(R, C, S, i).value.Plus(offsets[i]);
    Ind2SubOfSub2Ind(R, C, S, o.r, o.c, o.s);
  }

  /** A voxel that is itself an object voxel (zero offset) maps to its own
      1-based index. */
  lemma ZeroOffsetIsIdentity(R: nat, C: nat, S: nat, i: nat)
    requires i < R * C * S
    ensures NearestIndex(R, C, S, i, Offset3(0, 0, 0)) == Ok(i + 1)
  {
    Sub2IndOfInd2Sub(R, C, S, i);
    var o := Ind2Sub(R, C, S, i).value;
    assert o.Plus(Offset3(0, 0, 0)) == o;
  }

  /** CopyFilterNearestOutputToMatlab: visits the voxels in linear order,
      writing one element per voxel, and stops at the first voxel whose
      closest object voxel falls outside the volume. */
  method CopyFilterNearestOutput(R: nat, C: nat, S: nat, offsets: seq<Offset3>)
    returns (imOutp: array<nat>, err: Option<string>)
    requires |offsets| == R * C * S
    ensures fresh(imOutp) && imOutp.Length == R * C * S
    ensures err.None? <==> NearestMap(R, C, S, offsets).Ok?
    ensures err.None? ==> imOutp[..] == NearestMap(R, C, S, offsets).value
    ensures err.Some? ==> err.value == Sub2IndRangeError
  {
    var n := R * C * S;
    imOutp := new nat[n];
    var i := 0;
    while i < n
      invariant 0 <= i <= n
      invariant NearestPrefix(R, C, S, offsets, i).Ok?
      invariant imOutp[..i] == NearestPrefix(R, C, S, offsets, i).value
    {
      var idx3 := Ind2Sub(R, C, S, i);
      var o := idx3.value.Plus(offsets[i]);
      var lin := Sub2IndOffset(R, C, S, o);
      if lin.Err? {
        err := Some(lin.msg);
        NearestPrefixStops(R, C, S, offsets, i + 1);
        return;
      }
      imOutp[i] := lin.value + 1;
      assert imOutp[..i + 1] == imOutp[..i] + [imOutp[i]];
      i := i + 1;
    }
    assert imOutp[..] == imOutp[..n];
    err := None;
  }

  /** Once a prefix fails, every longer prefix fails too. */
  lemma {:induction false} NearestPrefixStops(R: nat, C: nat, S: nat, offsets: seq<Offset3>, k: nat)
    requires |offsets| == R * C * S && k <= |offsets|
    requires NearestPrefix(R, C, S, offsets, k).Err?
    ensures NearestMap(R, C, S, offsets).Err?
    decreases |offsets| - k
  {
    if k < |offsets| {
      NearestPrefixStops(R, C, S, offsets, k + 1);
    }
  }

  /** ExportOtherFilterOutputsToMatlab: the nearest-voxel map is the second
      output, built only when nargout > 1. */
  method ExportOtherFilterOutputs(nargout: nat, R: nat, C: nat, S: nat, offsets: seq<Offset3>)
    returns (nearest: array?<nat>, err: Option<string>)
    requires |offsets| == R * C * S
    ensures nearest != null <==> ExportsNearest(nargout)
    ensures !ExportsNearest(nargout) ==> err.None?
    ensures nearest != null ==>
              && fresh(nearest)
              && (err.None? <==> NearestMap(R, C, S, offsets).Ok?)
              && (err.None? ==> nearest[..] == NearestMap(R, C, S, offsets).value)
  {
    nearest, err := null, None;
    if ExportsNearest(nargout) {
      nearest, err := CopyFilterNearestOutput(R, C, S, offsets);
    }
  }
}
