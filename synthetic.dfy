/** The third landmark added in template-to-subject mode. An affine estimate
    needs at least three landmarks that are not collinear, and only two are
    given; so each label file (subject and template) gets a copy of its
    lowest-valued label, moved 5 mm along the image's first axis and given the
    value 99. */
module Synthetic {
  import opened Common
  import opened Rounding
  import opened Labels

  const OffsetMm: real := 5.0
  const SyntheticValue: real := 99.0

  /** The offset in voxels along x, for a voxel size of px mm: positive, and
      more than half a voxel when the voxel is narrower than twice the offset. */
  function OffsetVoxels(px: real): (f: real)
    requires px > 0.0
    ensures f > 0.0
    ensures px < 2.0 * OffsetMm ==> f > 0.5
  {
    var f := OffsetMm / px;
    assert f * px == OffsetMm;
    assert px < 2.0 * OffsetMm ==> 0.5 * px < OffsetMm;
    f
  }

  /** The copy of `lowest` moved OffsetMm along x; px is the voxel size along x in mm. */
  function ShiftedCopy(lowest: Label, px: real, mode: RoundMode): (r: Label)
    requires px > 0.0
    ensures r.y == lowest.y && r.z == lowest.z && r.value == SyntheticValue
    ensures r.x as real - 0.5 <= lowest.x as real + OffsetVoxels(px) <= r.x as real + 0.5
  {
    Label(Round(lowest.x as real + OffsetVoxels(px), mode), lowest.y, lowest.z, SyntheticValue)
  }

  predicate AtVoxel(l: Label, x: int, y: int, z: int) {
    l.x == x && l.y == y && l.z == z
  }

  /** The labels that survive writing a new value into voxel (x, y, z). */
  function WithoutVoxel(s: seq<Label>, x: int, y: int, z: int): (r: seq<Label>)
    ensures forall l | l in r :: l in s && !AtVoxel(l, x, y, z)
    ensures forall l | l in s && !AtVoxel(l, x, y, z) :: l in r
  {
    if s == [] then []
    else
      var rest := WithoutVoxel(s[1..], x, y, z);
      assert forall l | l in s :: l == s[0] || l in s[1..];
      if AtVoxel(s[0], x, y, z) then rest else [s[0]] + rest
  }

  /** One pass of the loop over the subject's and the template's label files.
      `found` are the file's labels (voxel coordinates, so x >= 0), `nx` the
      number of voxels along x. Writing to an x index past the image raises
      an IndexError. */
  function AddSyntheticLabel(found: seq<Label>, nx: int, px: real, mode: RoundMode): (r: Result<seq<Label>>)
    requires px > 0.0
    requires forall l | l in found :: 0 <= l.x
    ensures found == [] ==> r == Err(EmptyLabelList)
    ensures r.Ok? ==> found != [] && |r.value| > 0
    ensures r.Ok? ==>
              var added := r.value[|r.value| - 1];
              && added.value == SyntheticValue
              && (exists lowest | lowest in found ::
                    && (forall l | l in found :: lowest.value <= l.value)
                    && added == ShiftedCopy(lowest, px, mode))
              && forall l | l in r.value[..|r.value| - 1] :: l in found && !AtVoxel(l, added.x, added.y, added.z)
    ensures r.Ok? ==>
              var added := r.value[|r.value| - 1];
              r.value == WithoutVoxel(found, added.x, added.y, added.z) + [added]
    ensures found != [] ==> (r == Err(LabelOutsideImage) <==> ShiftedCopy(SortByValue(found)[0], px, mode).x >= nx)
    ensures found != [] && ShiftedCopy(SortByValue(found)[0], px, mode).x < nx ==> r.Ok?
  {
    var sorted := SortByValue(found);
    if sorted == [] then
      Err(EmptyLabelList)
    else
      var lowest := sorted[0];
      var added := ShiftedCopy(lowest, px, mode);
      if added.x >= nx then
        Err(LabelOutsideImage)
      else
        assert lowest in multiset(found);
        assert forall l | l in found :: lowest.value <= l.value by {
          forall l | l in found ensures lowest.value <= l.value {
            assert l in multiset(sorted);
          }
        }
        var kept := WithoutVoxel(found, added.x, added.y, added.z);
        assert (kept + [added])[..|kept|] == kept;
        Ok(kept + [added])
  }

  /** The synthetic label never lands left of the label it copies, and with
      voxels narrower than twice the offset it lands strictly to its right, so
      it cannot overwrite it. */
  lemma SyntheticLabelMovesRight(lowest: Label, px: real, mode: RoundMode)
    requires px > 0.0
    ensures lowest.x <= ShiftedCopy(lowest, px, mode).x
    ensures px < 2.0 * OffsetMm ==> lowest.x < ShiftedCopy(lowest, px, mode).x
  {
    var v := lowest.x as real + OffsetVoxels(px);
    RoundMonotoneFromInteger(v, lowest.x, mode);
  }

  /** When the file's own values stay below 99, the added label's value is
      distinct from every label kept in the file. */
  lemma SyntheticValueIsFresh(found: seq<Label>, nx: int, px: real, mode: RoundMode)
    requires px > 0.0
    requires forall l | l in found :: 0 <= l.x
    requires forall l | l in found :: l.value < SyntheticValue
    requires AddSyntheticLabel(found, nx, px, mode).Ok?
    ensures var s := AddSyntheticLabel(found, nx, px, mode).value;
            forall i | 0 <= i < |s| - 1 :: s[i].value != s[|s| - 1].value
  {
    var s := AddSyntheticLabel(found, nx, px, mode).value;
    forall i | 0 <= i < |s| - 1 ensures s[i].value != s[|s| - 1].value {
      assert s[i] in s[..|s| - 1];
    }
  }
}
