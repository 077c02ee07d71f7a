/** The per-step registration loops of the two modes, and the warp chains they
    build. Each step registers a source volume onto a destination volume with
    an external solver that writes a forward and an inverse warp. */
module Registration {
  import opened Common
  import opened Warps
  import opened Plan

  datatype Interp = Linear | NearestNeighbour

  /** The volumes a step registers: the subject's anatomical image and
      segmentation and the template's, each as prepared before the loop, or one
      of them resampled through a chain of warps. */
  datatype Volume =
    | Anat
    | AnatSeg
    | Template
    | TemplateSeg
    | Warped(source: Volume, chain: seq<Warp>, interp: Interp)

  /** The source, the destination and the interpolation a step type selects. */
  datatype Selection = Selection(src: Volume, dest: Volume, interp: Interp)

  /** One call of the registration solver for step `step`. */
  datatype RegCall = RegCall(step: nat, src: Volume, dest: Volume)

  /** The two warps a registration writes. */
  datatype WarpPair = WarpPair(forward: Warp, inverse: Warp)

  /** What a mode produces: the chains concatenated into the forward
      (moving to reference) and the inverse warp files, and the solver calls
      made on the way. */
  datatype Chains = Chains(forward: seq<WarpFile>, inverse: seq<WarpFile>, calls: seq<RegCall>)

  /** The solver writes, for each step, a warp and its inverse. */
  ghost predicate WritesInversePairs(register: RegCall -> WarpPair) {
    forall c :: register(c).inverse == Inv(register(c).forward)
  }

  /** Per-step choice of images: 'im' registers the intensity images with
      linear interpolation, 'seg' the segmentations with nearest neighbour; the
      destination is always the reference's volume. Any other type is an
      error (None). */
  function SelectVolumes(ref: Ref, kind: StepKind): (r: Option<Selection>)
    ensures r.Some? <==> kind == ImageStep || kind == SegStep
    ensures kind == ImageStep ==>
              r.value.interp == Linear && {r.value.src, r.value.dest} == {Anat, Template}
    ensures kind == SegStep ==>
              r.value.interp == NearestNeighbour && {r.value.src, r.value.dest} == {AnatSeg, TemplateSeg}
    ensures r.Some? ==> (ref == ToTemplate <==> r.value.dest in {Template, TemplateSeg})
  {
    match kind
    case ImageStep =>
      if ref == ToTemplate then Some(Selection(Anat, Template, Linear))
      else Some(Selection(Template, Anat, Linear))
    case SegStep =>
      if ref == ToTemplate then Some(Selection(AnatSeg, TemplateSeg, NearestNeighbour))
      else Some(Selection(TemplateSeg, AnatSeg, NearestNeighbour))
    case _ => None
  }

  /** The two modes register the same pair of volumes in opposite directions. */
  lemma SelectionSwapsWithRef(kind: StepKind)
    requires kind == ImageStep || kind == SegStep
    ensures SelectVolumes(ToSubject, kind).value.src == SelectVolumes(ToTemplate, kind).value.dest
    ensures SelectVolumes(ToSubject, kind).value.dest == SelectVolumes(ToTemplate, kind).value.src
    ensures SelectVolumes(ToSubject, kind).value.interp == SelectVolumes(ToTemplate, kind).value.interp
  {
  }

  /** Step i exists and has a type the loop accepts. */
  predicate StepOk(plan: Plan, i: nat) {
    i in plan && (plan[i].kind == ImageStep || plan[i].kind == SegStep)
  }

  /** Every step after the landmark step, numbered 1 to |plan| - 1, is usable. */
  predicate StepsValid(plan: Plan) {
    forall i | 1 <= i < |plan| :: StepOk(plan, i)
  }

  /** The error for an unusable step: a missing key raises a KeyError; a
      present step of another type is 'Wrong image type'. */
  function StepError(plan: Plan, i: nat): Error {
    if i !in plan then MissingStep(i) else WrongImageType(i)
  }

  /** The error raised by the first unusable step. */
  predicate IsFirstStepError(plan: Plan, e: Error) {
    exists i | 1 <= i < |plan| ::
      && !StepOk(plan, i)
      && (forall j | 1 <= j < i :: StepOk(plan, j))
      && e == StepError(plan, i)
  }

  /** `call` is the registration of step i with the volumes its type selects,
      the source resampled through `prewarp` first when there is one. */
  predicate IsCallOfStep(ref: Ref, plan: Plan, i: nat, prewarp: Option<seq<Warp>>, call: RegCall) {
    && i in plan
    && var sel := SelectVolumes(ref, plan[i].kind);
       && sel.Some?
       && call == RegCall(i,
                          if prewarp.Some? then Warped(sel.value.src, prewarp.value, sel.value.interp)
                          else sel.value.src,
                          sel.value.dest)
  }

  function Forwards(calls: seq<RegCall>, register: RegCall -> WarpPair): (r: seq<Warp>)
    ensures |r| == |calls| && forall k | 0 <= k < |calls| :: r[k] == register(calls[k]).forward
  {
    seq(|calls|, k requires 0 <= k < |calls| => register(calls[k]).forward)
  }

  function Inverses(calls: seq<RegCall>, register: RegCall -> WarpPair): (r: seq<Warp>)
    ensures |r| == |calls| && forall k | 0 <= k < |calls| :: r[k] == register(calls[k]).inverse
  {
    seq(|calls|, k requires 0 <= k < |calls| => register(calls[k]).inverse)
  }

  lemma ForwardsSnoc(calls: seq<RegCall>, c: RegCall, register: RegCall -> WarpPair)
    ensures Forwards(calls + [c], register) == Forwards(calls, register) + [register(c).forward]
    ensures forall k | 0 <= k <= |calls| :: (calls + [c])[..k] == calls[..k]
  {
    assert Forwards(calls + [c], register) == Forwards(calls, register) + [register(c).forward];
  }

  /** The file warp_curve2straightAffine: straightening, then the landmark
      affine onto the template. */
  const CurveToStraightAffine: WarpFile :=
    Concatenated([CurveToStraight, Affine(StraightToTemplate, false)])

  /** The chains of -ref template, from the solver's calls. */
  function TemplateChains(calls: seq<RegCall>, register: RegCall -> WarpPair): (r: Chains)
    ensures r.calls == calls
    ensures Expand(r.forward)
            == [CurveToStraight, Affine(StraightToTemplate, false)] + Forwards(calls, register)
    ensures Expand(r.inverse)
            == Reversed(Inverses(calls, register)) + [Affine(StraightToTemplate, true), StraightToCurve]
  {
    var fwd, inv := Forwards(calls, register), Inverses(calls, register);
    var suffix := [Single(Affine(StraightToTemplate, true)), Single(StraightToCurve)];
    ExpandConcatenated([CurveToStraight, Affine(StraightToTemplate, false)], Singles(fwd));
    ExpandSingles(fwd);
    ExpandAppend(Singles(Reversed(inv)), suffix);
    ExpandSingles(Reversed(inv));
    ExpandSingles([Affine(StraightToTemplate, true), StraightToCurve]);
    assert Singles([Affine(StraightToTemplate, true), StraightToCurve]) == suffix;
    Chains([CurveToStraightAffine] + Singles(fwd), Singles(Reversed(inv)) + suffix, calls)
  }

  /** -ref template: step 0 (the landmark affine straight-to-template) must
      succeed; then steps 1 .. |plan| - 1 in order, each source resampled
      through the warps found so far from step 2 on. The forward chain is
      warp_curve2straightAffine and the step warps; the inverse chain is the
      step inverses in reverse order, then the inverted affine, then
      straight-to-curve. */
  method RegisterStraightToTemplate(plan: Plan, landmarksOk: bool, register: RegCall -> WarpPair)
    returns (r: Result<Chains>)
    requires WritesInversePairs(register)
    ensures r == Err(LabelsMisplaced) <==> 0 !in plan || !landmarksOk
    ensures 0 in plan && landmarksOk ==> (r.Ok? <==> StepsValid(plan))
    ensures r.Err? && r.error != LabelsMisplaced ==> IsFirstStepError(plan, r.error)
    ensures r.Ok? ==>
              var calls := r.value.calls;
              && |calls| == |plan| - 1
              && (forall k | 0 <= k < |calls| ::
                    IsCallOfStep(ToTemplate, plan, k + 1,
                                 if k == 0 then None else Some(Forwards(calls[..k], register)), calls[k]))
              && r.value == TemplateChains(calls, register)
              && Expand(r.value.inverse) == InvertChain(Expand(r.value.forward))
  {
    // step 0: the landmark affine; a missing step 0 raises inside the try block
    if 0 !in plan || !landmarksOk {
      return Err(LabelsMisplaced);
    }
    var warpForward: seq<Warp> := [];
    var warpInverse: seq<Warp> := [];
    var calls: seq<RegCall> := [];
    assert 0 in plan.Keys;
    var i := 1;
    while i < |plan|
      invariant 1 <= i <= |plan| && |calls| == i - 1
      invariant forall j | 1 <= j < i :: StepOk(plan, j)
      invariant warpForward == Forwards(calls, register) && warpInverse == Inverses(calls, register)
      invariant forall k | 0 <= k < |calls| ::
                  IsCallOfStep(ToTemplate, plan, k + 1,
                               if k == 0 then None else Some(Forwards(calls[..k], register)), calls[k])
    {
      if i !in plan {
        assert !StepOk(plan, i);
        return Err(MissingStep(i));
      }
      var sel := SelectVolumes(ToTemplate, plan[i].kind);
      if sel.None? {
        assert !StepOk(plan, i);
        return Err(WrongImageType(i));
      }
      var src := sel.value.src;
      if i > 1 {
        src := Warped(src, warpForward, sel.value.interp);
      }
      var call := RegCall(i, src, sel.value.dest);
      var pair := register(call);
      ForwardsSnoc(calls, call, register);
      assert i > 1 ==> calls == (calls + [call])[..|calls|];
      warpForward := warpForward + [pair.forward];
      warpInverse := warpInverse + [pair.inverse];
      calls := calls + [call];
      i := i + 1;
    }
    TemplateChainsInvert(calls, register);
    // concatenate: anat -> template, then (reversing the inverse list) template -> anat
    var forward := [CurveToStraightAffine] + Singles(warpForward);
    var inverse := Singles(Reversed(warpInverse))
                   + [Single(Affine(StraightToTemplate, true)), Single(StraightToCurve)];
    r := Ok(Chains(forward, inverse, calls));
  }

  /** In -ref template the inverse chain inverts the forward chain. */
  lemma TemplateChainsInvert(calls: seq<RegCall>, register: RegCall -> WarpPair)
    requires WritesInversePairs(register)
    ensures var c := TemplateChains(calls, register);
            Expand(c.inverse) == InvertChain(Expand(c.forward))
  {
    var fwd, inv := Forwards(calls, register), Inverses(calls, register);
    var prefix := [CurveToStraight, Affine(StraightToTemplate, false)];
    ReversedInversesIsInverseChain(fwd, inv);
    InvertChainAppend(prefix, fwd);
    assert InvertChain(prefix) == [Affine(StraightToTemplate, true), StraightToCurve];
  }

  /** The chains of -ref subject, from the solver's calls. */
  function SubjectChains(calls: seq<RegCall>, register: RegCall -> WarpPair): (r: Chains)
    ensures r.calls == calls
    ensures Expand(r.forward) == [Affine(TemplateToSubject, false)] + Forwards(calls, register)
    ensures Expand(r.inverse) == InvertChain(Expand(r.forward))
  {
    var forward := [Affine(TemplateToSubject, false)] + Forwards(calls, register);
    ExpandSingles(forward);
    ExpandSingles(InvertChain(forward));
    Chains(Singles(forward), Singles(InvertChain(forward)), calls)
  }

  /** -ref subject: step 0 (the landmark affine template-to-subject) must
      succeed; then steps 1 .. |plan| - 1 in order, each source resampled
      through the warps found so far, which always start with the affine. Each
      forward warp is appended, each inverse put in front. */
  method RegisterTemplateToSubject(plan: Plan, landmarksOk: bool, register: RegCall -> WarpPair)
    returns (r: Result<Chains>)
    requires WritesInversePairs(register)
    ensures r == Err(LabelsMisplaced) <==> 0 !in plan || !landmarksOk
    ensures 0 in plan && landmarksOk ==> (r.Ok? <==> StepsValid(plan))
    ensures r.Err? && r.error != LabelsMisplaced ==> IsFirstStepError(plan, r.error)
    ensures r.Ok? ==>
              var calls := r.value.calls;
              && |calls| == |plan| - 1
              && (forall k | 0 <= k < |calls| ::
                    IsCallOfStep(ToSubject, plan, k + 1,
                                 Some([Affine(TemplateToSubject, false)] + Forwards(calls[..k], register)),
                                 calls[k]))
              && r.value == SubjectChains(calls, register)
              && Expand(r.value.inverse) == InvertChain(Expand(r.value.forward))
  {
    if 0 !in plan || !landmarksOk {
      return Err(LabelsMisplaced);
    }
    var warpForward: seq<Warp> := [Affine(TemplateToSubject, false)];
    var warpInverse: seq<Warp> := [Affine(TemplateToSubject, true)];
    var calls: seq<RegCall> := [];
    assert 0 in plan.Keys;
    var i := 1;
    while i < |plan|
      invariant 1 <= i <= |plan| && |calls| == i - 1
      invariant forall j | 1 <= j < i :: StepOk(plan, j)
      invariant warpForward == [Affine(TemplateToSubject, false)] + Forwards(calls, register)
      invariant warpInverse == InvertChain(warpForward)
      invariant forall k | 0 <= k < |calls| ::
                  IsCallOfStep(ToSubject, plan, k + 1,
                               Some([Affine(TemplateToSubject, false)] + Forwards(calls[..k], register)),
                               calls[k])
    {
      if i !in plan {
        assert !StepOk(plan, i);
        return Err(MissingStep(i));
      }
      var sel := SelectVolumes(ToSubject, plan[i].kind);
      if sel.None? {
        assert !StepOk(plan, i);
        return Err(WrongImageType(i));
      }
      var src := Warped(sel.value.src, warpForward, sel.value.interp);
      var call := RegCall(i, src, sel.value.dest);
      var pair := register(call);
      ForwardsSnoc(calls, call, register);
      assert calls == (calls + [call])[..|calls|];
      InvertChainAppend(warpForward, [pair.forward]);
      assert InvertChain([pair.forward]) == [pair.inverse];
      warpForward := warpForward + [pair.forward];
      warpInverse := [pair.inverse] + warpInverse;
      calls := calls + [call];
      i := i + 1;
    }
    ExpandSingles(warpForward);
    ExpandSingles(warpInverse);
    r := Ok(Chains(Singles(warpForward), Singles(warpInverse), calls));
  }

  /** Every chain either mode produces, followed by its inverse chain (or the
      other way round), composes to the identity. */
  lemma ChainsCompose(c: Chains)
    requires Expand(c.inverse) == InvertChain(Expand(c.forward))
    ensures Compose([], Expand(c.forward) + Expand(c.inverse)) == []
    ensures Compose([], Expand(c.inverse) + Expand(c.forward)) == []
  {
    ForwardThenInverseIsIdentity(Expand(c.forward));
  }

  /** In -ref template the first registered step sees the straightened,
      affine-registered source as it is; every later one sees it resampled
      through exactly the warps of the steps before it. */
  lemma TemplateModePrewarp(plan: Plan, register: RegCall -> WarpPair, c: Chains, k: nat)
    requires forall k | 0 <= k < |c.calls| ::
               IsCallOfStep(ToTemplate, plan, k + 1,
                            if k == 0 then None else Some(Forwards(c.calls[..k], register)), c.calls[k])
    requires k < |c.calls|
    ensures k == 0 ==> c.calls[k].src in {Anat, AnatSeg}
    ensures k > 0 ==> c.calls[k].src.Warped? && |c.calls[k].src.chain| == k
                      && c.calls[k].src.chain[k - 1] == register(c.calls[k - 1]).forward
  {
    assert IsCallOfStep(ToTemplate, plan, k + 1,
                        if k == 0 then None else Some(Forwards(c.calls[..k], register)), c.calls[k]);
  }
}
