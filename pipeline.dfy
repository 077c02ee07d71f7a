/** main: builds the plan, checks the template files, the input spaces and the
    landmarks, then runs one of the two registration modes. Files and external
    tools appear as the values they yield. */
module Pipeline {
  import opened Common
  import opened Rounding
  import opened Labels
  import opened Synthetic
  import opened Warps
  import opened Plan
  import opened Registration

  /** What main learns from the files and from the external tools. */
  datatype Inputs = Inputs(
    templateFilesExist: bool,      // template image, vertebral labelling and cord segmentation
    segInDataSpace: bool,          // segmentation in the space of the data
    landmarksInDataSpace: bool,    // landmark image in the space of the data
    landmarks: seq<Label>,         // non-zero voxels of the landmark image
    templateLabels: seq<Label>,    // the template's vertebral-body labels
    subjectLabelsRpi: seq<Label>,  // -ref subject: subject labels, RPI
    subjectNx: int,                //   voxels along x of the subject label image
    subjectPx: real,               //   voxel size along x in mm
    templateLabelsKept: seq<Label>,// -ref subject: template labels present in the subject
    templateNx: int,
    templatePx: real,
    landmarksOk: bool)             // register_landmarks returned normally

  /** The label files of -ref subject: voxel sizes are positive and voxel
      coordinates non-negative. */
  predicate WellFormed(inputs: Inputs) {
    && inputs.subjectPx > 0.0 && inputs.templatePx > 0.0
    && (forall l | l in inputs.subjectLabelsRpi :: 0 <= l.x)
    && (forall l | l in inputs.templateLabelsKept :: 0 <= l.x)
  }

  /** The checks main makes before it dispatches on the mode. */
  predicate EarlyChecksPass(inputs: Inputs) {
    && inputs.templateFilesExist && inputs.segInDataSpace && inputs.landmarksInDataSpace
    && CheckLabels(inputs.landmarks).Ok?
    && inputs.templateLabels != []
    && MaxValue(inputs.landmarks) <= MaxValue(inputs.templateLabels)
  }

  /** In -ref subject, both label files take a third label. */
  predicate SyntheticLabelsFit(ref: Ref, inputs: Inputs, mode: RoundMode)
    requires ref == ToSubject ==> WellFormed(inputs)
  {
    ref == ToSubject ==>
      && AddSyntheticLabel(inputs.subjectLabelsRpi, inputs.subjectNx, inputs.subjectPx, mode).Ok?
      && AddSyntheticLabel(inputs.templateLabelsKept, inputs.templateNx, inputs.templatePx, mode).Ok?
  }

  /** The checks of a mode before its step loop: the synthetic labels fit,
      and the landmark registration returns normally. */
  predicate ModeChecksPass(ref: Ref, inputs: Inputs, mode: RoundMode)
    requires ref == ToSubject ==> WellFormed(inputs)
  {
    SyntheticLabelsFit(ref, inputs, mode) && inputs.landmarksOk
  }

  /** The warps step k + 1's source is resampled through: in -ref template
      none for the first step and the forward warps so far after it; in -ref
      subject always the affine, then the forward warps so far. */
  function Prewarp(ref: Ref, calls: seq<RegCall>, k: nat, register: RegCall -> WarpPair): Option<seq<Warp>>
    requires k <= |calls|
  {
    if ref == ToTemplate then
      (if k == 0 then None else Some(Forwards(calls[..k], register)))
    else
      Some([Affine(TemplateToSubject, false)] + Forwards(calls[..k], register))
  }

  /** What the branch of main on -ref ends with. In -ref subject a label
      file without a label, or whose third label falls past the image, stops
      the run with its error, the subject's file first. Then a failed landmark
      registration (or a plan without step 0) is LabelsMisplaced, and any
      other failure is the first unusable step's. On success there is one call
      per step 1 .. |plan| - 1, in order, with the volumes its type selects and
      the mode's pre-warp, and the chains are the mode's. */
  predicate ModeOutcome(ref: Ref, plan: Plan, inputs: Inputs, register: RegCall -> WarpPair,
                        mode: RoundMode, r: Result<Chains>)
    requires ref == ToSubject ==> WellFormed(inputs)
  {
    && (ref == ToSubject ==>
          var subject := AddSyntheticLabel(inputs.subjectLabelsRpi, inputs.subjectNx, inputs.subjectPx, mode);
          var template := AddSyntheticLabel(inputs.templateLabelsKept, inputs.templateNx, inputs.templatePx, mode);
          && (subject.Err? ==> r == Err(subject.error))
          && (subject.Ok? && template.Err? ==> r == Err(template.error)))
    && (SyntheticLabelsFit(ref, inputs, mode) && (0 !in plan || !inputs.landmarksOk) ==>
          r == Err(LabelsMisplaced))
    && (SyntheticLabelsFit(ref, inputs, mode) && 0 in plan && inputs.landmarksOk && r.Err? ==>
          IsFirstStepError(plan, r.error))
    && (r.Ok? <==> ModeChecksPass(ref, inputs, mode) && 0 in plan && StepsValid(plan))
    && (r.Ok? ==>
          && |r.value.calls| == |plan| - 1
          && (forall k | 0 <= k < |r.value.calls| ::
                IsCallOfStep(ref, plan, k + 1, Prewarp(ref, r.value.calls, k, register), r.value.calls[k]))
          && ChainsOfMode(ref, r.value, register))
  }

  /** The chains of a successful run, as primitive transforms. */
  predicate ChainsOfMode(ref: Ref, c: Chains, register: RegCall -> WarpPair) {
    && Expand(c.inverse) == InvertChain(Expand(c.forward))
    && (ref == ToTemplate ==>
          && Expand(c.forward) == [CurveToStraight, Affine(StraightToTemplate, false)] + Forwards(c.calls, register)
          && Expand(c.inverse) == Reversed(Inverses(c.calls, register))
                                  + [Affine(StraightToTemplate, true), StraightToCurve])
    && (ref == ToSubject ==>
          Expand(c.forward) == [Affine(TemplateToSubject, false)] + Forwards(c.calls, register))
  }

  /** The branch of main on -ref, after the common checks. */
  method RunMode(ref: Ref, plan: Plan, inputs: Inputs, register: RegCall -> WarpPair, mode: RoundMode)
    returns (r: Result<Chains>)
    requires WritesInversePairs(register)
    requires ref == ToSubject ==> WellFormed(inputs)
    ensures ModeOutcome(ref, plan, inputs, register, mode, r)
  {
    if ref == ToTemplate {
      r := RegisterStraightToTemplate(plan, inputs.landmarksOk, register);
      if r.Ok? {
        TemplateChainsInvert(r.value.calls, register);
      }
    } else {
      // a third label in each label file, subject first
      var subjectLabels := AddSyntheticLabel(inputs.subjectLabelsRpi, inputs.subjectNx, inputs.subjectPx, mode);
      if subjectLabels.Err? {
        return Err(subjectLabels.error);
      }
      var templateLabels := AddSyntheticLabel(inputs.templateLabelsKept, inputs.templateNx, inputs.templatePx, mode);
      if templateLabels.Err? {
        return Err(templateLabels.error);
      }
      r := RegisterTemplateToSubject(plan, inputs.landmarksOk, register);
    }
    assert r.Ok? ==> forall k | 0 <= k < |r.value.calls| ::
      IsCallOfStep(ref, plan, k + 1, Prewarp(ref, r.value.calls, k, register), r.value.calls[k]);
  }

  /** main, from the plan to the two warp chains (anat to template and
      template to anat). Every error ends the run; they are raised in the
      order of the clauses below. */
  method Run(ref: Ref, userParams: Option<seq<string>>, addStep: (Plan, string) -> Plan,
             inputs: Inputs, register: RegCall -> WarpPair, mode: RoundMode)
    returns (plan: Plan, r: Result<Chains>)
    requires WritesInversePairs(register)
    requires ref == ToSubject ==> WellFormed(inputs)
    ensures userParams.None? ==>
              && plan.Keys == {0, 1, 2}
              && plan[0] == InitMultiStep()[0].(dof := Some(Step0Dof(ref)))
              && plan[1] == InitMultiStep()[1] && plan[2] == InitMultiStep()[2]
    ensures userParams.Some? ==>
              plan == AddSteps(addStep, map[0 := InitMultiStep()[0].(dof := Some(Step0Dof(ref)))],
                               userParams.value)
    ensures !inputs.templateFilesExist ==> r == Err(TemplateFileMissing)
    ensures inputs.templateFilesExist && !inputs.segInDataSpace ==> r == Err(SegNotSameSpace)
    ensures inputs.templateFilesExist && inputs.segInDataSpace && !inputs.landmarksInDataSpace ==>
              r == Err(LabelsNotSameSpace)
    ensures inputs.templateFilesExist && inputs.segInDataSpace && inputs.landmarksInDataSpace ==>
              && (|inputs.landmarks| != 2 ==> r == Err(LabelCount(|inputs.landmarks|)))
              && (CheckLabels(inputs.landmarks).Err? ==> r == Err(CheckLabels(inputs.landmarks).error))
              && (CheckLabels(inputs.landmarks).Ok? && inputs.templateLabels == [] ==>
                    r == Err(NoTemplateLabels))
              && (CheckLabels(inputs.landmarks).Ok? && inputs.templateLabels != []
                  && MaxValue(inputs.landmarks) > MaxValue(inputs.templateLabels) ==>
                    r == Err(LabelCorrespondence))
    ensures EarlyChecksPass(inputs) ==> ModeOutcome(ref, plan, inputs, register, mode, r)
    ensures r.Ok? <==> EarlyChecksPass(inputs) && ModeChecksPass(ref, inputs, mode) && 0 in plan && StepsValid(plan)
    ensures userParams.None? ==> (r.Ok? <==> EarlyChecksPass(inputs) && ModeChecksPass(ref, inputs, mode))
  {
    plan := BuildPlan(ref, userParams, addStep);
    if userParams.None? {
      DefaultPlanIsValid(plan);
    }
    if !inputs.templateFilesExist {
      return plan, Err(TemplateFileMissing);
    }
    if !inputs.segInDataSpace {
      return plan, Err(SegNotSameSpace);
    }
    if !inputs.landmarksInDataSpace {
      return plan, Err(LabelsNotSameSpace);
    }
    var checked := CheckLabels(inputs.landmarks);
    if checked.Err? {
      return plan, Err(checked.error);
    }
    var labels := checked.value;
    MaxValueOfPermutation(labels, inputs.landmarks);
    var correspondence := CheckCorrespondence(labels, inputs.templateLabels);
    if correspondence.Err? {
      return plan, Err(correspondence.error);
    }
    r := RunMode(ref, plan, inputs, register, mode);
  }

  /** The default plan (with either step-0 dof) passes the step loop. */
  lemma DefaultPlanIsValid(plan: Plan)
    requires plan.Keys == {0, 1, 2}
    requires plan[1] == InitMultiStep()[1] && plan[2] == InitMultiStep()[2]
    ensures |plan| == 3 && 0 in plan && StepsValid(plan)
  {
    assert |plan.Keys| == |{0, 1, 2}| == 3;
  }
}
