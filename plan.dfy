/** The multi-step registration plan: initMultiStep and the way main builds the
    plan from the defaults or from the user's -param steps. */
module Plan {
  import opened Common

  /** Which images a step registers: 'label', 'im', 'seg', or anything else a
      user wrote. */
  datatype StepKind = LabelStep | ImageStep | SegStep | OtherKind(name: string)

  /** The parameters of one step. A field left at None takes the default of
      the Paramreg class, which is not part of this model. */
  datatype Step = Step(
    kind: StepKind,
    dof: Option<string>,
    algo: Option<string>,
    metric: Option<string>,
    iter: Option<string>,
    smooth: Option<string>)

  /** The steps dictionary of ParamregMultiStep, keyed by step number. */
  type Plan = map<nat, Step>

  /** -ref template registers the subject onto the template; -ref subject the
      template onto the subject. */
  datatype Ref = ToTemplate | ToSubject

  /** Step 0's degrees of freedom when the cord is already straight: translations
      and a scaling along z. */
  const TranslationsScaleZ: string := "Tx_Ty_Tz_Sz"
  /** Step 0's degrees of freedom on the unstraightened subject: rotations too. */
  const RigidScaleZ: string := "Tx_Ty_Tz_Rx_Ry_Rz_Sz"

  function Step0Dof(ref: Ref): string {
    if ref == ToSubject then RigidScaleZ else TranslationsScaleZ
  }

  /** initMultiStep: a label step, then two segmentation steps. */
  function InitMultiStep(): (r: Plan)
    ensures r.Keys == {0, 1, 2}
    ensures r[0].kind == LabelStep && r[0].dof == Some(TranslationsScaleZ)
    ensures r[1].kind == SegStep && r[2].kind == SegStep
  {
    map[
      0 := Step(LabelStep, Some(TranslationsScaleZ), None, None, None, None),
      1 := Step(SegStep, None, Some("centermassrot"), None, None, Some("2")),
      2 := Step(SegStep, None, Some("bsplinesyn"), Some("MeanSquares"), Some("3"), Some("1"))]
  }

  /** The in-place update of steps['0'].dof. */
  function WithStep0Dof(plan: Plan, dof: string): (r: Plan)
    requires 0 in plan
    ensures r.Keys == plan.Keys && r[0].dof == Some(dof)
    ensures r[0].kind == plan[0].kind
    ensures r[0].(dof := plan[0].dof) == plan[0]
    ensures forall i | i in plan && i != 0 :: r[i] == plan[i]
  {
    plan[0 := plan[0].(dof := Some(dof))]
  }

  /** Setting step 0's dof twice is setting it once, and the default plan
      already holds the -ref template value; so both branches of main leave
      step 0 with Step0Dof(ref), whether or not they assign it. */
  lemma WithStep0DofSettles(plan: Plan, dof: string)
    requires 0 in plan
    ensures WithStep0Dof(WithStep0Dof(plan, dof), dof) == WithStep0Dof(plan, dof)
    ensures WithStep0Dof(InitMultiStep(), Step0Dof(ToTemplate)) == InitMultiStep()
    ensures plan[0].dof == Some(dof) ==> WithStep0Dof(plan, dof) == plan
  {
    var once := WithStep0Dof(plan, dof);
    var twice := WithStep0Dof(once, dof);
    assert twice.Keys == once.Keys && forall i | i in once :: twice[i] == once[i];
    var init := InitMultiStep();
    var widened := WithStep0Dof(init, Step0Dof(ToTemplate));
    assert widened.Keys == init.Keys && forall i | i in init :: widened[i] == init[i];
    if plan[0].dof == Some(dof) {
      assert once.Keys == plan.Keys && forall i | i in plan :: once[i] == plan[i];
    }
  }

  /** The user's steps merged into `base` one by one, in the order given;
      addStep (not part of this model) decides how each one is merged. */
  function AddSteps(addStep: (Plan, string) -> Plan, base: Plan, params: seq<string>): (r: Plan)
    ensures params == [] ==> r == base
    ensures |params| == 1 ==> r == addStep(base, params[0])
    decreases |params|
  {
    if params == [] then base
    else addStep(AddSteps(addStep, base, params[..|params| - 1]), params[|params| - 1])
  }

  /** Adding the steps of a + b is adding those of a, then those of b: the
      order the user gave is the order they are merged in. */
  lemma {:induction false} AddStepsAppend(addStep: (Plan, string) -> Plan, base: Plan, a: seq<string>, b: seq<string>)
    ensures AddSteps(addStep, base, a + b) == AddSteps(addStep, AddSteps(addStep, base, a), b)
    decreases |b|
  {
    if b == [] {
      assert a + b == a;
    } else {
      assert (a + b)[..|a + b| - 1] == a + b[..|b| - 1];
      AddStepsAppend(addStep, base, a, b[..|b| - 1]);
    }
  }

  /** The registration plan main ends up with. Without -param: initMultiStep,
      then step 0's dof widened for -ref subject. With -param: step 0 alone,
      its dof widened for -ref subject, then every user step added. */
  method BuildPlan(ref: Ref, userParams: Option<seq<string>>, addStep: (Plan, string) -> Plan)
    returns (plan: Plan)
    ensures userParams.None? ==>
              && plan.Keys == {0, 1, 2}
              && plan[0].kind == LabelStep && plan[0].dof == Some(Step0Dof(ref))
              && plan[0] == InitMultiStep()[0].(dof := Some(Step0Dof(ref)))
              && plan[1] == InitMultiStep()[1] && plan[2] == InitMultiStep()[2]
    ensures userParams.Some? ==>
              plan == AddSteps(addStep, map[0 := InitMultiStep()[0].(dof := Some(Step0Dof(ref)))],
                               userParams.value)
  {
    if userParams.Some? {
      // reset the parameters but keep step 0
      plan := map[0 := InitMultiStep()[0]];
      if ref == ToSubject {
        plan := WithStep0Dof(plan, RigidScaleZ);
      }
      ghost var base := map[0 := InitMultiStep()[0].(dof := Some(Step0Dof(ref)))];
      assert plan.Keys == base.Keys && plan[0] == base[0];
      assert plan == base;
      var params := userParams.value;
      for i := 0 to |params|
        invariant plan == AddSteps(addStep, base, params[..i])
      {
        assert params[..i + 1][..i] == params[..i];
        plan := addStep(plan, params[i]);
      }
      assert params[..|params|] == params;
    } else {
      plan := InitMultiStep();
      if ref == ToSubject {
        plan := WithStep0Dof(plan, RigidScaleZ);
      }
    }
  }
}
