# Register to template: a Dafny model

`sct_register_to_template` registers a spinal-cord MRI volume (the subject) to
a spinal-cord template, using two landmark labels placed by the user and a
segmentation of the cord. It has two modes:

- `-ref template` straightens the subject's cord. It then estimates an affine
  transform from the straightened landmarks to the template's labels and runs
  a multi-step registration onto the template.
- `-ref subject` adds a third synthetic landmark to each label file. It then
  estimates an affine transform from the template's labels to the subject's,
  and runs the multi-step registration onto the subject.

Both modes produce two chains of warps: anat→template and template→anat.

The project models the logic of `scripts/sct_register_to_template.py` that
does not shell out to other tools:

- `Labels` covers `check_labels` and the check that the subject's labels have
  a counterpart in the template.
- `Resample` covers `resample_labels`: moving labels to a resampled grid by
  rounding the scaled coordinates.
- `Synthetic` covers the third landmark of `-ref subject`. It copies the
  lowest-valued label, moves it 5 mm along x and gives it the value 99.
- `Plan` covers `initMultiStep` and how `main` builds the registration plan
  from the defaults or from `-param`.
- `Registration` covers the per-step loops of both modes. It models which
  volumes each step type selects, the pre-warping of the source, and the
  `append`, `insert(0, …)` and `reverse()` that build the forward and inverse
  warp lists.
- `Warps` is the warp algebra. Every transform has an inverse, and a chain is
  inverted by inverting its elements in reverse order. Composition cancels
  adjacent inverse pairs.
- `Pipeline` is `main`. It runs the checks in the source's order, then
  dispatches on the mode.
- `Rounding` and `Common` are shared. `Rounding` holds Python's `int()` and
  `round()`; `Common` holds the error list and the `Option`/`Result` types.

The central result is about the two chains that either mode produces. The
template→anat chain is the anat→template chain reversed, with every element
inverted (`Registration.RegisterStraightToTemplate`,
`Registration.RegisterTemplateToSubject`). So composing one chain with the
other gives the identity (`Warps.ForwardThenInverseIsIdentity`,
`Registration.ChainsCompose`).

External tools and image I/O are parameters or input values:

- the solver of `sct_register_multimodal.register` is a function from a
  registration call to a warp pair, and it writes a warp together with its
  inverse;
- the outcome of `register_landmarks` is a boolean;
- `ParamregMultiStep.addStep` is a function parameter;
- the label lists read from images are inputs;
- the rounding rule of `round()` is a parameter, because Python 2 rounds
  halves away from zero and Python 3 rounds them to even.

## Model

| member | source | states |
|---|---|---|
| Rounding.Trunc | scripts/sct_register_to_template.py:722 | `int(v)` truncates toward zero: the result is at most `v` for non-negative `v`, at least `v` for negative `v`, and less than one away |
| Rounding.Round | scripts/sct_register_to_template.py:555 | `round(v)` is within 1/2 of `v`; at a tie it is even (half to even) or lies away from zero (half away from zero) |
| Rounding.RoundIsNearest | scripts/sct_register_to_template.py:690-692 | a value strictly within 1/2 of an integer rounds to that integer under either rule |
| Rounding.RoundMonotoneFromInteger | scripts/sct_register_to_template.py:555 | rounding a value at or above an integer never lands below that integer |
| Labels.InsertByValue | scripts/sct_register_to_template.py:716 | inserting into a list sorted by value keeps it sorted and adds exactly that label |
| Labels.SortByValue | scripts/sct_register_to_template.py:716 | `sorting='value'` returns the same labels (same multiset) in ascending order of value |
| Labels.MaxValue | scripts/sct_register_to_template.py:291 | the largest label value: carried by some label and bounding all of them |
| Labels.SortedLastIsMax | scripts/sct_register_to_template.py:291 | in a list sorted by value, `labels[-1].value` is the largest value |
| Labels.MaxValueOfPermutation | scripts/sct_register_to_template.py:288-291 | sorting does not change the largest value |
| Labels.CheckLabels | scripts/sct_register_to_template.py:701-727 | errors, in this order: not exactly two labels (with the count), a non-integral value, equal values; succeeds exactly when none applies, and then returns the same two labels, strictly ascending by value |
| Labels.CheckCorrespondence | scripts/sct_register_to_template.py:285-296 | an empty template label list is an error; otherwise it fails exactly when the subject's largest value exceeds the template's largest value |
| Resample.Scaled | scripts/sct_register_to_template.py:683-692 | `c / (n / nd)` is the position `p` with `p * n == c * nd` |
| Resample.ResampledCoord | scripts/sct_register_to_template.py:690-692 | the new coordinate is within 1/2 voxel of the exactly scaled position |
| Resample.ResampleLabel | scripts/sct_register_to_template.py:689-694 | one label on the new grid: each coordinate within 1/2 voxel of its exactly scaled position on its own axis, and the value an integer truncated toward zero (less than one below a non-negative value, less than one above a negative one) |
| Resample.ResampleLabels | scripts/sct_register_to_template.py:675-699 | one new label per old label, in the same order; each coordinate rescaled on its own axis and rounded; each value truncated to an integer |
| Resample.UpsampleRoundTripCoord | scripts/sct_register_to_template.py:675-699 | resampling to a grid at least as fine and back restores every coordinate exactly, under either rounding rule |
| Resample.UpsampleRoundTripLabel | scripts/sct_register_to_template.py:675-699 | the same for whole labels whose value is already an integer |
| Resample.DownsampleRoundTripDrifts | scripts/sct_register_to_template.py:675-699 | resampling to a coarser grid and back can move a label by two voxels: with 8 voxels to 2 and back, voxel 2 goes to coarse voxel 0 or 1 and returns as voxel 0 or 4, every position inside its grid, under either tie rule |
| Synthetic.OffsetVoxels | scripts/sct_register_to_template.py:555 | 5 mm in voxels is positive, and more than half a voxel when voxels are narrower than 10 mm |
| Synthetic.ShiftedCopy | scripts/sct_register_to_template.py:552-557 | the copy keeps y and z, takes the value 99, and its x is within 1/2 of `x + 5/px` |
| Synthetic.WithoutVoxel | scripts/sct_register_to_template.py:559 | writing a voxel removes exactly the labels at that voxel and keeps all others |
| Synthetic.AddSyntheticLabel | scripts/sct_register_to_template.py:546-562 | an empty label list is an error; a new x past the image is an error, exactly when it happens, and a non-empty list whose new x fits always succeeds; on success the file is exactly its labels off the written voxel (every one of them kept) followed by a copy of its lowest-valued label, shifted, with value 99 |
| Synthetic.SyntheticLabelMovesRight | scripts/sct_register_to_template.py:555 | the new label never lands left of its original, and lands strictly right of it when voxels are narrower than 10 mm |
| Synthetic.SyntheticValueIsFresh | scripts/sct_register_to_template.py:557-559 | when the file's values are below 99, the new label's value differs from every kept label's |
| Warps.InvIsInvolution | scripts/sct_register_to_template.py:519-521 | inverting a warp twice gives it back, and no warp is its own inverse |
| Warps.Expand | scripts/sct_register_to_template.py:411-413 | an empty file list stands for the empty chain |
| Warps.ExpandConcatenated | scripts/sct_register_to_template.py:411-413 | a file concatenated from several transforms stands for those transforms, in order, ahead of the rest of the list |
| Warps.ExpandAppend | scripts/sct_register_to_template.py:512-515 | concatenating file lists concatenates the chains they stand for |
| Warps.ExpandSingles | scripts/sct_register_to_template.py:512-515 | a list of single warp files stands for those warps |
| Warps.Reversed | scripts/sct_register_to_template.py:518 | `reverse()` keeps the length and puts element `n-1-k` at position k |
| Warps.InvertChain | scripts/sct_register_to_template.py:518-521 | the inverse of a chain has the same length |
| Warps.InvertChainAt | scripts/sct_register_to_template.py:518-521 | element k of the inverse chain inverts element `n-1-k` of the chain |
| Warps.InvertChainAppend | scripts/sct_register_to_template.py:610 | the inverse of `a + b` is the inverse of `b` followed by the inverse of `a` |
| Warps.InvertChainInvolution | scripts/sct_register_to_template.py:512-521 | inverting the inverse chain gives the chain back |
| Warps.ReversedInversesIsInverseChain | scripts/sct_register_to_template.py:507-518 | appending each step's inverse and reversing the list gives the inverse of the list of forward warps |
| Warps.PushKeepsReduced | scripts/sct_register_to_template.py:622-628 | composing one more warp keeps a composite free of cancelling neighbours |
| Warps.ComposeAppend | scripts/sct_register_to_template.py:622-628 | composing `a + b` is composing `a`, then `b` |
| Warps.ChainThenInverseCancels | scripts/sct_register_to_template.py:622-628 | a chain followed by its inverse leaves any composite unchanged |
| Warps.ForwardThenInverseIsIdentity | scripts/sct_register_to_template.py:622-628 | a chain followed by its inverse, in either order, is the identity |
| Plan.InitMultiStep | scripts/sct_register_to_template.py:139-151 | the default plan has steps 0, 1 and 2: a label step with dof `Tx_Ty_Tz_Sz`, then two segmentation steps |
| Plan.WithStep0Dof | scripts/sct_register_to_template.py:187-188 | setting step 0's dof changes only that field of step 0 (every other field of step 0 is as before); every other step is unchanged |
| Plan.WithStep0DofSettles | scripts/sct_register_to_template.py:192-196 | setting the dof twice is setting it once, and the default plan already holds the `-ref template` value, so both branches leave step 0 with the dof of its mode |
| Plan.AddSteps | scripts/sct_register_to_template.py:190-191 | no user step leaves the plan as it was; one user step is one `addStep` on it |
| Plan.AddStepsAppend | scripts/sct_register_to_template.py:190-191 | user steps are merged in the order given: adding `a + b` is adding `a`, then `b` |
| Plan.BuildPlan | scripts/sct_register_to_template.py:184-196 | without `-param`: steps 0, 1, 2 of `initMultiStep`, with step 0 unchanged except its dof, a label step whose dof is `Tx_Ty_Tz_Rx_Ry_Rz_Sz` for `-ref subject` and `Tx_Ty_Tz_Sz` otherwise; with `-param`: step 0 alone with that dof, then every user step added in order |
| Registration.SelectVolumes | scripts/sct_register_to_template.py:485-494 | `im` selects the intensity images with linear interpolation, `seg` the segmentations with nearest neighbour, and any other type is an error; the destination is the reference's volume |
| Registration.SelectionSwapsWithRef | scripts/sct_register_to_template.py:588-597 | `-ref subject` swaps source and destination of `-ref template`, with the same interpolation |
| Registration.RegisterStraightToTemplate | scripts/sct_register_to_template.py:394-522 | a failing landmark step (or a missing step 0) is LabelsMisplaced; otherwise it succeeds exactly when every step 1..n-1 exists with type im or seg, and the first bad step names the error; the source is pre-warped by the forward warps so far only from step 2 on; forward is warp_curve2straightAffine then the step warps, inverse is the step inverses reversed then `-straight2templateAffine` then `straight2curve`, and it inverts the forward chain |
| Registration.TemplateChains | scripts/sct_register_to_template.py:510-521 | as primitive transforms, anat→template is straightening, the affine, then the step warps; template→anat is the step inverses, last first, then the inverted affine, then curving back |
| Registration.TemplateChainsInvert | scripts/sct_register_to_template.py:411-413 | in `-ref template`, the inverse chain is exactly the forward chain reversed with every warp inverted |
| Registration.SubjectChains | scripts/sct_register_to_template.py:612-620 | template→anat is the affine then the step warps, and anat→template is exactly its inverse chain |
| Registration.RegisterTemplateToSubject | scripts/sct_register_to_template.py:564-620 | the same errors; every step's source is pre-warped by the forward list, which starts with the affine; forward is the affine then the step warps, and the inverse list (built by inserting at the front) is its inverse chain |
| Registration.ChainsCompose | scripts/sct_register_to_template.py:622-628 | the two chains of either mode compose to the identity in both orders |
| Registration.TemplateModePrewarp | scripts/sct_register_to_template.py:495-502 | in `-ref template`, the first step's source is not pre-warped; step k's source is resampled through the k warps before it, the last one that of step k-1 |
| Pipeline.DefaultPlanIsValid | scripts/sct_register_to_template.py:139-151 | the default plan has three steps, and steps 1 and 2 have a usable type |
| Pipeline.RunMode | scripts/sct_register_to_template.py:303-620 | in `-ref subject` an error adding the third label stops the branch with that error, the subject file first; then a failed landmark step (or no step 0) is the misplaced-labels error and any other failure the first unusable step's; it succeeds exactly when the synthetic labels fit, the landmark step works and every step is usable; then it makes one solver call per step 1 .. n-1 with the volumes the step type selects and the mode's pre-warp (none, then the warps so far, in `-ref template`; the affine and the warps so far in `-ref subject`), and the two chains are the mode's and invert each other |
| Pipeline.Run | scripts/sct_register_to_template.py:154-620 | the plan is `BuildPlan`'s (the three default steps with the mode's step-0 dof, or step 0 with `-param`'s steps added in order); errors in source order: template files, segmentation space, landmark space, then the error of `check_labels` itself (label count, non-integral value, equal values), then correspondence (no template labels, or a subject maximum above the template's); once those pass, the outcome is exactly `RunMode`'s (errors, solver calls and chains); the run succeeds exactly when every check passes and every step is usable, and always when no check fails and `-param` is absent |

## Left out

- Shell tools run through `sct.run` are not modelled. These are conversion, resampling, reorientation, cropping, straightening, binarisation, `sct_apply_transfo` and `sct_concat_transfo`. Their effect on labels is not computed. The label lists they produce are inputs of `Pipeline.Run`.
- Label coordinates are not carried through reorientation, dilation and straightening. So in `-ref template`, `resample_labels` (`Resample.ResampleLabels`) is modelled on its own and is not called from `Pipeline.Run`.
- The numerical solvers of `sct_register_multimodal.register` and `msct_register_landmarks.register_landmarks` are not modelled. The first is a function parameter that writes a warp and its inverse. The second is a boolean outcome.
- `ParamregMultiStep.addStep` is not part of this model; it is a function parameter. How a `-param` string is parsed, and whether it can replace step 0, is not modelled.
- The `Paramreg` defaults of fields that `initMultiStep` leaves unset are not modelled; those fields are `None`.
- `sct.add_suffix` and file naming are not modelled. Volumes are named by role (`Anat`, `TemplateSeg`, …) and by the warps applied to them.
- Argument parsing, logging, the timer, temporary folders, copying outputs and removing temporary files are not modelled. All of these are plumbing.
- The reuse of a straightening from the parent folder (lines 345-356) is not modelled. It is file-presence I/O and does not change the warp chains.
- The split of the cropper's output (lines 337-338) is not modelled; the value is never used.
- The cropping bounds and the z-subsampling factor are not modelled; they only change image extents.
- Voxel sizes and sampling factors are exact reals, with no IEEE floating-point rounding.
- Registration.RegisterStraightToTemplate: with a plan of step 0 alone (`-param` holding only a step-0 override), the source joins an empty list of step warps and passes `sct_concat_transfo` a list with an empty entry (a trailing comma in the forward list, a leading one in the inverse list); the model assumes the tool ignores the empty entry and reports success with the chains of the straightening and the affine alone.
- Pipeline.Run: the label files of `-ref subject` are required to have positive voxel sizes and non-negative voxel coordinates, as any image does; `-ref template` requires nothing of them.
- Resample.ResampleLabels: returns the new labels and does not format the `x,y,z,v:…` string passed to `sct_label_utils -create`.
- Synthetic.AddSyntheticLabel: treats every label as one voxel. For labels that span several voxels, `getCoordinatesAveragedByValue` would use the averaged coordinates of the lowest value.
- `unit_testing/test_itk_to_fsl.py` holds imports only and nothing to model.
- The check that the subject's largest label exists in the template is read from the code. That code reports an error when the subject's largest value is greater than the template's. It fails with an IndexError when the template has no labels; that case is modelled as `NoTemplateLabels`.
- A missing step 0 raises a KeyError inside the `try` around `register_landmarks`. The source reports it as misplaced labels, and so does the model (`LabelsMisplaced`). A missing later step raises an uncaught KeyError (`MissingStep`).
