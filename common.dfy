/** Shared error taxonomy and result wrappers of the register-to-template pipeline. */
module Common {

  /** Every way the pipeline stops. Each one ends the run: the logger exits the
      process on an error-severity message, and a Python exception is uncaught. */
  datatype Error =
    | TemplateFileMissing        // a template intensity, vertebral-labeling or segmentation file is absent
    | SegNotSameSpace            // data and segmentation are not in the same space
    | LabelsNotSameSpace         // data and landmarks are not in the same space
    | LabelCount(found: nat)     // the landmark volume does not hold exactly two labels
    | LabelNotInteger            // a landmark value is not integral
    | LabelsNotDistinct          // the two landmark values are equal
    | NoTemplateLabels           // the template label list is empty (IndexError on labels_template[-1])
    | LabelCorrespondence        // a subject label value exceeds every template label value
    | LabelsMisplaced            // landmark-based affine estimation raised an exception
    | MissingStep(index: nat)    // the plan has no step with this index (KeyError on steps[str(i)])
    | WrongImageType(index: nat) // a step >= 1 is neither an image step nor a segmentation step
    | EmptyLabelList             // no label to copy for the synthetic third label (IndexError)
    | LabelOutsideImage          // the synthetic label's voxel lies past the image's last x index

  datatype Option<+T> = None | Some(value: T)

  datatype Result<+T> = Ok(value: T) | Err(error: Error)
}
