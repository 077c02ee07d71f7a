/** Landmark labels and the checks that gate the pipeline: check_labels and the
    correspondence check between the subject's and the template's labels. */
module Labels {
  import opened Common
  import opened Rounding

  /** A landmark: a voxel position and the value stored there, which names an
      anatomical level. Values are read from the image, so they are reals. */
  datatype Label = Label(x: int, y: int, z: int, value: real)

  predicate SortedByValue(s: seq<Label>) {
    forall i, j | 0 <= i < j < |s| :: s[i].value <= s[j].value
  }

  /** Python's `int(v) == v`: the value has no fractional part. */
  predicate IsIntegral(v: real) {
    Trunc(v) as real == v
  }

  predicate AllIntegral(s: seq<Label>) {
    forall l | l in s :: IsIntegral(l.value)
  }

  /** Inserts l before the first label whose value is not smaller. */
  function InsertByValue(l: Label, s: seq<Label>): (r: seq<Label>)
    requires SortedByValue(s)
    ensures SortedByValue(r)
    ensures multiset(r) == multiset(s) + multiset{l}
    ensures s == [] ==> r == [l]
    ensures s != [] ==> r[0] == l || r[0] == s[0]
  {
    if s == [] || l.value <= s[0].value then
      [l] + s
    else
      var rest := InsertByValue(l, s[1..]);
      assert forall j | 0 <= j < |rest| :: s[0].value <= rest[j].value by {
        forall j | 0 <= j < |rest| ensures s[0].value <= rest[j].value {
          assert rest[j] in multiset(s[1..]) + multiset{l} by { assert rest[j] in multiset(rest); }
          if rest[j] != l {
            var k :| 0 <= k < |s[1..]| && s[1..][k] == rest[j];
            assert s[k + 1] == rest[j];
          }
        }
      }
      assert s == [s[0]] + s[1..];
      [s[0]] + rest
  }

  /** The ordering of getNonZeroCoordinates(sorting='value'): the same labels,
      ascending by value. */
  function SortByValue(s: seq<Label>): (r: seq<Label>)
    ensures SortedByValue(r)
    ensures multiset(r) == multiset(s)
    ensures |r| == |s|
  {
    if s == [] then []
    else
      assert s == [s[0]] + s[1..];
      InsertByValue(s[0], SortByValue(s[1..]))
  }

  /** The largest value carried by a non-empty list of labels. */
  function MaxValue(s: seq<Label>): (r: real)
    requires s != []
    ensures exists l | l in s :: l.value == r
    ensures forall l | l in s :: l.value <= r
  {
    if |s| == 1 then s[0].value
    else
      var m := MaxValue(s[1..]);
      assert s == [s[0]] + s[1..];
      if s[0].value >= m then s[0].value else m
  }

  lemma SortedLastIsMax(s: seq<Label>)
    requires s != [] && SortedByValue(s)
    ensures s[|s| - 1].value == MaxValue(s)
  {
    var m := MaxValue(s);
    var l :| l in s && l.value == m;
    var i :| 0 <= i < |s| && s[i] == l;
    assert s[i].value <= s[|s| - 1].value;
  }

  lemma MaxValueOfPermutation(s: seq<Label>, t: seq<Label>)
    requires s != [] && multiset(s) == multiset(t)
    ensures t != [] && MaxValue(s) == MaxValue(t)
  {
    assert s[0] in multiset(t);
    var ms, mt := MaxValue(s), MaxValue(t);
    var a :| a in s && a.value == ms;
    var b :| b in t && b.value == mt;
    assert a in multiset(s) && b in multiset(t);
  }

  /** check_labels: exactly two labels, both integral, with distinct values,
      returned ascending by value. The checks run in this order and the first
      one that fails stops the run. */
  function CheckLabels(found: seq<Label>): (r: Result<seq<Label>>)
    ensures |found| != 2 ==> r == Err(LabelCount(|found|))
    ensures |found| == 2 && !AllIntegral(found) ==> r == Err(LabelNotInteger)
    ensures |found| == 2 && AllIntegral(found) && found[0].value == found[1].value ==>
              r == Err(LabelsNotDistinct)
    ensures r.Ok? <==> |found| == 2 && AllIntegral(found) && found[0].value != found[1].value
    ensures r.Ok? ==> |r.value| == 2 && r.value[0].value < r.value[1].value
    ensures r.Ok? ==> multiset(r.value) == multiset(found)
  {
    var labels := SortByValue(found);
    if |labels| != 2 then
      Err(LabelCount(|labels|))
    else
      assert found == [found[0], found[1]];
      assert labels == [labels[0], labels[1]];
      assert labels[0] in multiset(found) && labels[1] in multiset(found);
      assert found[0] in multiset(labels) && found[1] in multiset(labels);
      if exists l | l in labels :: !IsIntegral(l.value) then
        Err(LabelNotInteger)
      else if labels[0].value == labels[1].value then
        Err(LabelsNotDistinct)
      else
        Ok(labels)
  }

  /** The check that every subject label has a counterpart in the template:
      the largest subject value must not exceed the largest template value.
      `labels` is the sorted result of CheckLabels; the template's labels are
      read unsorted and sorted by value first. */
  function CheckCorrespondence(labels: seq<Label>, templateFound: seq<Label>): (r: Result<()>)
    requires labels != [] && SortedByValue(labels)
    ensures templateFound == [] ==> r == Err(NoTemplateLabels)
    ensures templateFound != [] ==>
              (r == Err(LabelCorrespondence) <==> MaxValue(labels) > MaxValue(templateFound))
    ensures r.Ok? <==> templateFound != [] && MaxValue(labels) <= MaxValue(templateFound)
  {
    var labelsTemplate := SortByValue(templateFound);
    if labelsTemplate == [] then
      Err(NoTemplateLabels)
    else
      SortedLastIsMax(labels);
      SortedLastIsMax(labelsTemplate);
      MaxValueOfPermutation(labelsTemplate, templateFound);
      if labels[|labels| - 1].value > labelsTemplate[|labelsTemplate| - 1].value then
        Err(LabelCorrespondence)
      else
        Ok(())
  }
}
