/** Rounding to the nearest integer, as Python's round() does it.

    Python 2's round() breaks ties away from zero and Python 3's breaks them
    to the even neighbour; the script does not say which interpreter runs it.
    The model keeps both and lets every caller say which one applies. */
module Rounding {

  datatype RoundMode = HalfAwayFromZero | HalfToEven

  /** v lies exactly half-way between two integers. */
  predicate IsTie(v: real) {
    v - v.Floor as real == 0.5
  }

  /** Python's int() on a float: truncation toward zero. */
  function Trunc(v: real): (r: int)
    ensures 0.0 <= v ==> r as real <= v < r as real + 1.0
    ensures v < 0.0 ==> r as real - 1.0 < v <= r as real
  {
    if v >= 0.0 then v.Floor else -((-v).Floor)
  }

  /** The integer nearest to v; at a tie, the one the mode picks. */
  function Round(v: real, mode: RoundMode): (r: int)
    ensures r as real - 0.5 <= v <= r as real + 0.5
    ensures IsTie(v) && mode == HalfToEven ==> r % 2 == 0
    ensures IsTie(v) && mode == HalfAwayFromZero && v >= 0.0 ==> v < r as real
    ensures IsTie(v) && mode == HalfAwayFromZero && v < 0.0 ==> r as real < v
  {
    var f := v.Floor;
    var frac := v - f as real;
    if frac < 0.5 then f
    else if frac > 0.5 then f + 1
    else match mode
      case HalfAwayFromZero => if v >= 0.0 then f + 1 else f
      case HalfToEven => if f % 2 == 0 then f else f + 1
  }

  /** Away from ties, both modes agree: the nearest integer is unique. */
  lemma RoundIsNearest(v: real, k: int, mode: RoundMode)
    requires k as real - 0.5 < v < k as real + 0.5
    ensures Round(v, mode) == k
  {
    var r := Round(v, mode);
    assert r as real - 0.5 <= v <= r as real + 0.5;
  }

  /** Rounding never moves a value below an integer it is already above. */
  lemma RoundMonotoneFromInteger(v: real, k: int, mode: RoundMode)
    requires k as real <= v
    ensures k <= Round(v, mode)
  {
  }
}
