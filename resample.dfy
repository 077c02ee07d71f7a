/** resample_labels: recomputes landmark voxel coordinates after the image has
    been resampled, instead of interpolating a sparse label volume (which could
    make single-voxel labels vanish). */
module Resample {
  import opened Rounding
  import opened Labels

  /** The number of voxels along each axis of an image grid. */
  datatype Dims = Dims(nx: int, ny: int, nz: int)

  predicate ValidDims(d: Dims) {
    d.nx > 0 && d.ny > 0 && d.nz > 0
  }

  /** The exact position of source voxel c on the destination grid: c divided by
      the sampling factor n / nd, which is c * nd / n. */
  function Scaled(c: int, n: int, nd: int): (v: real)
    requires n > 0 && nd > 0
    ensures v * (n as real) == (c as real) * (nd as real)
  {
    var factor := (n as real) / (nd as real);
    assert factor * (nd as real) == n as real;
    (c as real) / factor
  }

  /** One coordinate on the destination grid: the integer nearest to the
      exact scaled position. */
  function ResampledCoord(c: int, n: int, nd: int, mode: RoundMode): (r: int)
    requires n > 0 && nd > 0
    ensures r as real - 0.5 <= Scaled(c, n, nd) <= r as real + 0.5
  {
    Round(Scaled(c, n, nd), mode)
  }

  /** One label moved to the destination grid; its value is truncated to an
      integer, as int(float(value)) does. */
  function ResampleLabel(l: Label, src: Dims, dst: Dims, mode: RoundMode): (r: Label)
    requires ValidDims(src) && ValidDims(dst)
    ensures r.x as real - 0.5 <= Scaled(l.x, src.nx, dst.nx) <= r.x as real + 0.5
    ensures r.y as real - 0.5 <= Scaled(l.y, src.ny, dst.ny) <= r.y as real + 0.5
    ensures r.z as real - 0.5 <= Scaled(l.z, src.nz, dst.nz) <= r.z as real + 0.5
    ensures IsIntegral(r.value) && (0.0 <= l.value ==> r.value <= l.value < r.value + 1.0)
    ensures l.value < 0.0 ==> r.value - 1.0 < l.value <= r.value
  {
    Label(ResampledCoord(l.x, src.nx, dst.nx, mode),
          ResampledCoord(l.y, src.ny, dst.ny, mode),
          ResampledCoord(l.z, src.nz, dst.nz, mode),
          Trunc(l.value) as real)
  }

  /** The loop of resample_labels: one new label per old label, in the same
      order. (Formatting the list for sct_label_utils -create is left out.) */
  method ResampleLabels(labels: seq<Label>, src: Dims, dst: Dims, mode: RoundMode)
    returns (resampled: seq<Label>)
    requires ValidDims(src) && ValidDims(dst)
    ensures |resampled| == |labels|
    ensures forall i | 0 <= i < |labels| :: resampled[i] == ResampleLabel(labels[i], src, dst, mode)
  {
    resampled := [];
    for i := 0 to |labels|
      invariant |resampled| == i
      invariant forall k | 0 <= k < i :: resampled[k] == ResampleLabel(labels[k], src, dst, mode)
    {
      var l := labels[i];
      var x := ResampledCoord(l.x, src.nx, dst.nx, mode);
      var y := ResampledCoord(l.y, src.ny, dst.ny, mode);
      var z := ResampledCoord(l.z, src.nz, dst.nz, mode);
      resampled := resampled + [Label(x, y, z, Trunc(l.value) as real)];
    }
  }

  /** |a - b| <= bound scales to |a * k - b * k| <= bound * k. */
  lemma ScaleBound(a: real, b: real, k: real, bound: real, diff: real)
    requires k > 0.0 && -bound <= a - b <= bound && diff == a * k - b * k
    ensures -bound * k <= diff <= bound * k
  {
    assert diff == (a - b) * k;
  }

  /** |a * k - b * k| < bound * k cancels to |a - b| < bound. */
  lemma CancelBound(a: real, b: real, k: real, bound: real, diff: real)
    requires k > 0.0 && -bound * k < diff < bound * k && diff == a * k - b * k
    ensures -bound < a - b < bound
  {
    assert diff == (a - b) * k;
  }

  /** The arithmetic core of the round trip, on plain reals: v = C * D / N is
      the scaled position, Y its rounding, back = Y * N / D the way back. */
  lemma RoundTripArithmetic(N: real, D: real, C: real, Y: real, v: real, back: real)
    requires 0.0 < N <= D
    requires v * N == C * D && back * D == Y * N
    requires Y - 0.5 <= v <= Y + 0.5
    ensures N < D ==> C - 0.5 < back < C + 0.5
    ensures N == D ==> C - 1.0 < Y < C + 1.0
    ensures N == D && Y == C ==> back == C
  {
    // the rounding error, seen on both grids
    var e := Y * N - v * N;
    ScaleBound(Y, v, N, 0.5, e);
    assert e == back * D - C * D;
    if N < D {
      CancelBound(back, C, D, 0.5, e);
    } else {
      assert e == Y * N - C * N;
      CancelBound(Y, C, N, 1.0, e);
      if Y == C {
        assert back * N == C * N;
        if back != C {
          var gap := if back > C then back - C else C - back;
          CancelBound(back, C, N, gap, 0.0);
        }
      }
    }
  }

  /** Going to a grid at least as fine along an axis and back restores the
      coordinate exactly, whichever tie rule round() follows. */
  lemma UpsampleRoundTripCoord(c: int, n: int, nd: int, mode: RoundMode)
    requires 0 < n <= nd
    ensures ResampledCoord(ResampledCoord(c, n, nd, mode), nd, n, mode) == c
  {
    var y := ResampledCoord(c, n, nd, mode);
    var back := Scaled(y, nd, n);
    RoundTripArithmetic(n as real, nd as real, c as real, y as real, Scaled(c, n, nd), back);
    if n == nd {
      assert y == c;
    }
    RoundIsNearest(back, c, mode);
  }

  /** The same for a whole label, when every axis is at least as fine on the
      destination grid and the value is already an integer. */
  lemma UpsampleRoundTripLabel(l: Label, src: Dims, dst: Dims, mode: RoundMode)
    requires ValidDims(src) && ValidDims(dst)
    requires src.nx <= dst.nx && src.ny <= dst.ny && src.nz <= dst.nz
    requires IsIntegral(l.value)
    ensures ResampleLabel(ResampleLabel(l, src, dst, mode), dst, src, mode) == l
  {
    UpsampleRoundTripCoord(l.x, src.nx, dst.nx, mode);
    UpsampleRoundTripCoord(l.y, src.ny, dst.ny, mode);
    UpsampleRoundTripCoord(l.z, src.nz, dst.nz, mode);
  }

  /** Going to a coarser grid and back is not within one voxel in general:
      with 8 voxels resampled to 2, voxel 2 lands on the tie 0.5, goes to
      voxel 0 or 1 of the coarse grid, and comes back as voxel 0 or 4, two
      voxels away, under either tie rule; every position stays inside its
      grid. */
  lemma DownsampleRoundTripDrifts(mode: RoundMode)
    ensures var there := ResampledCoord(2, 8, 2, mode);
            var back := ResampledCoord(there, 2, 8, mode);
            && 0 <= there < 2 && 0 <= back < 8
            && (back == 2 - 2 || back == 2 + 2)
  {
    var v := Scaled(2, 8, 2);
    assert v == 0.5;
    var y := ResampledCoord(2, 8, 2, mode);
    assert y == 0 || y == 1;
    assert Scaled(y, 2, 8) == 4.0 * (y as real);
    RoundIsNearest(4.0 * (y as real), 4 * y, mode);
  }
}
