/**
  `SpecSize` (specsize.js): the bounds of a spectrogram in time, frequency
  and amplitude, and the width, center and scale maps of each axis. The
  bounds are not required to be ordered: a reversed axis has a negative
  width.
 */
module SpecSize {

  /** The three axes of a spectrogram. */
  datatype Axis = Time | Frequency | Amplitude

  datatype SpecSize = SpecSize(minT: real, maxT: real, minF: real, maxF: real, minA: real, maxA: real) {

    /** The lower bound of an axis. */
    function Min(axis: Axis): real {
      match axis
      case Time => minT
      case Frequency => minF
      case Amplitude => minA
    }

    /** The upper bound of an axis. */
    function Max(axis: Axis): real {
      match axis
      case Time => maxT
      case Frequency => maxF
      case Amplitude => maxA
    }

    /** `widthT`, `widthF`, `widthA`: how far the upper bound lies above the
        lower one, negative when the axis is reversed. */
    function Width(axis: Axis): (w: real)
      ensures Min(axis) + w == Max(axis)
      ensures w >= 0.0 <==> Min(axis) <= Max(axis)
    {
      Max(axis) - Min(axis)
    }

    /** `centerT`, `centerF`, `centerA`: the point equidistant from both bounds. */
    function Center(axis: Axis): (c: real)
      ensures c - Min(axis) == Max(axis) - c
      ensures Min(axis) <= Max(axis) ==> Min(axis) <= c <= Max(axis)
    {
      (Min(axis) + Max(axis)) / 2.0
    }

    /** `scaleT`, `scaleF`, `scaleA`: the absolute coordinate at relative
        position x of an axis; 0 is the lower bound, 1 the upper bound and
        one half the center. */
    function Scale(axis: Axis, x: real): (v: real)
      ensures x == 0.0 ==> v == Min(axis)
      ensures x == 1.0 ==> v == Max(axis)
      ensures x == 0.5 ==> v == Center(axis)
    {
      x * Width(axis) + Min(axis)
    }
  }

  /** Linear interpolation between two bounds, the reference the scale map
      is compared with. */
  function Lerp(lo: real, hi: real, x: real): real {
    (1.0 - x) * lo + x * hi
  }

  /** The scale map is interpolation between the bounds of its axis. */
  lemma ScaleIsLerp(s: SpecSize, axis: Axis, x: real)
    ensures s.Scale(axis, x) == Lerp(s.Min(axis), s.Max(axis), x)
  {
  }

  /** The scale map is affine: differences of positions scale by the width. */
  lemma ScaleAffine(s: SpecSize, axis: Axis, a: real, b: real)
    ensures s.Scale(axis, a) - s.Scale(axis, b) == (a - b) * s.Width(axis)
  {
  }

  /** On an ordered axis the scale map never decreases. */
  lemma ScaleMonotone(s: SpecSize, axis: Axis, a: real, b: real)
    requires s.Min(axis) <= s.Max(axis)
    requires a <= b
    ensures s.Scale(axis, a) <= s.Scale(axis, b)
  {
    ScaleAffine(s, axis, b, a);
    assert (b - a) * s.Width(axis) >= 0.0;
  }

  /** Relative positions in [0, 1] land between the bounds of an ordered axis. */
  lemma ScaleWithinBounds(s: SpecSize, axis: Axis, x: real)
    requires s.Min(axis) <= s.Max(axis)
    requires 0.0 <= x <= 1.0
    ensures s.Min(axis) <= s.Scale(axis, x) <= s.Max(axis)
  {
    ScaleMonotone(s, axis, 0.0, x);
    ScaleMonotone(s, axis, x, 1.0);
  }

  /** Each axis's width, center and scale depend on its own two bounds only. */
  lemma AxesIndependent(s: SpecSize, t: SpecSize, axis: Axis, x: real)
    requires s.Min(axis) == t.Min(axis) && s.Max(axis) == t.Max(axis)
    ensures s.Width(axis) == t.Width(axis)
    ensures s.Center(axis) == t.Center(axis)
    ensures s.Scale(axis, x) == t.Scale(axis, x)
  {
  }
}
