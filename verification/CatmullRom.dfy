/** The cubic of the low-quality resampler (`resample.rs`), over exact numbers. */
module CatmullRom {
  datatype Weights = Weights(w0: real, w1: real, w2: real, w3: real)

  function WeightsAt(t: real): Weights {
    var t2 := t * t;
    var t3 := t2 * t;
    Weights(
      0.5 * (-t + 2.0 * t2 - t3),
      0.5 * (2.0 - 5.0 * t2 + 3.0 * t3),
      0.5 * (t + 4.0 * t2 - 3.0 * t3),
      0.5 * (-t2 + t3))
  }

  function Blend(p0: real, p1: real, p2: real, p3: real, w: Weights): real {
    p0 * w.w0 + p1 * w.w1 + p2 * w.w2 + p3 * w.w3
  }

  function Curve(p0: real, p1: real, p2: real, p3: real, t: real): real {
    Blend(p0, p1, p2, p3, WeightsAt(t))
  }

  /** The curve as a polynomial in `t`: it leaves `p1` with the slope of the chord around it. */
  lemma CurveLeaves(p0: real, p1: real, p2: real, p3: real, t: real)
    ensures Curve(p0, p1, p2, p3, t)
         == p1 + t * ((p2 - p0) / 2.0)
               + t * t * ((2.0 * p0 - 5.0 * p1 + 4.0 * p2 - p3) / 2.0)
               + t * t * t * ((3.0 * p1 - p0 - 3.0 * p2 + p3) / 2.0)
  {
  }

  /** Running a segment backwards is the curve of the reversed points. */
  lemma CurveReverses(p0: real, p1: real, p2: real, p3: real, t: real)
    ensures Curve(p0, p1, p2, p3, 1.0 - t) == Curve(p3, p2, p1, p0, t)
  {
    var u := 1.0 - t;
    assert u * u == 1.0 - 2.0 * t + t * t;
    assert u * u * u == 1.0 - 3.0 * t + 3.0 * (t * t) - t * t * t by {
      assert u * u * u == (1.0 - 2.0 * t + t * t) * u;
    }
  }

  /** Segments meet at the control points, and a straight line stays straight. */
  lemma CurveInterpolates(p0: real, p1: real, p2: real, p3: real, start: real, slope: real, t: real)
    ensures Curve(p0, p1, p2, p3, 0.0) == p1 && Curve(p0, p1, p2, p3, 1.0) == p2
    ensures Curve(start, start + slope, start + 2.0 * slope, start + 3.0 * slope, t) == start + slope * (1.0 + t)
  {
    CurveLeaves(start, start + slope, start + 2.0 * slope, start + 3.0 * slope, t);
  }

  /**
    First-derivative continuity: just before and just after a control point the curve departs
    from it by the same slope, up to terms of second order.
   */
  lemma SegmentsMeetSmoothly(p0: real, p1: real, p2: real, p3: real, p4: real, h: real)
    ensures
      var slope := (p3 - p1) / 2.0;
      var before := (2.0 * p3 - 5.0 * p2 + 4.0 * p1 - p0) / 2.0 + h * ((3.0 * p2 - p3 - 3.0 * p1 + p0) / 2.0);
      var after := (2.0 * p1 - 5.0 * p2 + 4.0 * p3 - p4) / 2.0 + h * ((3.0 * p2 - p1 - 3.0 * p3 + p4) / 2.0);
      && Curve(p0, p1, p2, p3, 1.0 - h) == p2 - h * slope + h * h * before
      && Curve(p1, p2, p3, p4, h) == p2 + h * slope + h * h * after
  {
    CurveReverses(p0, p1, p2, p3, h);
    CurveLeaves(p3, p2, p1, p0, h);
    CurveLeaves(p1, p2, p3, p4, h);
  }
}
