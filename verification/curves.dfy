/** wrlib/effects.c: the progress curves of window animations, over idealised
    real arithmetic. */
module Curves {
  /** `REffectCurve`; `Other` is any value the switch has no case for. */
  datatype Curve = Classic | Smooth | Gentle | Other(code: int)

  /** `clamp_progress`. */
  function ClampProgress(progress: real): (r: real)
    ensures 0.0 <= r <= 1.0
    ensures progress <= 0.0 ==> r == 0.0
    ensures progress >= 1.0 ==> r == 1.0
    ensures 0.0 < progress < 1.0 ==> r == progress
  {
    if progress <= 0.0 then 0.0
    else if progress >= 1.0 then 1.0
    else progress
  }

  /** Clamping never reverses the order of two progress values. */
  lemma ClampMonotone(a: real, b: real)
    requires a <= b
    ensures ClampProgress(a) <= ClampProgress(b)
  {
  }

  /** The cubic smoothstep. */
  function Smoothstep(t: real): real {
    t * t * (3.0 - 2.0 * t)
  }

  /** `REffectProgressForCurve`. `cosPi(t)` stands for `cos(t * M_PI)`, which
      only the Smooth curve reads. */
  function ProgressForCurve(curve: Curve, progress: real, cosPi: real -> real): (r: real)
    ensures curve.Classic? || curve.Other? ==> r == ClampProgress(progress)
    ensures curve.Gentle? ==> r == Smoothstep(ClampProgress(progress))
  {
    var t := ClampProgress(progress);
    match curve
    case Smooth => 0.5 - cosPi(t) * 0.5
    case Gentle => Smoothstep(t)
    case _ => t
  }

  /** The smoothstep stays inside [0, 1] on [0, 1]: it is t²(3 − 2t) below and
      1 − (1 − t)²(1 + 2t) above. */
  lemma SmoothstepRange(t: real)
    requires 0.0 <= t <= 1.0
    ensures 0.0 <= Smoothstep(t) <= 1.0
  {
    var u := 1.0 - t;
    MulNonnegative(t * t, 3.0 - 2.0 * t);
    assert 1.0 - Smoothstep(t) == u * u * (1.0 + 2.0 * t);
    MulNonnegative(u * u, 1.0 + 2.0 * t);
  }

  lemma MulNonnegative(x: real, y: real)
    requires x >= 0.0 && y >= 0.0
    ensures x * y >= 0.0
  {
  }

  /** The smoothstep is point-symmetric about (½, ½). */
  lemma SmoothstepSymmetric(t: real)
    ensures Smoothstep(1.0 - t) == 1.0 - Smoothstep(t)
  {
  }

  /** The factor the difference of two smoothstep values has besides the
      difference of their arguments. */
  function Slope(a: real, b: real): real {
    3.0 * (a + b) - 2.0 * (a * a + a * b + b * b)
  }

  lemma SmoothstepDifference(a: real, b: real)
    ensures Smoothstep(b) - Smoothstep(a) == (b - a) * Slope(a, b)
  {
  }

  /** On [0, 1] each square or product is at most either factor, so the slope
      is non-negative. */
  lemma SlopeNonnegative(a: real, b: real)
    requires 0.0 <= a <= 1.0 && 0.0 <= b <= 1.0
    ensures Slope(a, b) >= 0.0
  {
    MulNonnegative(a, 1.0 - a);
    MulNonnegative(b, 1.0 - b);
    MulNonnegative(b, 1.0 - a);
    MulNonnegative(a, 1.0 - b);
  }

  /** On [0, 1] the smoothstep never decreases. */
  lemma SmoothstepMonotone(a: real, b: real)
    requires 0.0 <= a <= b <= 1.0
    ensures Smoothstep(a) <= Smoothstep(b)
  {
    SmoothstepDifference(a, b);
    SlopeNonnegative(a, b);
    MulNonnegative(b - a, Slope(a, b));
  }

  /** Every curve but Smooth yields a value in [0, 1], whatever the progress. */
  lemma ProgressInRange(curve: Curve, progress: real, cosPi: real -> real)
    requires !curve.Smooth?
    ensures 0.0 <= ProgressForCurve(curve, progress, cosPi) <= 1.0
  {
    if curve.Gentle? {
      SmoothstepRange(ClampProgress(progress));
    }
  }

  /** Every curve but Smooth is monotone in the progress. */
  lemma ProgressMonotone(curve: Curve, a: real, b: real, cosPi: real -> real)
    requires !curve.Smooth? && a <= b
    ensures ProgressForCurve(curve, a, cosPi) <= ProgressForCurve(curve, b, cosPi)
  {
    ClampMonotone(a, b);
    if curve.Gentle? {
      SmoothstepMonotone(ClampProgress(a), ClampProgress(b));
    }
  }

  /** Classic and Gentle are symmetric: progress 1 − p gives 1 minus what p
      gives. */
  lemma ProgressSymmetric(curve: Curve, p: real, cosPi: real -> real)
    requires !curve.Smooth?
    ensures ProgressForCurve(curve, 1.0 - p, cosPi) == 1.0 - ProgressForCurve(curve, p, cosPi)
  {
    assert ClampProgress(1.0 - p) == 1.0 - ClampProgress(p);
    if curve.Gentle? {
      SmoothstepSymmetric(ClampProgress(p));
    }
  }

  /** Gentle starts at 0, passes ½ halfway and ends at 1; a quarter of the way
      it has covered 5/32. */
  lemma GentleValues(cosPi: real -> real)
    ensures ProgressForCurve(Gentle, 0.0, cosPi) == 0.0
    ensures ProgressForCurve(Gentle, 0.5, cosPi) == 0.5
    ensures ProgressForCurve(Gentle, 1.0, cosPi) == 1.0
    ensures ProgressForCurve(Gentle, 0.25, cosPi) == 0.15625
  {
  }

  /** The curve for any unlisted value is the identity on [0, 1], like Classic. */
  lemma DefaultIsClassic(code: int, progress: real, cosPi: real -> real)
    ensures ProgressForCurve(Other(code), progress, cosPi) == ProgressForCurve(Classic, progress, cosPi)
    ensures 0.0 <= progress <= 1.0 ==> ProgressForCurve(Other(code), progress, cosPi) == progress
  {
  }
}
