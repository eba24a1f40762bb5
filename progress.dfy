/** The progress mapper: `calculateMultiplier` turns the displacement along
    the driving axis into a delay-aware progress factor in [0, 1] for one
    property; `setStyling` interpolates each property with it and scales the
    transition duration of the remaining distance by it. */
module Progress {
  import opened Common
  import opened Geometry

  /** `Math.max(0, Math.min(1, x))`. */
  function Clamp(x: real): real
  {
    if x < 0.0 then 0.0 else if x > 1.0 then 1.0 else x
  }

  /** The displacement along the driving axis recorded by the last move. */
  function MovedAlongAxis(tv: TargetValues): nat
    requires tv.moved.Some?
  {
    if tv.axis == X then tv.moved.value.0 else tv.moved.value.1
  }

  /** The share of the target's travel the pointer has covered, as the source
      computes it (a percentage divided by 100). */
  function DriveFraction(tv: TargetValues): real
    requires tv.moved.Some? && tv.difference != 0
  {
    (MovedAlongAxis(tv) as real / (tv.difference as real / 100.0)) / 100.0
  }

  /** A property's delay and duration, falling back to the driving
      property's when its own is 0, truncated by `parseInt`. */
  function ResolvedDelay(c: Calc, tv: TargetValues): int
    requires c.Calc?
  {
    Trunc(if c.delay == 0.0 then tv.delay else c.delay)
  }

  function ResolvedDuration(c: Calc, tv: TargetValues): int
    requires c.Calc?
  {
    Trunc(if c.duration == 0.0 then tv.duration else c.duration)
  }

  /** The unclamped expression of `calculateMultiplier`. */
  function RawMultiplier(factor: real, delay: int, duration: int, total: real): real
    requires total != 0.0 && duration != 0
  {
    var delayFactor := delay as real / total;
    var durationFactor := duration as real / total;
    assert durationFactor != 0.0;
    assert duration as real * durationFactor != 0.0;
    (factor - delayFactor) * ((total / (duration as real * durationFactor)) * durationFactor)
  }

  /** `calculateMultiplier`. Where the source divides by zero (a target that
      does not move along its axis, a zero total or resolved duration),
      reads a displacement no move has recorded yet, or parses the
      `undefined` timing of an `Untimed` diff, JavaScript computes NaN or
      Infinity; the model gives `None` there. */
  function CalculateMultiplier(c: Calc, tv: TargetValues): (r: Option<real>)
    ensures r.Some? <==> && c.Calc? && tv.moved.Some? && tv.difference != 0 && tv.totalDuration != 0.0
                         && ResolvedDuration(c, tv) != 0
    ensures r.Some? ==> 0.0 <= r.value <= 1.0
  {
    if c.Untimed? || tv.moved.None? || tv.difference == 0 || tv.totalDuration == 0.0 || ResolvedDuration(c, tv) == 0 then None
    else Some(Clamp(RawMultiplier(DriveFraction(tv), ResolvedDelay(c, tv), ResolvedDuration(c, tv), tv.totalDuration)))
  }

  lemma DriveFractionIsRatio(tv: TargetValues)
    requires tv.moved.Some? && tv.difference != 0
    ensures DriveFraction(tv) == MovedAlongAxis(tv) as real / tv.difference as real
  {
    var m, d := MovedAlongAxis(tv) as real, tv.difference as real;
    calc {
      (m / (d / 100.0)) / 100.0;
      (m * 100.0 / d) / 100.0;
      m / d;
    }
  }

  /** The share of a window [delay, delay + duration] reached at the given
      fraction of the total duration. */
  function Share(fraction: real, delay: int, duration: int, total: real): real
    requires duration != 0
  {
    (fraction * total - delay as real) / duration as real
  }

  /** The expression simplifies to the share of the property's own window
      [delay, delay + duration] that the elapsed part of the total duration
      has covered. */
  lemma RawMultiplierIsWindowShare(factor: real, delay: int, duration: int, total: real)
    requires total != 0.0 && duration != 0
    ensures RawMultiplier(factor, delay, duration, total) == Share(factor, delay, duration, total)
  {
    var d, t := duration as real, total;
    var df := d / t;
    assert df * t == d;
    assert d * df * t == d * d;
    assert t / (d * df) == t * t / (d * d);
    assert (t / (d * df)) * df == t / d;
    assert (factor - delay as real / t) * t == factor * t - delay as real;
  }

  /** Stated on the inputs: the factor is the clamped share of the
      property's window that the covered part of the drive has reached. */
  lemma MultiplierIsWindowShare(c: Calc, tv: TargetValues)
    requires CalculateMultiplier(c, tv).Some?
    ensures CalculateMultiplier(c, tv).value ==
              Clamp(Share(MovedAlongAxis(tv) as real / tv.difference as real,
                          ResolvedDelay(c, tv), ResolvedDuration(c, tv), tv.totalDuration))
  {
    DriveFractionIsRatio(tv);
    RawMultiplierIsWindowShare(DriveFraction(tv), ResolvedDelay(c, tv), ResolvedDuration(c, tv), tv.totalDuration);
  }

  lemma ClampMonotone(x: real, y: real)
    requires x <= y
    ensures Clamp(x) <= Clamp(y)
  {
  }

  lemma DivideMonotone(x: real, y: real, d: real)
    requires x <= y && d > 0.0
    ensures x / d <= y / d
  {
    assert y / d - x / d == (y - x) / d;
  }

  /** A property that starts later lags: with the same duration, a larger
      delay never gives a larger factor. */
  lemma LaterDelayLags(a: Calc, b: Calc, tv: TargetValues)
    requires a.Calc? && b.Calc? && tv.moved.Some? && tv.difference != 0 && tv.totalDuration != 0.0
    requires ResolvedDuration(a, tv) == ResolvedDuration(b, tv) > 0
    requires ResolvedDelay(a, tv) <= ResolvedDelay(b, tv)
    ensures CalculateMultiplier(a, tv).Some? && CalculateMultiplier(b, tv).Some?
    ensures CalculateMultiplier(a, tv).value >= CalculateMultiplier(b, tv).value
  {
    MultiplierIsWindowShare(a, tv);
    MultiplierIsWindowShare(b, tv);
    var f := MovedAlongAxis(tv) as real / tv.difference as real;
    var duration := ResolvedDuration(a, tv);
    ShareShrinksWithDelay(f, ResolvedDelay(a, tv), ResolvedDelay(b, tv), duration, tv.totalDuration);
    ClampMonotone(Share(f, ResolvedDelay(b, tv), duration, tv.totalDuration),
                  Share(f, ResolvedDelay(a, tv), duration, tv.totalDuration));
  }

  lemma ShareShrinksWithDelay(f: real, d1: int, d2: int, duration: int, total: real)
    requires d1 <= d2 && duration > 0
    ensures Share(f, d2, duration, total) <= Share(f, d1, duration, total)
  {
    DivideMonotone(f * total - d2 as real, f * total - d1 as real, duration as real);
  }

  /** The target values of a later move of the same gesture. */
  function WithMoved(tv: TargetValues, movedX: nat, movedY: nat): TargetValues
  {
    tv.(moved := Some((movedX, movedY)))
  }

  lemma MultiplyMonotone(x: real, y: real, k: real)
    requires x <= y && k > 0.0
    ensures x * k <= y * k
  {
  }

  lemma ShareGrowsWithFraction(f1: real, f2: real, delay: int, duration: int, total: real)
    requires f1 <= f2 && duration > 0 && total > 0.0
    ensures Share(f1, delay, duration, total) <= Share(f2, delay, duration, total)
  {
    MultiplyMonotone(f1, f2, total);
    DivideMonotone(f1 * total - delay as real, f2 * total - delay as real, duration as real);
  }

  /** Dragging further never lowers a property's factor. */
  lemma FurtherDragNeverLowers(c: Calc, tv: TargetValues, x1: nat, y1: nat, x2: nat, y2: nat)
    requires c.Calc? && tv.difference != 0 && tv.totalDuration > 0.0 && ResolvedDuration(c, tv) > 0
    requires if tv.axis == X then x1 <= x2 else y1 <= y2
    ensures CalculateMultiplier(c, WithMoved(tv, x1, y1)).value <= CalculateMultiplier(c, WithMoved(tv, x2, y2)).value
  {
    var t1, t2 := WithMoved(tv, x1, y1), WithMoved(tv, x2, y2);
    assert ResolvedDelay(c, t1) == ResolvedDelay(c, t2) == ResolvedDelay(c, tv);
    assert ResolvedDuration(c, t1) == ResolvedDuration(c, t2) == ResolvedDuration(c, tv);
    MultiplierIsWindowShare(c, t1);
    MultiplierIsWindowShare(c, t2);
    var diff := tv.difference as real;
    var f1, f2 := MovedAlongAxis(t1) as real / diff, MovedAlongAxis(t2) as real / diff;
    DivideMonotone(MovedAlongAxis(t1) as real, MovedAlongAxis(t2) as real, diff);
    ShareGrowsWithFraction(f1, f2, ResolvedDelay(c, tv), ResolvedDuration(c, tv), tv.totalDuration);
    ClampMonotone(Share(f1, ResolvedDelay(c, tv), ResolvedDuration(c, tv), tv.totalDuration),
                  Share(f2, ResolvedDelay(c, tv), ResolvedDuration(c, tv), tv.totalDuration));
  }

  /** Before the pointer moves, a property that does not start early has
      made no progress; once it has covered the whole travel, a property
      whose window ends with the total duration is complete. */
  lemma RestAndFullDrag(c: Calc, tv: TargetValues)
    requires c.Calc? && tv.moved.Some? && tv.difference != 0 && tv.totalDuration > 0.0 && ResolvedDuration(c, tv) > 0
    ensures MovedAlongAxis(tv) == 0 && ResolvedDelay(c, tv) >= 0 ==> CalculateMultiplier(c, tv) == Some(0.0)
    ensures MovedAlongAxis(tv) == tv.difference &&
            (ResolvedDelay(c, tv) + ResolvedDuration(c, tv)) as real == tv.totalDuration ==>
              CalculateMultiplier(c, tv) == Some(1.0)
  {
    MultiplierIsWindowShare(c, tv);
    var delay, d := ResolvedDelay(c, tv), ResolvedDuration(c, tv);
    var f := MovedAlongAxis(tv) as real / tv.difference as real;
    if MovedAlongAxis(tv) == 0 && delay >= 0 {
      assert f == 0.0;
      RestWindowShare(delay, d, tv.totalDuration);
    }
    if MovedAlongAxis(tv) == tv.difference && (delay + d) as real == tv.totalDuration {
      assert f == 1.0;
      FullWindowShare(delay, d, tv.totalDuration);
    }
  }

  lemma RestWindowShare(delay: int, duration: int, total: real)
    requires duration > 0 && delay >= 0
    ensures Share(0.0, delay, duration, total) <= 0.0
  {
    DivideMonotone(0.0 * total - delay as real, 0.0, duration as real);
  }

  lemma FullWindowShare(delay: int, duration: int, total: real)
    requires duration > 0 && (delay + duration) as real == total
    ensures Share(1.0, delay, duration, total) == 1.0
  {
    assert 1.0 * total - delay as real == duration as real;
  }

  /** Staggered properties: a target whose translate runs from 0 ms for
      400 ms (so a total of 400 ms), with an opacity delayed to 200 ms for
      400 ms. Three quarters through the drag the transform is at 0.75 and
      the opacity only at 0.25. */
  lemma StaggeredOpacityLags(transform: Calc, opacity: Calc)
    requires transform.Calc? && transform.delay == 0.0 && transform.duration == 400.0
    requires opacity.Calc? && opacity.delay == 200.0 && opacity.duration == 400.0
    ensures var tv := TargetValues(X, 0, 300, 300, 0.0, 400.0, 400.0, Some((225, 0)));
            CalculateMultiplier(transform, tv) == Some(0.75) && CalculateMultiplier(opacity, tv) == Some(0.25)
  {
    var tv := TargetValues(X, 0, 300, 300, 0.0, 400.0, 400.0, Some((225, 0)));
    MultiplierIsWindowShare(transform, tv);
    MultiplierIsWindowShare(opacity, tv);
    assert 225.0 / 300.0 == 0.75;
    assert ResolvedDelay(opacity, tv) == 200 && ResolvedDuration(opacity, tv) == 400;
    assert ResolvedDelay(transform, tv) == 0 && ResolvedDuration(transform, tv) == 400;
  }

  /** The interpolation of `setStyling`: moving away from `from` by
      `difference * m`, upward when `from < to`. With the diff's own
      difference it is the straight line from `from` to `to`. */
  function Interpolate(from: real, to: real, difference: real, m: real): (r: real)
    ensures difference == CalculateDifference(from, to) ==> r == from + (to - from) * m
  {
    if from < to then from + difference * m
    else
      assert -((from - to) * m) == (to - from) * m;
      from - difference * m
  }

  /** It starts at `from`, ends at `to`, and stays between them for factors
      in [0, 1]. */
  lemma InterpolateEndpoints(from: real, to: real, m: real)
    ensures Interpolate(from, to, CalculateDifference(from, to), 0.0) == from
    ensures Interpolate(from, to, CalculateDifference(from, to), 1.0) == to
    ensures 0.0 <= m <= 1.0 ==>
              var v := Interpolate(from, to, CalculateDifference(from, to), m);
              (from <= v <= to) || (to <= v <= from)
  {
    InterpolateReachesEnds(from, to);
    if 0.0 <= m <= 1.0 {
      StepStaysBetween(from, to, CalculateDifference(from, to), m);
    }
  }

  lemma InterpolateReachesEnds(from: real, to: real)
    ensures Interpolate(from, to, CalculateDifference(from, to), 0.0) == from
    ensures Interpolate(from, to, CalculateDifference(from, to), 1.0) == to
  {
    var d := CalculateDifference(from, to);
    assert d * 0.0 == 0.0 && d * 1.0 == d;
  }

  /** Interpolating by a factor in [0, 1] over the full distance stays
      between the two ends. */
  lemma StepStaysBetween(from: real, to: real, d: real, m: real)
    requires d >= 0.0 && 0.0 <= m <= 1.0
    requires from < to ==> from + d == to
    requires to <= from ==> from - d == to
    ensures var v := Interpolate(from, to, d, m);
            (from <= v <= to) || (to <= v <= from)
  {
    ScaleBetween(d, m);
    LinearStep(from, to, d, d * m);
  }

  lemma LinearStep(from: real, to: real, d: real, step: real)
    requires 0.0 <= step <= d
    requires from < to ==> from + d == to
    requires to <= from ==> from - d == to
    ensures from < to ==> from <= from + step <= to
    ensures to <= from ==> to <= from - step <= from
  {
  }

  lemma ScaleBetween(k: real, m: real)
    requires k >= 0.0 && 0.0 <= m <= 1.0
    ensures 0.0 <= k * m <= k
  {
    if k > 0.0 {
      MultiplyMonotone(0.0, m, k);
      MultiplyMonotone(m, 1.0, k);
    }
  }

  /** The duration `setStyling` gives a property on release: the part of the
      total still to go when completing the toggle, the part already covered
      when reverting. For a factor in [0, 1] it lies within the total, and
      a property that has not started takes the whole total to complete and
      none to revert. */
  function RemainingDuration(total: real, m: real, completing: bool): (r: real)
    ensures 0.0 <= m <= 1.0 && total >= 0.0 ==> 0.0 <= r <= total
    ensures m == 0.0 ==> r == if completing then total else 0.0
  {
    var share := if completing then 1.0 - m else m;
    if 0.0 <= m <= 1.0 && total >= 0.0 then ScaleBetween(total, share); total * share
    else total * share
  }

  /** The durations match the distances: the time to complete is the total
      scaled by the distance left to `to`, the time to revert the total
      scaled by the distance back to `from`; together they make the total. */
  lemma RemainingDurationMatchesDistance(from: real, to: real, m: real, total: real)
    requires from != to && 0.0 <= m <= 1.0
    ensures var d := CalculateDifference(from, to);
            var v := Interpolate(from, to, d, m);
            && RemainingDuration(total, m, true) == total * CalculateDifference(v, to) / d
            && RemainingDuration(total, m, false) == total * CalculateDifference(from, v) / d
            && RemainingDuration(total, m, true) + RemainingDuration(total, m, false) == total
  {
    var d := CalculateDifference(from, to);
    InterpolateEndpoints(from, to, m);
    var v := Interpolate(from, to, d, m);
    if from < to {
      assert CalculateDifference(v, to) == d * (1.0 - m);
      assert CalculateDifference(from, v) == d * m;
    } else {
      assert CalculateDifference(v, to) == d * (1.0 - m);
      assert CalculateDifference(from, v) == d * m;
    }
    MulDivCancel(total, 1.0 - m, d);
    MulDivCancel(total, m, d);
  }

  /** Scaling by a share of a distance and dividing by that distance
      leaves the total scaled by the share. */
  lemma MulDivCancel(t: real, x: real, d: real)
    requires d != 0.0
    ensures t * (d * x) / d == t * x
  {
    assert t * (d * x) == (t * x) * d;
  }
}
