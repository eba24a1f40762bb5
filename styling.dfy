/** What `setStyling` writes on an element. During a drag (`'all'`) it is the
    list of interpolated transform functions and the interpolated CSS
    values; on release (`'toggle'`, `'reset'`) it is the list of transition
    durations for what is left to animate. The CSS text itself is not
    modelled: a transform is a (property, x, y) entry. */
module Styling {
  import opened Common
  import opened Geometry
  import opened Progress

  /** The `properties` argument: `'all'`, `'toggle'` or `'reset'`. */
  datatype Mode = Live | Completing | Reverting

  /** One transform function `prop(x unit[, y unit])`. */
  datatype Transform = Transform(prop: string, x: real, y: Option<real>, unit: string)

  /** One CSS value written during a drag; `None` where the source writes NaN. */
  datatype CssWrite = CssWrite(prop: string, value: Option<real>, unit: string)

  /** One entry of the transition-property / transition-duration lists, in
      ms; `None` where the source computes NaN. */
  datatype Duration = Duration(prop: string, ms: Option<real>)

  datatype Style = Follow(transforms: seq<Transform>, css: seq<CssWrite>) | Timed(durations: seq<Duration>)

  /** `calculateMultiplier` against the session's target values, which are
      empty (`[]`) outside a gesture. */
  function Multiplier(c: Calc, tv: Option<TargetValues>): Option<real>
  {
    if tv.None? then None else CalculateMultiplier(c, tv.value)
  }

  /** The y of a transform entry: it is left out when it interpolates to 0
      or the reading has no y. */
  function YOut(c: Calc, m: real): Option<real>
    requires c.Calc?
  {
    match (c.from, c.to)
    case (XY(_, fy), XY(_, ty)) =>
      var v := Interpolate(fy, ty, if c.ydifference.Some? then c.ydifference.value else 0.0, m);
      if v == 0.0 then None else Some(v)
    case _ => None
  }

  function TransformFor(p: string, c: Calc, m: real): Transform
    requires c.Calc?
  {
    Transform(p, Interpolate(c.from.x, c.to.x, c.difference, m), YOut(c, m), c.unit)
  }

  /** The transform entries of a drag step: one per listed transform
      function with a diff whose factor is a number other than 0. */
  function Transforms(props: seq<string>, vals: map<string, Calc>, tv: Option<TargetValues>): seq<Transform>
  {
    if |props| == 0 then []
    else
      var p := props[|props| - 1];
      Transforms(props[..|props| - 1], vals, tv) +
        (if p in vals && Multiplier(vals[p], tv).Some? && Multiplier(vals[p], tv).value != 0.0
         then [TransformFor(p, vals[p], Multiplier(vals[p], tv).value)] else [])
  }

  /** The factor of the last listed transform function with a diff, 1 when
      there is none: the one the `transform` duration is scaled by. */
  function LastMultiplier(props: seq<string>, vals: map<string, Calc>, tv: Option<TargetValues>): Option<real>
  {
    if |props| == 0 then Some(1.0)
    else if props[|props| - 1] in vals then Multiplier(vals[props[|props| - 1]], tv)
    else LastMultiplier(props[..|props| - 1], vals, tv)
  }

  function CssValue(c: Calc, m: Option<real>): Option<real>
  {
    if m.None? || c.Untimed? then None else Some(Interpolate(c.from.x, c.to.x, c.difference, m.value))
  }

  /** The unit of a diff; `to.unit || ''` gives `''` for an `Untimed` one. */
  function UnitOf(c: Calc): string
  {
    if c.Calc? then c.unit else ""
  }

  function CssWrites(props: seq<string>, vals: map<string, Calc>, tv: Option<TargetValues>): seq<CssWrite>
  {
    if |props| == 0 then []
    else
      var p := props[|props| - 1];
      CssWrites(props[..|props| - 1], vals, tv) +
        (if p in vals then [CssWrite(p, CssValue(vals[p], Multiplier(vals[p], tv)), UnitOf(vals[p]))] else [])
  }

  function Remaining(tv: Option<TargetValues>, m: Option<real>, completing: bool): Option<real>
  {
    if tv.None? || m.None? then None else Some(RemainingDuration(tv.value.totalDuration, m.value, completing))
  }

  function CssDurations(props: seq<string>, vals: map<string, Calc>, tv: Option<TargetValues>, completing: bool): seq<Duration>
  {
    if |props| == 0 then []
    else
      var p := props[|props| - 1];
      CssDurations(props[..|props| - 1], vals, tv, completing) +
        (if p in vals then [Duration(p, Remaining(tv, Multiplier(vals[p], tv), completing))] else [])
  }

  /** Everything `setStyling` writes, given the element's diffs. */
  function StyleOf(matrixProps: seq<string>, cssProps: seq<string>, vals: map<string, Calc>,
                   tv: Option<TargetValues>, mode: Mode): Style
  {
    if mode == Live then Follow(Transforms(matrixProps, vals, tv), CssWrites(cssProps, vals, tv))
    else Timed([Duration("transform", Remaining(tv, LastMultiplier(matrixProps, vals, tv), mode == Completing))] +
               CssDurations(cssProps, vals, tv, mode == Completing))
  }

  /** `setStyling`. Called without diffs (`buddiesValues[i]` past the end)
      it throws a TypeError at the first property it looks up, given as
      `None`; with no property listed there is nothing to look up. */
  method SetStyling(matrixProps: seq<string>, cssProps: seq<string>, vals: Option<map<string, Calc>>,
                    tv: Option<TargetValues>, mode: Mode) returns (s: Option<Style>)
    ensures s.None? <==> vals.None? && (|matrixProps| > 0 || |cssProps| > 0)
    ensures s.Some? ==> s.value == StyleOf(matrixProps, cssProps, if vals.Some? then vals.value else map[], tv, mode)
  {
    if vals.None? && (|matrixProps| > 0 || |cssProps| > 0) {
      return None;
    }
    var vs := if vals.Some? then vals.value else map[];
    var transforms: seq<Transform> := [];
    var multiplier: Option<real> := Some(1.0);
    var i := 0;
    while i < |matrixProps|
      invariant 0 <= i <= |matrixProps|
      invariant transforms == Transforms(matrixProps[..i], vs, tv)
      invariant multiplier == LastMultiplier(matrixProps[..i], vs, tv)
    {
      var p := matrixProps[i];
      if p in vs {
        multiplier := Multiplier(vs[p], tv);
        if multiplier.Some? && multiplier.value != 0.0 {
          transforms := transforms + [TransformFor(p, vs[p], multiplier.value)];
        }
      }
      assert matrixProps[..i + 1][..i] == matrixProps[..i];
      i := i + 1;
    }
    assert matrixProps[..i] == matrixProps;
    var css: seq<CssWrite> := [];
    var durations: seq<Duration> := [];
    if mode != Live {
      durations := [Duration("transform", Remaining(tv, multiplier, mode == Completing))];
    }
    var j := 0;
    while j < |cssProps|
      invariant 0 <= j <= |cssProps|
      invariant mode == Live ==> css == CssWrites(cssProps[..j], vs, tv)
      invariant mode != Live ==>
                  durations == [Duration("transform", Remaining(tv, multiplier, mode == Completing))] +
                               CssDurations(cssProps[..j], vs, tv, mode == Completing)
    {
      var p := cssProps[j];
      if p in vs {
        var m := Multiplier(vs[p], tv);
        if mode == Live {
          css := css + [CssWrite(p, CssValue(vs[p], m), UnitOf(vs[p]))];
        } else {
          durations := durations + [Duration(p, Remaining(tv, m, mode == Completing))];
        }
      }
      assert cssProps[..j + 1][..j] == cssProps[..j];
      j := j + 1;
    }
    assert cssProps[..j] == cssProps;
    s := if mode == Live then Some(Follow(transforms, css)) else Some(Timed(durations));
  }

  /** Every transform entry is the interpolation of a listed property's diff
      at its factor, and that factor is in (0, 1]: a property whose factor
      is 0 (or NaN) emits no entry. */
  lemma {:induction false} TransformsAreInterpolations(props: seq<string>, vals: map<string, Calc>, tv: Option<TargetValues>)
    ensures forall e :: e in Transforms(props, vals, tv) ==>
              && e.prop in props && e.prop in vals
              && Multiplier(vals[e.prop], tv).Some?
              && 0.0 < Multiplier(vals[e.prop], tv).value <= 1.0
              && e == TransformFor(e.prop, vals[e.prop], Multiplier(vals[e.prop], tv).value)
  {
    if |props| > 0 {
      TransformsAreInterpolations(props[..|props| - 1], vals, tv);
      forall e | e in Transforms(props, vals, tv)
        ensures e.prop in props
      {
        if e in Transforms(props[..|props| - 1], vals, tv) {
          assert e.prop in props[..|props| - 1];
        }
      }
    }
  }

  /** Before the pointer has moved, a drag step writes no transform at all
      when no property starts before the gesture does. */
  lemma {:induction false} NoTransformsAtRest(props: seq<string>, vals: map<string, Calc>, tv: TargetValues)
    requires tv.moved == Some((0, 0)) && tv.difference != 0 && tv.totalDuration > 0.0
    requires forall p :: p in vals && vals[p].Calc? ==> ResolvedDuration(vals[p], tv) > 0 && ResolvedDelay(vals[p], tv) >= 0
    ensures Transforms(props, vals, Some(tv)) == []
  {
    if |props| > 0 {
      NoTransformsAtRest(props[..|props| - 1], vals, tv);
      var p := props[|props| - 1];
      if p in vals && vals[p].Calc? {
        RestAndFullDrag(vals[p], tv);
      }
    }
  }

  /** Entry `e` sits on the straight line between the readings `a` and
      `b` of its property, at factor `m`: its y is left out exactly when a
      reading has no y or the line's y is 0 there. */
  predicate OnLine(e: Transform, a: Coord, b: Coord, m: real)
  {
    && e.x == a.x + (b.x - a.x) * m
    && if a.XY? && b.XY? then
         var y := a.y + (b.y - a.y) * m;
         e.y == if y == 0.0 then None else Some(y)
       else e.y.None?
  }

  /** On the diffs `getTransitionValues` measured for an element, every
      transform entry of a drag step lies on the straight line from the
      element's reading in its current state to its reading in the toggled
      state, at the entry's factor in (0, 1]; so at factor 1 it is the
      toggled reading. A name whose CSS diff was kept instead is not a
      transform diff and is excluded. */
  lemma TransformsFollowReadings(matrixProps: seq<string>, cssProps: seq<string>, vals: map<string, Calc>,
                                 from: Snapshot, to: Snapshot, tv: Option<TargetValues>)
    requires DiffsOf(vals, matrixProps, cssProps, from, to)
    ensures forall e :: e in Transforms(matrixProps, vals, tv) && !KeptCss(e.prop, cssProps, from, to) ==>
              && HasReading(from, e.prop) && HasReading(to, e.prop)
              && e.prop in vals && Multiplier(vals[e.prop], tv).Some?
              && 0.0 < Multiplier(vals[e.prop], tv).value <= 1.0
              && OnLine(e, ReadingOf(from, e.prop).value, ReadingOf(to, e.prop).value, Multiplier(vals[e.prop], tv).value)
  {
    TransformsAreInterpolations(matrixProps, vals, tv);
    forall e | e in Transforms(matrixProps, vals, tv) && !KeptCss(e.prop, cssProps, from, to)
      ensures && HasReading(from, e.prop) && HasReading(to, e.prop)
              && OnLine(e, ReadingOf(from, e.prop).value, ReadingOf(to, e.prop).value, Multiplier(vals[e.prop], tv).value)
    {
      var p := e.prop;
      assert p in matrixProps;
      DiffEntryOnLine(p, vals[p], from, to, Multiplier(vals[p], tv).value);
    }
  }

  /** One transform diff measured between two snapshots, drawn at factor
      `m`, lies on the line between the two readings. */
  lemma DiffEntryOnLine(p: string, c: Calc, from: Snapshot, to: Snapshot, m: real)
    requires Some(c) == MatrixDiff(p, from, to) && c.Calc?
    ensures HasReading(from, p) && HasReading(to, p)
    ensures OnLine(TransformFor(p, c, m), ReadingOf(from, p).value, ReadingOf(to, p).value, m)
  {
    var a, b := ReadingOf(from, p).value, ReadingOf(to, p).value;
    assert c.from == a && c.to == b && c.difference == CalculateDifference(a.x, b.x);
    if a.XY? && b.XY? {
      assert c.ydifference == Some(CalculateDifference(a.y, b.y));
    }
  }
}
