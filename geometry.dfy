/** The state diff calculator: readings of an element in its current and its
    toggled class state (what `getMatrixValues` and `getCSSValue` return),
    the per-property diff `getCalculations` builds from two readings, the
    driving axis and target values of `getValues`, and the per-element value
    set of `getTransitionValues`. */
module Geometry {
  import opened Common
  import opened Equivalence

  datatype Dir = Up | Down
  datatype Axis = X | Y

  /** The coordinates of one reading: x and y (translate, scale, skew), or x
      alone (rotate, and every CSS value). */
  datatype Coord = XY(x: real, y: real) | XOnly(x: real)

  /** One transform function of an element in one class state, with the
      element's transform transition timing in ms. */
  datatype MatrixReading = MatrixReading(value: Coord, unit: string, delay: real, duration: real)

  /** One CSS property of an element in one class state. */
  datatype CssReading = CssReading(value: real, unit: string, delay: real, duration: real)

  /** Every reading of an element in one class state. `matrix` is `None`
      when the computed transform is `none` (`getMatrixValues` then returns
      `false` for every function); otherwise it holds the reading of every
      transform function it decomposes, by name. `css` holds the computed
      value of every CSS property the browser has, by name. */
  datatype Snapshot = Snapshot(matrix: Option<map<string, MatrixReading>>, css: map<string, CssReading>)

  /** How an element looks without and with the open class. */
  datatype Look = Look(closed: Snapshot, open: Snapshot)

  predicate HasReading(s: Snapshot, p: string)
  {
    s.matrix.Some? && p in s.matrix.value
  }

  function ReadingOf(s: Snapshot, p: string): MatrixReading
    requires HasReading(s, p)
  {
    s.matrix.value[p]
  }

  /** A translate reading has both coordinates, as `getMatrixValues` builds
      it. */
  predicate TranslateHasXY(s: Snapshot)
  {
    HasReading(s, "translate") ==> ReadingOf(s, "translate").value.XY?
  }

  /** The readings `getTransitionValues` can take of an element: its
      translate readings have both coordinates, and every listed CSS
      property is one the computed style has (`getCSSValue` throws on any
      other name). */
  predicate WellShaped(l: Look, cssProps: seq<string>)
  {
    && TranslateHasXY(l.closed) && TranslateHasXY(l.open)
    && forall p :: p in cssProps ==> p in l.closed.css && p in l.open.css
  }

  /** The readings of the element's current state and of the state the
      toggle of the open class leads to. */
  function Current(l: Look, isOpen: bool): Snapshot { if isOpen then l.open else l.closed }
  function Toggled(l: Look, isOpen: bool): Snapshot { if isOpen then l.closed else l.open }

  /** A property diff: start and end readings, direction and size of the
      change on x (and on y), and the effective timing. `ydir` and
      `ydifference` are unset (`None`) for a CSS property. `Untimed` is the
      diff built for a transform function when the toggled state has no
      transform at all: it has no readings to move between, and its delay
      and duration are `undefined`. */
  datatype Calc = Calc(from: Coord, to: Coord, unit: string,
                       dir: Dir, difference: real,
                       ydir: Option<Dir>, ydifference: Option<real>,
                       delay: real, duration: real)
                | Untimed

  /** Where a move of `d` in direction `dir` from `a` ends. */
  function Reach(a: real, dir: Dir, d: real): real
  {
    if dir == Up then a + d else a - d
  }

  /** The toggled (`to`) state's timing unless it is 0, else the current
      (`from`) state's. */
  function Fallback(preferred: real, fallback: real): real
  {
    if preferred != 0.0 then preferred else fallback
  }

  function DirOf(from: real, to: real): Dir { if from < to then Up else Down }

  /** `getCalculations` with dimension 2, for a transform function read in
      both states. */
  function MatrixCalculations(from: MatrixReading, to: MatrixReading): (r: Calc)
    ensures r.Calc? && r.from == from.value && r.to == to.value && r.unit == to.unit
    ensures r.difference >= 0.0 && (r.difference == 0.0 <==> from.value.x == to.value.x)
    ensures r.dir == Up <==> from.value.x < to.value.x
    ensures Reach(from.value.x, r.dir, r.difference) == to.value.x
    ensures r.ydir.Some? && r.ydifference.Some? && r.ydifference.value >= 0.0
    ensures from.value.XY? && to.value.XY? ==>
              (r.ydir.value == Up <==> from.value.y < to.value.y) &&
              Reach(from.value.y, r.ydir.value, r.ydifference.value) == to.value.y
    ensures !(from.value.XY? && to.value.XY?) ==> r.ydir == Some(Down) && r.ydifference == Some(0.0)
    ensures to.delay != 0.0 ==> r.delay == to.delay
    ensures to.delay == 0.0 ==> r.delay == from.delay
    ensures to.duration != 0.0 ==> r.duration == to.duration
    ensures to.duration == 0.0 ==> r.duration == from.duration
  {
    var (ydir, ydifference) :=
      match (from.value, to.value)
      case (XY(_, fy), XY(_, ty)) => (DirOf(fy, ty), CalculateDifference(fy, ty))
      // a missing y compares false and its NaN difference becomes 0
      case _ => (Down, 0.0);
    Calc(from.value, to.value, to.unit,
         DirOf(from.value.x, to.value.x), CalculateDifference(from.value.x, to.value.x),
         Some(ydir), Some(ydifference),
         Fallback(to.delay, from.delay), Fallback(to.duration, from.duration))
  }

  /** `getCalculations` with dimension 2 on what `getMatrixValues` returned
      for function `p` in the two states, `None` where it throws a
      TypeError: with no transform in the toggled state the diff is
      `Untimed`; otherwise it reads `to.value.unit` and `from.value.x`,
      which throws unless both states decompose `p`. */
  function MatrixDiff(p: string, from: Snapshot, to: Snapshot): (r: Option<Calc>)
    ensures to.matrix.None? ==> r == Some(Untimed)
    ensures to.matrix.Some? ==> (r.Some? <==> HasReading(from, p) && HasReading(to, p))
    ensures r.Some? && r.value.Calc? ==>
              to.matrix.Some? && r.value == MatrixCalculations(ReadingOf(from, p), ReadingOf(to, p))
  {
    if to.matrix.None? then Some(Untimed)
    else if HasReading(from, p) && HasReading(to, p) then Some(MatrixCalculations(ReadingOf(from, p), ReadingOf(to, p)))
    else None
  }

  /** `getCalculations` with dimension 1, for a CSS property. The exclusion
      test of the source reads `ydifference`, which this branch never sets,
      so it never excludes anything. */
  function CssCalculations(from: CssReading, to: CssReading): (r: Option<Calc>)
    ensures r.Some? && r.value.Calc?
    ensures r.value.from == XOnly(from.value) && r.value.to == XOnly(to.value) && r.value.unit == to.unit
    ensures r.value.difference >= 0.0 && (r.value.difference == 0.0 <==> from.value == to.value)
    ensures r.value.dir == Up <==> from.value < to.value
    ensures Reach(from.value, r.value.dir, r.value.difference) == to.value
    ensures r.value.ydir.None? && r.value.ydifference.None?
    ensures to.delay != 0.0 ==> r.value.delay == to.delay
    ensures to.delay == 0.0 ==> r.value.delay == from.delay
    ensures to.duration != 0.0 ==> r.value.duration == to.duration
    ensures to.duration == 0.0 ==> r.value.duration == from.duration
  {
    var difference := CalculateDifference(from.value, to.value);
    var ydifference: Option<real> := None;
    if difference == 0.0 && ydifference == Some(0.0) then None
    else Some(Calc(XOnly(from.value), XOnly(to.value), to.unit,
                   DirOf(from.value, to.value), difference, None, None,
                   Fallback(to.delay, from.delay), Fallback(to.duration, from.duration)))
  }

  /** A CSS reading as the object `getCSSValue` builds: an array carrying
      `value`, `unit`, `delay` and `duration` properties. */
  function CssObject(r: CssReading): JsObject
  {
    JsObject(["length", "value", "unit", "delay", "duration"],
             map["length" := Num(0.0), "value" := Num(r.value), "unit" := Str(r.unit),
                 "delay" := Num(r.delay), "duration" := Num(r.duration)])
  }

  /** Two CSS readings are equivalent exactly when they are equal. */
  lemma CssEquivalentIffEqual(a: CssReading, b: CssReading)
    ensures IsEquivalent(CssObject(a), CssObject(b)) <==> a == b
  {
    var oa, ob := CssObject(a), CssObject(b);
    if a == b {
      IsEquivalentReflexive(oa);
    }
    if IsEquivalent(oa, ob) {
      SameValuesMeaning(oa.names, oa, ob);
      assert oa.names[1] == "value" && oa.names[2] == "unit";
      assert oa.names[3] == "delay" && oa.names[4] == "duration";
      assert Get(oa, "value") == Get(ob, "value") && Get(oa, "unit") == Get(ob, "unit");
      assert Get(oa, "delay") == Get(ob, "delay") && Get(oa, "duration") == Get(ob, "duration");
    }
  }

  /** Identical readings still produce a (zero) diff rather than none. */
  lemma UnchangedReadingsStillDiffed(m: MatrixReading, c: CssReading)
    ensures MatrixCalculations(m, m).difference == 0.0
    ensures CssCalculations(c, c) == Some(Calc(XOnly(c.value), XOnly(c.value), c.unit, Down, 0.0, None, None, c.delay, c.duration))
  {
  }

  /** The target's values for a gesture (`getValues`). */
  datatype TargetValues = TargetValues(axis: Axis, from: int, to: int, difference: nat,
                                       delay: real, duration: real, totalDuration: real,
                                       moved: Option<(nat, nat)>)

  /** The coordinate of a reading along an axis. */
  function Along(c: Coord, axis: Axis): real
    requires c.XY?
  {
    if axis == X then c.x else c.y
  }

  /** `getValues`: the driving axis is x when the truncated x translations of
      the two states differ, otherwise y; `from`, `to` and `difference` are
      the truncated translations along it. */
  function GetValues(from: MatrixReading, to: MatrixReading): (r: TargetValues)
    requires from.value.XY? && to.value.XY?
    ensures r.axis == X <==> Trunc(from.value.x) != Trunc(to.value.x)
    ensures r.from == Trunc(Along(from.value, r.axis)) && r.to == Trunc(Along(to.value, r.axis))
    ensures r.from + r.difference == r.to || r.to + r.difference == r.from
    ensures r.difference == 0 <==>
              Trunc(from.value.x) == Trunc(to.value.x) && Trunc(from.value.y) == Trunc(to.value.y)
    ensures r.delay == MatrixCalculations(from, to).delay && r.duration == MatrixCalculations(from, to).duration
    ensures r.totalDuration == r.delay + r.duration && r.moved.None?
  {
    var axis := if Trunc(from.value.x) != Trunc(to.value.x) then X else Y;
    var f := Trunc(Along(from.value, axis));
    var t := Trunc(Along(to.value, axis));
    var c := MatrixCalculations(from, to);
    TargetValues(axis, f, t, GetDifference(f, t), c.delay, c.duration, c.delay + c.duration, None)
  }

  /** Which CSS properties `getTransitionValues` keeps for an element: the
      listed ones read in both states whose two readings differ. Every
      listed transform function gets a diff; a name in both lists takes
      its CSS diff when that one is kept. */
  predicate KeptCss(p: string, cssProps: seq<string>, from: Snapshot, to: Snapshot)
  {
    p in cssProps && p in from.css && p in to.css && from.css[p] != to.css[p]
  }

  /** `getTransitionValues` reads the calculator's translate reading in
      both states to choose the axis, and throws when either is missing. */
  predicate AxisReadable(calcFrom: Snapshot, calcTo: Snapshot)
  {
    HasReading(calcFrom, "translate") && HasReading(calcTo, "translate")
  }

  /** No listed transform function makes `getCalculations` throw. */
  predicate Diffable(matrixProps: seq<string>, from: Snapshot, to: Snapshot)
  {
    forall p :: p in matrixProps ==> MatrixDiff(p, from, to).Some?
  }

  /** `vals` holds exactly the diffs `getTransitionValues` keeps for an
      element read as `from` and `to`. */
  ghost predicate DiffsOf(vals: map<string, Calc>, matrixProps: seq<string>, cssProps: seq<string>, from: Snapshot, to: Snapshot)
  {
    && (forall p :: p in vals <==> p in matrixProps || KeptCss(p, cssProps, from, to))
    && (forall p :: KeptCss(p, cssProps, from, to) ==> vals[p] == CssCalculations(from.css[p], to.css[p]).value)
    && (forall p :: p in matrixProps && !KeptCss(p, cssProps, from, to) ==> Some(vals[p]) == MatrixDiff(p, from, to))
  }

  /** `getTransitionValues` for an element read as `from` and `to`, with
      the calculator read as `calcFrom` and `calcTo`: the property diffs,
      or `None` where it throws. */
  method TransitionValues(matrixProps: seq<string>, cssProps: seq<string>, calcFrom: Snapshot, calcTo: Snapshot,
                          from: Snapshot, to: Snapshot)
    returns (vals: Option<map<string, Calc>>)
    ensures vals.Some? <==> AxisReadable(calcFrom, calcTo) && Diffable(matrixProps, from, to)
    ensures vals.Some? ==> DiffsOf(vals.value, matrixProps, cssProps, from, to)
  {
    if !AxisReadable(calcFrom, calcTo) {
      return None;
    }
    var m := MatrixDiffs(matrixProps, from, to);
    if m.None? {
      return None;
    }
    var v := AddCssDiffs(m.value, cssProps, from, to);
    MatrixThenCss(m.value, matrixProps, cssProps, from, to);
    return Some(v);
  }

  /** `getValues` runs to its end on an element that is its own calculator
      exactly when `getTransitionValues` does and the value set has a
      `translate` entry for it to read. */
  predicate ValuesReadable(matrixProps: seq<string>, cssProps: seq<string>, from: Snapshot, to: Snapshot)
  {
    && AxisReadable(from, to) && Diffable(matrixProps, from, to)
    && ("translate" in matrixProps || KeptCss("translate", cssProps, from, to))
  }

  /** `getValues` on an element read as `from` and `to`: its value set, then
      its travel and timing from its translate readings; `None` where it
      throws. */
  method MeasureValues(matrixProps: seq<string>, cssProps: seq<string>, from: Snapshot, to: Snapshot)
    returns (tv: Option<TargetValues>)
    requires TranslateHasXY(from) && TranslateHasXY(to)
    ensures tv.Some? <==> ValuesReadable(matrixProps, cssProps, from, to)
    ensures tv.Some? ==> tv.value == GetValues(ReadingOf(from, "translate"), ReadingOf(to, "translate"))
  {
    var vals := TransitionValues(matrixProps, cssProps, from, to, from, to);
    if vals.None? || "translate" !in vals.value {
      return None;
    }
    tv := Some(GetValues(ReadingOf(from, "translate"), ReadingOf(to, "translate")));
  }

  /** The loop over the transform functions: a diff for every one, unless
      one of them throws. */
  method MatrixDiffs(matrixProps: seq<string>, from: Snapshot, to: Snapshot) returns (vals: Option<map<string, Calc>>)
    ensures vals.Some? <==> Diffable(matrixProps, from, to)
    ensures vals.Some? ==> forall p :: p in vals.value <==> p in matrixProps
    ensures vals.Some? ==> forall p :: p in matrixProps ==> Some(vals.value[p]) == MatrixDiff(p, from, to)
  {
    var vs: map<string, Calc> := map[];
    var i := 0;
    while i < |matrixProps|
      invariant 0 <= i <= |matrixProps|
      invariant Diffable(matrixProps[..i], from, to)
      invariant forall p :: p in vs <==> p in matrixProps[..i]
      invariant forall p :: p in vs ==> Some(vs[p]) == MatrixDiff(p, from, to)
    {
      var p := matrixProps[i];
      var c := MatrixDiff(p, from, to);
      if c.None? {
        return None;
      }
      vs := vs[p := c.value];
      assert matrixProps[..i + 1] == matrixProps[..i] + [p];
      i := i + 1;
    }
    assert matrixProps[..i] == matrixProps;
    vals := Some(vs);
  }

  /** The diffs the loop over the CSS properties produces: one for every
      listed property read in both states whose readings differ. */
  function CssDiffs(props: seq<string>, from: Snapshot, to: Snapshot): (r: map<string, Calc>)
    ensures forall p :: p in r <==> KeptCss(p, props, from, to)
    ensures forall p :: KeptCss(p, props, from, to) ==> r[p] == CssCalculations(from.css[p], to.css[p]).value
  {
    if |props| == 0 then map[]
    else
      var before := CssDiffs(props[..|props| - 1], from, to);
      var p := props[|props| - 1];
      assert forall q :: q in props <==> q in props[..|props| - 1] || q == p;
      if p in from.css && p in to.css && from.css[p] != to.css[p]
      then before[p := CssCalculations(from.css[p], to.css[p]).value]
      else before
  }

  lemma CssDiffsStep(props: seq<string>, i: nat, from: Snapshot, to: Snapshot)
    requires i < |props|
    ensures var p := props[i];
            CssDiffs(props[..i + 1], from, to) ==
              if p in from.css && p in to.css && from.css[p] != to.css[p]
              then CssDiffs(props[..i], from, to)[p := CssCalculations(from.css[p], to.css[p]).value]
              else CssDiffs(props[..i], from, to)
  {
    assert props[..i + 1][..i] == props[..i];
  }

  /** Writing an entry into the right operand of a union writes it into the
      union. */
  lemma UnionUpdate<V>(a: map<string, V>, b: map<string, V>, k: string, v: V)
    ensures a + b[k := v] == (a + b)[k := v]
  {
  }

  /** The loop over the CSS properties, on top of the transform diffs: a
      diff for every property whose readings are not `isEquivalent`. */
  method AddCssDiffs(vals0: map<string, Calc>, cssProps: seq<string>, from: Snapshot, to: Snapshot)
    returns (vals: map<string, Calc>)
    ensures vals == vals0 + CssDiffs(cssProps, from, to)
  {
    vals := vals0;
    var j := 0;
    while j < |cssProps|
      invariant 0 <= j <= |cssProps|
      invariant vals == vals0 + CssDiffs(cssProps[..j], from, to)
    {
      var p := cssProps[j];
      AddCssDiffsStep(vals0, cssProps, j, from, to);
      if p in from.css && p in to.css {
        CssEquivalentIffEqual(from.css[p], to.css[p]);
        if !IsEquivalent(CssObject(from.css[p]), CssObject(to.css[p])) {
          var c := CssCalculations(from.css[p], to.css[p]);
          if c.Some? {
            vals := vals[p := c.value];
          }
        }
      }
      j := j + 1;
    }
    assert cssProps[..j] == cssProps;
  }

  /** One step of the CSS loop on top of the transform diffs. */
  lemma AddCssDiffsStep(vals0: map<string, Calc>, props: seq<string>, j: nat, from: Snapshot, to: Snapshot)
    requires j < |props|
    ensures var p := props[j];
            vals0 + CssDiffs(props[..j + 1], from, to) ==
              if p in from.css && p in to.css && from.css[p] != to.css[p]
              then (vals0 + CssDiffs(props[..j], from, to))[p := CssCalculations(from.css[p], to.css[p]).value]
              else vals0 + CssDiffs(props[..j], from, to)
  {
    var p := props[j];
    CssDiffsStep(props, j, from, to);
    if p in from.css && p in to.css && from.css[p] != to.css[p] {
      UnionUpdate(vals0, CssDiffs(props[..j], from, to), p, CssCalculations(from.css[p], to.css[p]).value);
    }
  }

  /** The transform diffs overwritten by the kept CSS diffs are the value
      set `getTransitionValues` keeps. */
  lemma MatrixThenCss(vals0: map<string, Calc>, matrixProps: seq<string>, cssProps: seq<string>, from: Snapshot, to: Snapshot)
    requires forall p :: p in vals0 <==> p in matrixProps
    requires forall p :: p in matrixProps ==> Some(vals0[p]) == MatrixDiff(p, from, to)
    ensures DiffsOf(vals0 + CssDiffs(cssProps, from, to), matrixProps, cssProps, from, to)
  {
  }
}
