/** Small value-level helpers of the gesture engine: the option type used for
    JavaScript's `false`/`undefined`/NaN results, substring search, `parseInt`
    truncation, absolute differences and `Number.prototype.between`. */
module Common {

  datatype Option<T> = None | Some(value: T)

  /** `s.includes(t)` on strings. */
  function Contains(s: string, t: string): (r: bool)
    ensures t <= s ==> r
    ensures r ==> |t| <= |s|
  {
    if t <= s then true
    else if |s| == 0 then false
    else Contains(s[1..], t)
  }

  /** `t` occurs in `s` starting at index `i`. */
  predicate OccursAt(s: string, t: string, i: nat)
  {
    i + |t| <= |s| && s[i..i + |t|] == t
  }

  /** `Contains` is substring search: it holds exactly when `t` occurs
      somewhere in `s`. */
  lemma {:induction false} ContainsIffOccurs(s: string, t: string)
    ensures Contains(s, t) <==> exists i: nat :: OccursAt(s, t, i)
    decreases |s|
  {
    if t <= s {
      assert OccursAt(s, t, 0);
    } else if |s| == 0 {
      assert forall i: nat :: !OccursAt(s, t, i);
    } else {
      ContainsIffOccurs(s[1..], t);
      forall i: nat | OccursAt(s, t, i)
        ensures i > 0 && OccursAt(s[1..], t, i - 1)
      {
        assert s[1..][i - 1..i - 1 + |t|] == s[i..i + |t|];
      }
      forall j: nat | OccursAt(s[1..], t, j)
        ensures OccursAt(s, t, j + 1)
      {
        assert s[1..][j..j + |t|] == s[j + 1..j + 1 + |t|];
      }
    }
  }

  /** `parseInt` applied to a finite number: truncation toward zero. */
  function Trunc(x: real): (r: int)
    ensures x >= 0.0 ==> 0 <= r && r as real <= x < r as real + 1.0
    ensures x < 0.0 ==> r as real - 1.0 < x <= r as real <= 0.0
  {
    if x >= 0.0 then x.Floor else -((-x).Floor)
  }

  /** `getDifference` on screen coordinates and parsed pixel offsets. */
  function GetDifference(a: int, b: int): (r: nat)
    ensures a + r == b || b + r == a
  {
    if a < b then b - a else a - b
  }

  /** `calculateDifference`: the absolute difference of two readings. */
  function CalculateDifference(from: real, to: real): (r: real)
    ensures r >= 0.0
    ensures r == 0.0 <==> from == to
    ensures from < to ==> from + r == to
    ensures to <= from ==> from - r == to
  {
    if from < to then to - from else from - to
  }

  /** `Number.prototype.between`: whether `v` lies between `a` and `b`, in
      either order, with or without the bounds. */
  function Between(v: int, a: int, b: int, inclusive: bool): (r: bool)
    ensures inclusive ==> (r <==> (a <= v <= b || b <= v <= a))
    ensures !inclusive ==> (r <==> (a < v < b || b < v < a))
  {
    var lo := if a < b then a else b;
    var hi := if a < b then b else a;
    if inclusive then lo <= v && v <= hi else lo < v && v < hi
  }

  /** Inclusive betweenness does not depend on the order of the bounds, and
      both bounds are inside. */
  lemma BetweenSymmetric(v: int, a: int, b: int)
    ensures Between(v, a, b, true) == Between(v, b, a, true)
    ensures Between(a, a, b, true) && Between(b, a, b, true)
    ensures Between(v, a, b, false) ==> Between(v, a, b, true)
  {
  }
}
