/** `getTransitionValue`: the delay or duration, in milliseconds, that an
    element's computed `transition` gives to one property channel.  The two
    comma-separated lists of the computed style are given already split; the
    entries of the delay/duration list are given already passed through
    `parseFloat` (in seconds). */
module Timing {
  import opened Common

  /** A JavaScript number as far as this lookup is concerned: reading past the
      end of the delay/duration list gives `parseFloat(undefined)`, NaN. */
  datatype JsNumber = Finite(v: real) | NaN

  /** The index of the last entry of `transition` that mentions `kind`. */
  function LastMatch(transition: seq<string>, kind: string): (r: Option<nat>)
    ensures r.None? <==> forall i :: 0 <= i < |transition| ==> !Contains(transition[i], kind)
    ensures r.Some? ==> r.value < |transition| && Contains(transition[r.value], kind)
    ensures r.Some? ==> forall j :: r.value < j < |transition| ==> !Contains(transition[j], kind)
  {
    if |transition| == 0 then None
    else if Contains(transition[|transition| - 1], kind) then Some(|transition| - 1)
    else LastMatch(transition[..|transition| - 1], kind)
  }

  /** What the lookup yields for a matching index: the list entry converted
      from seconds to milliseconds, or NaN when the list is too short. */
  function Millis(values: seq<real>, i: nat): JsNumber
  {
    if i < |values| then Finite(values[i] * 1000.0) else NaN
  }

  method GetTransitionValue(transition: seq<string>, values: seq<real>, kind: string) returns (r: JsNumber)
    ensures (forall i :: 0 <= i < |transition| ==> !Contains(transition[i], kind)) ==> r == Finite(0.0)
    ensures LastMatch(transition, kind).Some? ==> r == Millis(values, LastMatch(transition, kind).value)
  {
    r := Finite(0.0);
    var i := 0;
    while i < |transition|
      invariant 0 <= i <= |transition|
      invariant LastMatch(transition[..i], kind).None? ==> r == Finite(0.0)
      invariant LastMatch(transition[..i], kind).Some? ==> r == Millis(values, LastMatch(transition[..i], kind).value)
    {
      if Contains(transition[i], kind) {
        r := Millis(values, i);
      }
      assert transition[..i + 1][..i] == transition[..i];
      i := i + 1;
    }
    assert transition[..i] == transition;
  }
}
