/** `isEquivalent`: shallow equality of two JavaScript objects, as used to skip
    CSS properties whose closed and open readings are the same. */
module Equivalence {

  /** The values a reading object can hold. Reading a property an object
      does not have gives `Undefined`. */
  datatype JsValue = Undefined | Num(n: real) | Str(s: string)

  /** An object: its own property names in `getOwnPropertyNames` order and
      their values. */
  datatype JsObject = JsObject(names: seq<string>, props: map<string, JsValue>)

  /** The shape every real object has: each own name listed once, and the
      listed names are exactly the keys. */
  ghost predicate WellFormed(o: JsObject)
  {
    && (forall i, j :: 0 <= i < j < |o.names| ==> o.names[i] != o.names[j])
    && (forall n :: n in o.names <==> n in o.props)
  }

  /** `o[name]`. */
  function Get(o: JsObject, name: string): JsValue
  {
    if name in o.props then o.props[name] else Undefined
  }

  /** The loop over `a`'s property names: every one reads the same in `b`. */
  function SameValues(names: seq<string>, a: JsObject, b: JsObject): bool
  {
    |names| == 0 || (Get(a, names[0]) == Get(b, names[0]) && SameValues(names[1..], a, b))
  }

  function IsEquivalent(a: JsObject, b: JsObject): (r: bool)
    ensures |a.names| != |b.names| ==> !r
  {
    |a.names| == |b.names| && SameValues(a.names, a, b)
  }

  lemma {:induction false} SameValuesMeaning(names: seq<string>, a: JsObject, b: JsObject)
    ensures SameValues(names, a, b) <==> forall n :: n in names ==> Get(a, n) == Get(b, n)
  {
    if |names| > 0 {
      SameValuesMeaning(names[1..], a, b);
      assert forall n :: n in names <==> n == names[0] || n in names[1..];
    }
  }

  /** Every object is equivalent to itself. */
  lemma {:induction false} IsEquivalentReflexive(a: JsObject)
    ensures IsEquivalent(a, a)
  {
    SameValuesMeaning(a.names, a, a);
  }

  /** One own property of `a` that reads differently in `b` makes the two
      objects not equivalent. */
  lemma {:induction false} IsEquivalentMismatch(a: JsObject, b: JsObject, name: string)
    requires name in a.names && Get(a, name) != Get(b, name)
    ensures !IsEquivalent(a, b)
  {
    SameValuesMeaning(a.names, a, b);
  }

  /** `Get` reads `Undefined` for a name `b` lacks, so an explicitly undefined
      property of `a` matches any missing one: `{x: undefined}` is
      equivalent to `{y: 1}`, but not the other way round. */
  lemma IsEquivalentNotSymmetric()
    ensures IsEquivalent(JsObject(["x"], map["x" := Undefined]), JsObject(["y"], map["y" := Num(1.0)]))
    ensures !IsEquivalent(JsObject(["y"], map["y" := Num(1.0)]), JsObject(["x"], map["x" := Undefined]))
  {
  }

  /** Distinct names: the set of them has as many members as the list. */
  lemma {:induction false} DistinctCard(names: seq<string>)
    requires forall i, j :: 0 <= i < j < |names| ==> names[i] != names[j]
    ensures |set n | n in names| == |names|
  {
    if |names| > 0 {
      DistinctCard(names[1..]);
      var rest := set n | n in names[1..];
      assert (set n | n in names) == rest + {names[0]};
      assert names[0] !in rest;
    }
  }

  /** A subset as large as its superset is the superset. */
  lemma SubsetSameCard(s: set<string>, t: set<string>)
    requires s <= t && |s| == |t|
    ensures s == t
  {
    assert |t - s| == |t| - |s|;
  }

  /** For well-formed objects none of whose values is `Undefined`, the check
      is exactly equality of the property maps. */
  lemma IsEquivalentIsEquality(a: JsObject, b: JsObject)
    requires WellFormed(a) && WellFormed(b)
    requires forall n :: n in a.props ==> a.props[n] != Undefined
    ensures IsEquivalent(a, b) <==> a.props == b.props
  {
    if IsEquivalent(a, b) {
      EquivalentMapsEqual(a, b);
    }
    if a.props == b.props {
      EqualMapsEquivalent(a, b);
    }
  }

  lemma EquivalentMapsEqual(a: JsObject, b: JsObject)
    requires WellFormed(a) && WellFormed(b)
    requires forall n :: n in a.props ==> a.props[n] != Undefined
    requires IsEquivalent(a, b)
    ensures a.props == b.props
  {
    SameValuesMeaning(a.names, a, b);
    DistinctCard(a.names);
    DistinctCard(b.names);
    assert a.props.Keys == set n | n in a.names;
    assert b.props.Keys == set n | n in b.names;
    assert a.props.Keys <= b.props.Keys by {
      forall n | n in a.props ensures n in b.props {
        assert Get(a, n) == Get(b, n);
      }
    }
    SubsetSameCard(a.props.Keys, b.props.Keys);
    forall n | n in a.props ensures a.props[n] == b.props[n] {
      assert Get(a, n) == Get(b, n);
    }
  }

  lemma EqualMapsEquivalent(a: JsObject, b: JsObject)
    requires WellFormed(a) && WellFormed(b)
    requires a.props == b.props
    ensures IsEquivalent(a, b)
  {
    SameValuesMeaning(a.names, a, b);
    DistinctCard(a.names);
    DistinctCard(b.names);
    assert (set n | n in a.names) == a.props.Keys == b.props.Keys == (set n | n in b.names);
  }
}
