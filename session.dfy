/** The gesture session controller: the module-level state of the plugin
    (`touchstart`, `lastDifference`, `moveDirection`, `target`, `buddies`,
    `buddiesValues`, `ignore`, ...) as the fields of one object, with the
    document it works on reduced to plain data: elements are named by their
    `data-touch-id`, each has a class list and a look in both class states,
    and the relationship attributes are given already split. */
module Gesture {
  import opened Common
  import opened Geometry
  import opened Progress
  import opened Styling
  import opened Openers

  type Id = string

  datatype Direction = Forward | Backward

  /** How a handler ended: on one of its `return false` guards, at its end,
      or with a TypeError thrown by the code it ran. */
  datatype Outcome = Rejected | Done | Threw

  /** The options the core reads. */
  datatype Settings = Settings(threshold: real, openClass: string, transitioningClass: string,
                               touchmoveClass: string, matrixValues: seq<string>, cssValues: seq<string>)

  /** The static part of the document: how every element looks, and its
      `data-touch-controls`, `data-touch-closes` and `data-touch-buddies`
      attributes; `touchEls` are the `[data-touch]` elements in document
      order. An element whose attribute is absent or empty has no entry. */
  datatype Document = Document(looks: map<Id, Look>, controls: map<Id, Id>, closes: map<Id, seq<Id>>,
                               buddyLists: map<Id, seq<Id>>, touchEls: seq<Id>)

  /** The listed ids that name an element, in listed order. */
  function Resolve(ids: seq<Id>, present: set<Id>): (r: seq<Id>)
    ensures forall x :: x in r <==> x in ids && x in present
    ensures |r| <= |ids|
  {
    if |ids| == 0 then []
    else Resolve(ids[..|ids| - 1], present) + (if ids[|ids| - 1] in present then [ids[|ids| - 1]] else [])
  }

  /** Resolving one more listed id appends it when it names an element. */
  lemma ResolveStep(ids: seq<Id>, i: nat, present: set<Id>)
    requires i < |ids|
    ensures Resolve(ids[..i + 1], present) ==
              Resolve(ids[..i], present) + (if ids[i] in present then [ids[i]] else [])
  {
    assert ids[..i + 1][..i] == ids[..i];
  }

  /** The listed ids whose element is open, in listed order, repeats kept
      (the `controllerList` of `getTarget`). */
  function OpenAmong(ids: seq<Id>, classes: map<Id, set<string>>, openClass: string): (r: seq<Id>)
    requires forall x :: x in ids ==> x in classes
    ensures forall x :: x in r <==> x in ids && openClass in classes[x]
  {
    if |ids| == 0 then []
    else OpenAmong(ids[..|ids| - 1], classes, openClass) +
           (if openClass in classes[ids[|ids| - 1]] then [ids[|ids| - 1]] else [])
  }

  datatype Resolution = Found(id: Id) | NoTarget | Missing

  /** What `getTarget` resolves an element of a gesture zone to: a closing
      element to the single open element its list names (a listed id with
      no element makes the lookup throw), a controlling element to the
      element it controls, any other element to itself. */
  function ResolveTarget(doc: Document, classes: map<Id, set<string>>, openClass: string, zone: Id): (r: Resolution)
    ensures r.Found? ==> r.id in classes || r.id == zone
  {
    if zone in doc.closes then
      if exists x :: x in doc.closes[zone] && x !in classes then Missing
      else
        var open := OpenAmong(doc.closes[zone], classes, openClass);
        if |open| == 1 then assert open[0] in open; Found(open[0]) else NoTarget
    else if zone in doc.controls then
      if doc.controls[zone] in classes then Found(doc.controls[zone]) else NoTarget
    else Found(zone)
  }

  /** A closing element resolves only to an element it lists that is open,
      and only when no other listed entry is open. */
  lemma CloserResolvesToSingleOpen(doc: Document, classes: map<Id, set<string>>, openClass: string, zone: Id, t: Id)
    requires zone in doc.closes && ResolveTarget(doc, classes, openClass, zone) == Found(t)
    ensures t in doc.closes[zone] && t in classes && openClass in classes[t]
    ensures forall x :: x in doc.closes[zone] && openClass in classes[x] ==> x == t
  {
    var open := OpenAmong(doc.closes[zone], classes, openClass);
    assert open[0] in open;
    forall x | x in doc.closes[zone] && openClass in classes[x] ensures x == t {
      assert x in open;
    }
  }

  /** The elements listed before the first occurrence of `e`. */
  function ElementsBefore(els: seq<Id>, e: Id): set<Id>
  {
    if |els| == 0 || els[0] == e then {} else {els[0]} + ElementsBefore(els[1..], e)
  }

  /** When no element before index k is open and the one at k is, it is
      the first open element. */
  lemma FirstOpenTouchEl(els: seq<Id>, k: nat, el: Id, classes: map<Id, set<string>>, openClass: string)
    requires k < |els| && els[k] == el && el in classes && openClass in classes[el]
    requires forall e :: e in els ==> e in classes
    requires forall e :: e in els[..k] ==> openClass !in classes[e]
    ensures forall e :: e in els && openClass in classes[e] ==> e == el || el in ElementsBefore(els, e)
  {
    if k > 0 {
      assert forall e :: e in els[1..][..k - 1] ==> e in els[..k];
      FirstOpenTouchEl(els[1..], k - 1, el, classes, openClass);
      forall e | e in els && openClass in classes[e]
        ensures e == el || el in ElementsBefore(els, e)
      {
        assert els[0] in els[..k];
        if e != els[0] {
          assert e in els[1..];
        }
      }
    }
  }

  /** `classList.toggle(c)`. */
  function Flip(cls: set<string>, c: string): set<string>
  {
    if c in cls then cls - {c} else cls + {c}
  }

  /** The class updates of `toggle`'s loop over the buddies of `t`: each
      buddy is opened or closed according to whether `t` is open at that
      step. */
  function BuddyPass(classes: map<Id, set<string>>, bs: seq<Id>, t: Id, openClass: string): (r: map<Id, set<string>>)
    requires t in classes && forall b :: b in bs ==> b in classes
    ensures r.Keys == classes.Keys
  {
    if |bs| == 0 then classes
    else
      var before := BuddyPass(classes, bs[..|bs| - 1], t, openClass);
      var b := bs[|bs| - 1];
      if openClass in before[t] then before[b := Open(before[b], openClass, t)]
      else before[b := Close(before[b], openClass, t)]
  }

  lemma BuddyPassStep(classes: map<Id, set<string>>, bs: seq<Id>, i: nat, t: Id, openClass: string)
    requires i < |bs| && t in classes && forall b :: b in bs ==> b in classes
    ensures forall b :: b in bs[..i] ==> b in classes
    ensures var before := BuddyPass(classes, bs[..i], t, openClass);
            BuddyPass(classes, bs[..i + 1], t, openClass) ==
              if openClass in before[t] then before[bs[i] := Open(before[bs[i]], openClass, t)]
              else before[bs[i] := Close(before[bs[i]], openClass, t)]
  {
    assert bs[..i + 1][..i] == bs[..i];
  }

  /** Whether `t` is open does not change during the pass, so every buddy
      is opened when `t` is open and closed when it is not, whatever the
      order and repeats of the list. */
  lemma {:induction false} BuddyPassUniform(classes: map<Id, set<string>>, bs: seq<Id>, t: Id, openClass: string)
    requires t in classes && forall b :: b in bs ==> b in classes
    ensures openClass in BuddyPass(classes, bs, t, openClass)[t] <==> openClass in classes[t]
    ensures forall k :: k in classes ==>
              BuddyPass(classes, bs, t, openClass)[k] ==
                if k !in bs then classes[k]
                else if openClass in classes[t] then Open(classes[k], openClass, t)
                else Close(classes[k], openClass, t)
  {
    if |bs| > 0 {
      var pre := bs[..|bs| - 1];
      var b := bs[|bs| - 1];
      BuddyPassUniform(classes, pre, t, openClass);
      OpenCloseIdempotent(classes[b], openClass, t);
      forall k | k in classes
        ensures k in bs <==> k in pre || k == b
      {
        assert bs == pre + [b];
      }
    }
  }

  /** The pass over the buddies adds or removes only the open class and
      `openedby:` records: every other class of every element is kept. */
  lemma {:induction false} BuddyPassKeepsOtherClasses(classes: map<Id, set<string>>, bs: seq<Id>, t: Id,
                                                      openClass: string, c: string)
    requires t in classes && forall b :: b in bs ==> b in classes
    requires c != openClass && !IsOpener(c)
    ensures forall k :: k in classes ==> (c in BuddyPass(classes, bs, t, openClass)[k] <==> c in classes[k])
  {
    BuddyPassUniform(classes, bs, t, openClass);
    TagIsOpener(t);
  }

  /** `toggle` on a closed target opens every buddy (the target, first in
      its own list, included) and records the target as its opener; on an
      open target it removes that record from every buddy and closes those
      no other opener holds open, while the target itself ends closed. */
  lemma ToggleOpensOrClosesBuddies(classes: map<Id, set<string>>, bs: seq<Id>, t: Id, openClass: string)
    requires t in classes && forall b :: b in bs ==> b in classes
    requires !IsOpener(openClass)
    ensures var r := BuddyPass(classes[t := Flip(classes[t], openClass)], bs, t, openClass);
            && (openClass !in classes[t] ==>
                  openClass in r[t] && forall b :: b in bs ==> openClass in r[b] && Tag(t) in r[b])
            && (openClass in classes[t] ==>
                  && openClass !in r[t]
                  && (forall b :: b in bs ==> Tag(t) !in r[b])
                  && (forall b :: b in bs && b != t ==>
                        (openClass in r[b] <==> openClass in classes[b] &&
                                                exists c :: c in classes[b] && IsOpener(c) && c != Tag(t))))
  {
    var flipped := classes[t := Flip(classes[t], openClass)];
    BuddyPassUniform(flipped, bs, t, openClass);
    forall b | b in bs {
      OpenCloseMeaning(flipped[b], openClass, t);
    }
  }

  /** The diffs of the buddy at index i; past the end there are none, and a
      `setStyling` that finds none and looks nothing up writes as if it had
      an empty set. */
  function ValuesAt(vals: seq<map<string, Calc>>, i: nat): map<string, Calc>
  {
    if i < |vals| then vals[i] else map[]
  }

  /** The inline styles after `setStyling` ran on each listed buddy in turn. */
  function Restyle(inline: map<Id, Style>, bs: seq<Id>, vals: seq<map<string, Calc>>, s: Settings,
                   tv: Option<TargetValues>, mode: Mode): map<Id, Style>
  {
    if |bs| == 0 then inline
    else Restyle(inline, bs[..|bs| - 1], vals, s, tv, mode)
           [bs[|bs| - 1] := StyleOf(s.matrixValues, s.cssValues, ValuesAt(vals, |bs| - 1), tv, mode)]
  }

  /** Clearing an entry and then writing it is the same as writing it. */
  lemma ClearThenWrite<V>(m: map<Id, V>, b: Id, v: V)
    ensures (m - {b})[b := v] == m[b := v]
  {
  }

  /** Writing an entry that is already there keeps the keys. */
  lemma KeysKept<V>(m: map<Id, V>, k: Id, v: V)
    requires k in m
    ensures m[k := v].Keys == m.Keys
  {
  }

  /** The inline styles `toggle` leaves: the target's cleared, then every
      buddy given its reverting and then its completing durations. */
  function ToggledStyles(inline: map<Id, Style>, t: Id, bs: seq<Id>, vals: seq<map<string, Calc>>, s: Settings,
                         tv: Option<TargetValues>): map<Id, Style>
  {
    Restyle(Restyle(inline - {t}, bs, vals, s, tv, Reverting), bs, vals, s, tv, Completing)
  }

  lemma RestyleStep(inline: map<Id, Style>, bs: seq<Id>, i: nat, vals: seq<map<string, Calc>>, s: Settings,
                    tv: Option<TargetValues>, mode: Mode)
    requires i < |bs|
    ensures Restyle(inline, bs[..i + 1], vals, s, tv, mode) ==
            Restyle(inline, bs[..i], vals, s, tv, mode)[bs[i] := StyleOf(s.matrixValues, s.cssValues, ValuesAt(vals, i), tv, mode)]
  {
    assert bs[..i + 1][..i] == bs[..i];
  }

  /** The inline styles after a drag step: only the buddies that follow the
      target's gesture are restyled. */
  function FollowGesture(inline: map<Id, Style>, bs: seq<Id>, vals: seq<map<string, Calc>>,
                  classes: map<Id, set<string>>, t: Id, s: Settings, tv: Option<TargetValues>): map<Id, Style>
    requires forall b :: b in bs ==> b in classes
  {
    if |bs| == 0 then inline
    else
      var before := FollowGesture(inline, bs[..|bs| - 1], vals, classes, t, s, tv);
      var b := bs[|bs| - 1];
      if FollowsGesture(classes[b], t)
      then before[b := StyleOf(s.matrixValues, s.cssValues, ValuesAt(vals, |bs| - 1), tv, Live)]
      else before
  }

  /** A buddy held open by another controller is never restyled by a drag
      step of this target. */
  lemma {:induction false} FollowSkipsForeignOpened(inline: map<Id, Style>, bs: seq<Id>, vals: seq<map<string, Calc>>,
                                                    classes: map<Id, set<string>>, t: Id, s: Settings,
                                                    tv: Option<TargetValues>, b: Id)
    requires forall x :: x in bs ==> x in classes
    requires b in classes && exists c :: c in classes[b] && IsOpener(c) && c != Tag(t)
    ensures b in inline <==> b in FollowGesture(inline, bs, vals, classes, t, s, tv)
    ensures b in inline ==> FollowGesture(inline, bs, vals, classes, t, s, tv)[b] == inline[b]
  {
    var c :| c in classes[b] && IsOpener(c) && c != Tag(t);
    assert c in OpenersOf(classes[b]);
    assert !FollowsGesture(classes[b], t);
    if |bs| > 0 {
      FollowSkipsForeignOpened(inline, bs[..|bs| - 1], vals, classes, t, s, tv, b);
    }
  }

  /** The release decision of `handleGesture`: toggle when the pointer moved
      forward strictly further than the threshold share of the target's
      travel, or did not move at all (a click). */
  function Commits(diff: nat, difference: nat, threshold: real, dir: Direction): (r: bool)
    ensures diff == 0 ==> r
    ensures dir == Backward ==> (r <==> diff == 0)
    ensures diff as real <= difference as real * threshold ==> (r <==> diff == 0)
    ensures dir == Forward && diff as real > difference as real * threshold ==> r
  {
    (diff as real > difference as real * threshold && dir == Forward) || diff == 0
  }

  /** With a travel of 300 px and a threshold of 0.2: 61 px forward commits,
      exactly 60 px or 59 px forward reverts, any distance backward reverts,
      a click commits. */
  lemma CommitAtThreshold(dir: Direction)
    ensures Commits(61, 300, 0.2, Forward) && !Commits(60, 300, 0.2, Forward) && !Commits(59, 300, 0.2, Forward)
    ensures !Commits(200, 300, 0.2, Backward) && Commits(0, 300, 0.2, dir)
  {
  }

  /** The hysteresis of `moveHandler`: the recorded displacement is replaced
      when there is none yet or the new one is more than 10 away. */
  function NextLastDifference(last: Option<nat>, difference: nat): (r: nat)
    ensures last.None? ==> r == difference
    ensures last.Some? ==> (r == difference <==> GetDifference(difference, last.value) > 10 || difference == last.value)
    ensures last.Some? && r != difference ==> r == last.value
  {
    if last.None? || GetDifference(difference, last.value) > 10 then difference else last.value
  }

  /** The direction after a move step: forward when inside the travel and
      beyond the recorded displacement, backward when inside and short of
      it, unchanged otherwise. */
  function NextDirection(dir: Direction, isBetween: bool, difference: nat, last: nat): (r: Direction)
    ensures r != dir ==> isBetween && difference != last
    ensures isBetween && difference > last ==> r == Forward
    ensures isBetween && difference < last ==> r == Backward
  {
    if isBetween && difference > last then Forward
    else if isBetween && difference < last then Backward
    else dir
  }

  /** A move step that replaces the recorded displacement never changes the
      direction, and one outside the travel never does either. */
  lemma DirectionHoldsWhenRecordReplaced(dir: Direction, isBetween: bool, difference: nat, last: Option<nat>)
    requires last.None? || GetDifference(difference, last.value) > 10
    ensures NextDirection(dir, isBetween, difference, NextLastDifference(last, difference)) == dir
    ensures NextDirection(dir, false, difference, NextLastDifference(last, difference)) == dir
  {
  }

  /** The classes `handleGesture` leaves: the target marked as
      transitioning, toggled with its buddies when the release commits,
      and no longer marked as being dragged. */
  function Settled(classes: map<Id, set<string>>, bs: seq<Id>, t: Id, s: Settings, committed: bool): (r: map<Id, set<string>>)
    requires t in classes && forall b :: b in bs ==> b in classes
    ensures r.Keys == classes.Keys
  {
    var marked := classes[t := classes[t] + {s.transitioningClass}];
    var after := if committed then BuddyPass(marked[t := Flip(marked[t], s.openClass)], bs, t, s.openClass) else marked;
    after[t := after[t] - {s.touchmoveClass}]
  }

  /** After a gesture the target is never marked as being dragged; it stays
      marked as transitioning whenever that class is not one the toggle
      manages; and an uncommitted gesture changes no other element. */
  lemma SettledMarks(classes: map<Id, set<string>>, bs: seq<Id>, t: Id, s: Settings, committed: bool)
    requires t in classes && forall b :: b in bs ==> b in classes
    ensures s.touchmoveClass !in Settled(classes, bs, t, s, committed)[t]
    ensures (s.transitioningClass != s.openClass && s.transitioningClass != s.touchmoveClass &&
             !IsOpener(s.transitioningClass)) ==> s.transitioningClass in Settled(classes, bs, t, s, committed)[t]
    ensures !committed ==> forall k :: k in classes && k != t ==> Settled(classes, bs, t, s, committed)[k] == classes[k]
  {
    var marked := classes[t := classes[t] + {s.transitioningClass}];
    if committed && s.transitioningClass != s.openClass && !IsOpener(s.transitioningClass) {
      BuddyPassKeepsOtherClasses(marked[t := Flip(marked[t], s.openClass)], bs, t, s.openClass, s.transitioningClass);
    }
  }

  class Session {
    const doc: Document
    const settings: Settings
    var classes: map<Id, set<string>>
    /** Each element's `style` attribute as the last `setStyling` left it;
        an element without one has no entry. */
    var inline: map<Id, Style>

    var touchstart: bool
    var touchstartX: int
    var touchstartY: int
    var touchendX: int
    var touchendY: int
    var lastDifference: Option<nat>
    var moveDirection: Direction
    var target: Option<Id>
    var targetValues: Option<TargetValues>
    var buddies: seq<Id>
    var buddiesValues: seq<map<string, Calc>>
    var ignore: bool

    /** Every element can be measured: its translate readings have both
        coordinates and every listed CSS property has a computed value. */
    predicate Shaped()
    {
      forall id :: id in doc.looks ==> WellShaped(doc.looks[id], settings.cssValues)
    }

    /** The `[data-touch]` elements are elements of the document. */
    predicate TouchElsKnown()
    {
      forall e :: e in doc.touchEls ==> e in doc.looks
    }

    ghost predicate Valid()
      reads this`classes, this`target, this`buddies, this`touchstart, this`targetValues, this`buddiesValues
    {
      && classes.Keys == doc.looks.Keys
      && (target.Some? ==> target.value in doc.looks)
      && (forall b :: b in buddies ==> b in doc.looks)
      && (touchstart ==> target.Some? && targetValues.Some? && |buddies| > 0 && |buddiesValues| == |buddies|)
    }

    /** Whether `setStyling` finds the diffs it looks up for every buddy. */
    predicate StylesAvailable()
      reads this`buddies, this`buddiesValues
    {
      Available(buddies, buddiesValues)
    }

    predicate Available(bs: seq<Id>, vs: seq<map<string, Calc>>)
    {
      |vs| >= |bs| || (settings.matrixValues == [] && settings.cssValues == [])
    }

    /** The plugin with the state it starts with. */
    constructor (doc: Document, settings: Settings, classes: map<Id, set<string>>)
      requires classes.Keys == doc.looks.Keys
      requires forall id :: id in doc.looks ==> WellShaped(doc.looks[id], settings.cssValues)
      requires forall e :: e in doc.touchEls ==> e in doc.looks
      ensures Valid() && Shaped() && TouchElsKnown()
      ensures this.doc == doc && this.settings == settings && this.classes == classes && inline == map[]
      ensures !touchstart && touchstartX == touchstartY == touchendX == touchendY == 0
      ensures lastDifference.None? && moveDirection == Forward && target.None? && targetValues.None?
      ensures buddies == [] && buddiesValues == [] && !ignore
    {
      this.doc := doc;
      this.settings := settings;
      this.classes := classes;
      inline := map[];
      touchstart := false;
      touchstartX, touchstartY, touchendX, touchendY := 0, 0, 0, 0;
      lastDifference := None;
      moveDirection := Forward;
      target := None;
      targetValues := None;
      buddies := [];
      buddiesValues := [];
      ignore := false;
    }

    /** `resetValues`: the session variables of a gesture back to their
        initial values. */
    method ResetValues()
      requires Valid()
      modifies this
      ensures Valid()
      ensures !touchstart && lastDifference.None? && moveDirection == Forward
      ensures target.None? && targetValues.None? && buddies == [] && buddiesValues == []
      ensures classes == old(classes) && inline == old(inline) && ignore == old(ignore)
      ensures touchstartX == old(touchstartX) && touchstartY == old(touchstartY)
      ensures touchendX == old(touchendX) && touchendY == old(touchendY)
    {
      touchstart := false;
      lastDifference := None;
      moveDirection := Forward;
      target := None;
      targetValues := None;
      buddies := [];
      buddiesValues := [];
    }

    /** The `data-touch-buddies` list of an element. */
    function BuddyList(t: Id): seq<Id>
    {
      if t in doc.buddyLists then doc.buddyLists[t] else []
    }

    /** `getBuddies`: appends the target, then every listed buddy that names
        an element, in listed order. */
    method GetBuddies(known: seq<Id>, t: Id) returns (bs: seq<Id>)
      requires forall b :: b in known ==> b in doc.looks
      ensures bs == known + [t] + Resolve(BuddyList(t), doc.looks.Keys)
      ensures forall b :: b in bs ==> b == t || b in doc.looks
    {
      var list := BuddyList(t);
      bs := known + [t];
      ghost var bs0 := bs;
      var i := 0;
      while i < |list|
        invariant 0 <= i <= |list|
        invariant bs == bs0 + Resolve(list[..i], doc.looks.Keys)
      {
        ResolveStep(list, i, doc.looks.Keys);
        if list[i] in doc.looks {
          assert bs0 + Resolve(list[..i], doc.looks.Keys) + [list[i]] ==
                 bs0 + (Resolve(list[..i], doc.looks.Keys) + [list[i]]);
          bs := bs + [list[i]];
        }
        i := i + 1;
      }
      assert list[..i] == list;
    }

    /** `resetStyle`: clears the target's style, then has `setStyling`
        write each buddy's reverting durations. A buddy without diffs makes
        it throw, after that buddy's style has been cleared. */
    method ResetStyle(inline0: map<Id, Style>, t: Id, bs: seq<Id>, vs: seq<map<string, Calc>>, tv: Option<TargetValues>)
      returns (ok: bool, styles: map<Id, Style>)
      ensures ok <==> Available(bs, vs)
      ensures ok ==> styles == Restyle(inline0 - {t}, bs, vs, settings, tv, Reverting)
      ensures !ok ==> && |vs| < |bs|
                      && styles == Restyle(inline0 - {t}, bs[..|vs|], vs, settings, tv, Reverting) - {bs[|vs|]}
    {
      styles := inline0 - {t};
      ghost var start := styles;
      var i := 0;
      while i < |bs|
        invariant 0 <= i <= |bs|
        invariant i <= |vs| || (settings.matrixValues == [] && settings.cssValues == [])
        invariant styles == Restyle(start, bs[..i], vs, settings, tv, Reverting)
      {
        var b := bs[i];
        var vals := if i < |vs| then Some(vs[i]) else None;
        var s := SetStyling(settings.matrixValues, settings.cssValues, vals, tv, Reverting);
        if s.None? {
          return false, styles - {b};
        }
        RestyleStep(start, bs, i, vs, settings, tv, Reverting);
        ClearThenWrite(styles, b, s.value);
        styles := (styles - {b})[b := s.value];
        i := i + 1;
      }
      assert bs[..i] == bs;
      ok := true;
    }

    /** The loop of `toggle` over the buddies: each is opened or closed
        according to whether the target is open at that step, and given the
        durations of the rest of its transition. */
    method PassBuddies(t: Id, cls0: map<Id, set<string>>, styles0: map<Id, Style>,
                       bs: seq<Id>, vs: seq<map<string, Calc>>, tv: Option<TargetValues>)
      returns (cls: map<Id, set<string>>, styles: map<Id, Style>)
      requires t in cls0 && (forall b :: b in bs ==> b in cls0) && Available(bs, vs)
      ensures cls == BuddyPass(cls0, bs, t, settings.openClass)
      ensures styles == Restyle(styles0, bs, vs, settings, tv, Completing)
    {
      cls, styles := cls0, styles0;
      var i := 0;
      while i < |bs|
        invariant 0 <= i <= |bs|
        invariant cls.Keys == cls0.Keys
        invariant cls == BuddyPass(cls0, bs[..i], t, settings.openClass)
        invariant styles == Restyle(styles0, bs[..i], vs, settings, tv, Completing)
      {
        var b := bs[i];
        BuddyPassStep(cls0, bs, i, t, settings.openClass);
        RestyleStep(styles0, bs, i, vs, settings, tv, Completing);
        if settings.openClass in cls[t] {
          KeysKept(cls, b, Open(cls[b], settings.openClass, t));
          cls := cls[b := Open(cls[b], settings.openClass, t)];
        } else {
          KeysKept(cls, b, Close(cls[b], settings.openClass, t));
          cls := cls[b := Close(cls[b], settings.openClass, t)];
        }
        var vals := if i < |vs| then Some(vs[i]) else None;
        var s := SetStyling(settings.matrixValues, settings.cssValues, vals, tv, Completing);
        styles := styles[b := s.value];
        i := i + 1;
      }
      assert bs[..i] == bs;
    }

    /** `toggle` on the state it reads and writes: takes the target's
        buddies when none are known, clears the styles, flips the target's
        open class, then opens or closes every buddy (recording the target
        as its opener) and gives it the durations of the rest of the
        transition. It throws when a buddy has no diffs to style with. */
    method ToggleState(t: Id, cls0: map<Id, set<string>>, styles0: map<Id, Style>, bs0: seq<Id>,
                       vs: seq<map<string, Calc>>, tv: Option<TargetValues>)
      returns (ok: bool, cls: map<Id, set<string>>, styles: map<Id, Style>, bs: seq<Id>)
      requires cls0.Keys == doc.looks.Keys && t in cls0 && forall b :: b in bs0 ==> b in doc.looks
      ensures cls.Keys == cls0.Keys && forall b :: b in bs ==> b in doc.looks
      ensures bs == if bs0 == [] then [t] + Resolve(BuddyList(t), doc.looks.Keys) else bs0
      ensures ok <==> Available(bs, vs)
      ensures ok ==> && cls == BuddyPass(cls0[t := Flip(cls0[t], settings.openClass)], bs, t, settings.openClass)
                     && styles == ToggledStyles(styles0, t, bs, vs, settings, tv)
      ensures !ok ==> && cls == cls0 && |vs| < |bs|
                      && styles == Restyle(styles0 - {t}, bs[..|vs|], vs, settings, tv, Reverting) - {bs[|vs|]}
    {
      bs := bs0;
      if |bs| == 0 {
        bs := GetBuddies(bs, t);
      }
      ok, styles := ResetStyle(styles0, t, bs, vs, tv);
      if !ok {
        return ok, cls0, styles, bs;
      }
      KeysKept(cls0, t, Flip(cls0[t], settings.openClass));
      cls, styles := PassBuddies(t, cls0[t := Flip(cls0[t], settings.openClass)], styles, bs, vs, tv);
    }

    /** `toggle`, as the public `toggle` calls it. */
    method Toggle(t: Id) returns (ok: bool)
      requires Valid() && t in classes
      modifies this`buddies, this`inline, this`classes
      ensures Valid()
      ensures buddies == if old(buddies) == [] then [t] + Resolve(BuddyList(t), doc.looks.Keys) else old(buddies)
      ensures ok <==> StylesAvailable()
      ensures ok ==> classes == BuddyPass(old(classes)[t := Flip(old(classes)[t], settings.openClass)],
                                          buddies, t, settings.openClass)
      ensures ok ==> inline == ToggledStyles(old(inline), t, buddies, buddiesValues, settings, targetValues)
      ensures !ok ==> && classes == old(classes) && |buddiesValues| < |buddies|
                      && inline == Restyle(old(inline) - {t}, buddies[..|buddiesValues|], buddiesValues, settings,
                                           targetValues, Reverting) - {buddies[|buddiesValues|]}
    {
      var cls, styles, bs;
      ok, cls, styles, bs := ToggleState(t, classes, inline, buddies, buddiesValues, targetValues);
      classes, inline, buddies := cls, styles, bs;
    }

    /** The closing branch of `getTarget`: looks every listed id up in
        order, collecting the open ones; an id that names no element makes
        the lookup throw. */
    method FindControllers(classes: map<Id, set<string>>, list: seq<Id>) returns (missing: bool, controllers: seq<Id>)
      ensures missing <==> exists x :: x in list && x !in classes
      ensures !missing ==> controllers == OpenAmong(list, classes, settings.openClass)
    {
      controllers := [];
      var i := 0;
      while i < |list|
        invariant 0 <= i <= |list|
        invariant forall x :: x in list[..i] ==> x in classes
        invariant controllers == OpenAmong(list[..i], classes, settings.openClass)
      {
        if list[i] !in classes {
          return true, controllers;
        }
        if settings.openClass in classes[list[i]] {
          controllers := controllers + [list[i]];
        }
        assert list[..i + 1][..i] == list[..i];
        i := i + 1;
      }
      assert list[..i] == list;
      missing := false;
    }

    /** What the fallback branch of `getTarget` leaves when a property is
        listed: the first open `[data-touch]` element is toggled with
        freshly taken buddies, which throws after clearing its style; with
        no open element nothing happens. */
    ghost predicate ClosedAll(classes0: map<Id, set<string>>, inline0: map<Id, Style>,
                              cls: map<Id, set<string>>, styles: map<Id, Style>, bs: seq<Id>, threw: bool)
      requires classes0.Keys == doc.looks.Keys && TouchElsKnown()
    {
      if exists e :: e in doc.touchEls && settings.openClass in classes0[e]
      then && threw && cls == classes0 && |bs| > 0
           && styles == inline0 - {bs[0]}
           && bs == [bs[0]] + Resolve(BuddyList(bs[0]), doc.looks.Keys)
           && bs[0] in doc.touchEls && settings.openClass in classes0[bs[0]]
           && forall e :: e in doc.touchEls && settings.openClass in classes0[e] ==>
                e == bs[0] || bs[0] in ElementsBefore(doc.touchEls, e)
      else !threw && cls == classes0 && styles == inline0 && bs == []
    }

    /** The fallback branch of `getTarget`: toggles every open
        `[data-touch]` element in document order, each with freshly taken
        buddies and no diffs. */
    method CloseAll(cls0: map<Id, set<string>>, styles0: map<Id, Style>)
      returns (outcome: Outcome, cls: map<Id, set<string>>, styles: map<Id, Style>, bs: seq<Id>)
      requires cls0.Keys == doc.looks.Keys && TouchElsKnown()
      ensures outcome != Rejected && cls.Keys == cls0.Keys && forall b :: b in bs ==> b in doc.looks
      ensures settings.matrixValues != [] || settings.cssValues != [] ==> ClosedAll(cls0, styles0, cls, styles, bs, outcome == Threw)
    {
      cls, styles, bs := cls0, styles0, [];
      var k := 0;
      while k < |doc.touchEls|
        invariant 0 <= k <= |doc.touchEls|
        invariant cls.Keys == cls0.Keys && forall b :: b in bs ==> b in doc.looks
        invariant settings.matrixValues != [] || settings.cssValues != [] ==>
                    cls == cls0 && styles == styles0 && bs == [] &&
                    forall e :: e in doc.touchEls[..k] ==> settings.openClass !in cls[e]
      {
        var el := doc.touchEls[k];
        if settings.openClass in cls[el] {
          var ok;
          ok, cls, styles, bs := ToggleState(el, cls, styles, [], [], None);
          if !ok {
            FirstOpenTouchEl(doc.touchEls, k, el, cls, settings.openClass);
            assert bs[..0] == [];
            return Threw, cls, styles, bs;
          }
        }
        assert doc.touchEls[..k + 1][..k] == doc.touchEls[..k];
        k := k + 1;
      }
      assert doc.touchEls[..k] == doc.touchEls;
      outcome := Done;
    }

    /** The first half of `getTarget`: a closing element resolves to the
        one open element among those it lists, a controlling element to
        the element it controls, any other element to itself. */
    method ChooseTarget(zone: Id, cls0: map<Id, set<string>>) returns (missing: bool, tgt: Option<Id>)
      requires zone in cls0
      ensures var res := ResolveTarget(doc, cls0, settings.openClass, zone);
              && (missing <==> res.Missing?)
              && (tgt.Some? <==> res.Found?)
              && (res.Found? ==> tgt.value == res.id)
    {
      missing := false;
      if zone in doc.closes {
        var controllerList;
        missing, controllerList := FindControllers(cls0, doc.closes[zone]);
        if missing {
          return true, None;
        }
        tgt := if |controllerList| == 1 then Some(controllerList[0]) else None;
      } else if zone in doc.controls {
        tgt := if doc.controls[zone] in cls0 then Some(doc.controls[zone]) else None;
      } else {
        tgt := Some(zone);
      }
    }

    /** `getTarget`, as `startHandler` calls it: right after `resetValues`,
        with no buddies and no diffs known, on the class state `cls0` and
        the styles `styles0`. */
    method GetTarget(zone: Id, cls0: map<Id, set<string>>, styles0: map<Id, Style>)
      returns (outcome: Outcome, tgt: Option<Id>, cls: map<Id, set<string>>, styles: map<Id, Style>, bs: seq<Id>)
      requires cls0.Keys == doc.looks.Keys && TouchElsKnown() && zone in cls0
      ensures cls.Keys == cls0.Keys && (tgt.Some? ==> tgt.value in doc.looks) && forall b :: b in bs ==> b in doc.looks
      ensures var res := ResolveTarget(doc, cls0, settings.openClass, zone);
              && (res.Missing? ==> outcome == Threw && tgt.None? && bs == [] && cls == cls0 && styles == styles0)
              && (res.Found? ==> outcome == Done && tgt == Some(res.id) &&
                                 bs == [res.id] + Resolve(BuddyList(res.id), doc.looks.Keys) &&
                                 cls == cls0 && styles == styles0)
              && (res.NoTarget? ==> tgt.None? && outcome != Rejected)
              && (res.NoTarget? && (settings.matrixValues != [] || settings.cssValues != []) ==>
                    ClosedAll(cls0, styles0, cls, styles, bs, outcome == Threw))
    {
      cls, styles, bs := cls0, styles0, [];
      var missing;
      missing, tgt := ChooseTarget(zone, cls0);
      if missing {
        return Threw, None, cls, styles, bs;
      }
      if tgt.Some? {
        bs := GetBuddies(bs, tgt.value);
        return Done, tgt, cls, styles, bs;
      }
      outcome, cls, styles, bs := CloseAll(cls0, styles0);
    }

    /** The readings of element `e` in the class state `cls`, and in the
        state the toggle of the open class leads to. */
    function CurrentOf(cls: map<Id, set<string>>, e: Id): Snapshot
      requires e in cls && e in doc.looks
    {
      Current(doc.looks[e], settings.openClass in cls[e])
    }

    function ToggledOf(cls: map<Id, set<string>>, e: Id): Snapshot
      requires e in cls && e in doc.looks
    {
      Toggled(doc.looks[e], settings.openClass in cls[e])
    }

    /** Whether `getTransitionValues(e, t)` runs to its end in the class
        state `cls`. */
    predicate Measures(cls: map<Id, set<string>>, t: Id, e: Id)
      requires t in cls && t in doc.looks && e in cls && e in doc.looks
    {
      && AxisReadable(CurrentOf(cls, t), ToggledOf(cls, t))
      && Diffable(settings.matrixValues, CurrentOf(cls, e), ToggledOf(cls, e))
    }

    /** Whether measuring `e` as an element removes its style attribute:
        every `getCSSValue` does (src/js/bip.js:229), and so does every
        `getMatrixValues` on a state whose transform is not `none` (line
        211). */
    predicate ClearsElement(cls: map<Id, set<string>>, e: Id)
      requires e in cls && e in doc.looks
    {
      || settings.cssValues != []
      || (settings.matrixValues != [] && (CurrentOf(cls, e).matrix.Some? || ToggledOf(cls, e).matrix.Some?))
    }

    /** Whether reading `t` as the calculator removes its style attribute:
        it is read in both states, and a transform of `none` returns before
        the removal. */
    predicate ClearsCalculator(cls: map<Id, set<string>>, t: Id)
      requires t in cls && t in doc.looks
    {
      CurrentOf(cls, t).matrix.Some? || ToggledOf(cls, t).matrix.Some?
    }

    /** The styles after `getTransitionValues` has read each element of
        `es`, with the calculator `t`, in the class state `cls`. */
    function AfterMeasuring(styles: map<Id, Style>, cls: map<Id, set<string>>, t: Id, es: seq<Id>): (r: map<Id, Style>)
      requires t in cls && t in doc.looks && forall e :: e in es ==> e in cls && e in doc.looks
      ensures r.Keys <= styles.Keys && forall e :: e in r ==> r[e] == styles[e]
      ensures forall e :: e in es && ClearsElement(cls, e) ==> e !in r
      ensures es != [] && ClearsCalculator(cls, t) ==> t !in r
      ensures forall e :: e in styles && e !in es && e != t ==> e in r
      ensures forall e :: e in r <==>
                e in styles && !(e in es && ClearsElement(cls, e)) && !(es != [] && ClearsCalculator(cls, t) && e == t)
    {
      var cleared := set e | e in es && ClearsElement(cls, e);
      styles - cleared - (if es != [] && ClearsCalculator(cls, t) then {t} else {})
    }

    /** The diffs taken for the buddies with the calculator `t`, read in the
        class state `cls`. */
    ghost predicate Measured(bs: seq<Id>, vs: seq<map<string, Calc>>, cls: map<Id, set<string>>, t: Id)
      requires t in cls && t in doc.looks
    {
      && |vs| == |bs|
      && forall i :: 0 <= i < |bs| ==>
           && bs[i] in cls && bs[i] in doc.looks && Measures(cls, t, bs[i])
           && DiffsOf(vs[i], settings.matrixValues, settings.cssValues, CurrentOf(cls, bs[i]), ToggledOf(cls, bs[i]))
    }

    /** The loop of `startHandler` taking the diffs of every buddy, with the
        target as calculator; it stops at the first buddy whose measuring
        throws. */
    method MeasureBuddies(bs: seq<Id>, cls: map<Id, set<string>>, t: Id) returns (ok: bool, vs: seq<map<string, Calc>>)
      requires t in cls && t in doc.looks && forall b :: b in bs ==> b in cls && b in doc.looks
      ensures ok <==> |vs| == |bs|
      ensures |vs| <= |bs| && Measured(bs[..|vs|], vs, cls, t)
      ensures !ok ==> !Measures(cls, t, bs[|vs|])
    {
      vs := [];
      var i := 0;
      while i < |bs|
        invariant 0 <= i <= |bs| && |vs| == i
        invariant Measured(bs[..i], vs, cls, t)
      {
        var b := bs[i];
        var vals := TransitionValues(settings.matrixValues, settings.cssValues, CurrentOf(cls, t), ToggledOf(cls, t),
                                     CurrentOf(cls, b), ToggledOf(cls, b));
        if vals.None? {
          return false, vs;
        }
        vs := vs + [vals.value];
        i := i + 1;
        assert bs[..i][..i - 1] == bs[..i - 1];
      }
      assert bs[..i] == bs;
      ok := true;
    }

    /** `getValues` for the target `t` in the class state `cls`, when it
        runs to its end. */
    function TargetValuesIn(cls: map<Id, set<string>>, t: Id): TargetValues
      requires Shaped() && t in cls && t in doc.looks
      requires ValuesReadable(settings.matrixValues, settings.cssValues, CurrentOf(cls, t), ToggledOf(cls, t))
    {
      assert WellShaped(doc.looks[t], settings.cssValues);
      GetValues(ReadingOf(CurrentOf(cls, t), "translate"), ReadingOf(ToggledOf(cls, t), "translate"))
    }

    /** What a session started on gesture zone `zone` leaves, from the
        class state `cls0` and the styles `styles0`: the target `getTarget`
        resolves (throwing on a closer that names a missing element, or
        closing every open `[data-touch]` element when it finds none); unless
        that target is mid transition, its measurements (or the throw of
        `getValues`), the diffs of its buddies up to the first one whose
        measuring throws, the styles that measuring removed (the target's,
        then those of the buddies up to and including the one that threw),
        and, when all were measured, the dragging mark on it. */
    ghost predicate Started(zone: Id, cls0: map<Id, set<string>>, styles0: map<Id, Style>, outcome: Outcome,
                            tgt: Option<Id>, cls: map<Id, set<string>>, styles: map<Id, Style>, bs: seq<Id>,
                            vs: seq<map<string, Calc>>, tv: Option<TargetValues>)
      requires cls0.Keys == doc.looks.Keys && Shaped() && TouchElsKnown() && zone in cls0
    {
      var res := ResolveTarget(doc, cls0, settings.openClass, zone);
      && (res.Missing? ==>
            outcome == Threw && tgt.None? && cls == cls0 && styles == styles0 && bs == [] && vs == [] && tv.None?)
      && (res.NoTarget? ==> outcome != Done && tgt.None? && vs == [] && tv.None?)
      && (res.NoTarget? && (settings.matrixValues != [] || settings.cssValues != []) ==>
            ClosedAll(cls0, styles0, cls, styles, bs, outcome == Threw))
      && (res.Found? ==>
            var t := res.id;
            && t in doc.looks && tgt == Some(t)
            && bs == [t] + Resolve(BuddyList(t), doc.looks.Keys)
            && (settings.transitioningClass in cls0[t] ==>
                  outcome == Rejected && cls == cls0 && styles == styles0 && vs == [] && tv.None?)
            && (settings.transitioningClass !in cls0[t] &&
                !ValuesReadable(settings.matrixValues, settings.cssValues, CurrentOf(cls0, t), ToggledOf(cls0, t)) ==>
                  && outcome == Threw && cls == cls0 && vs == [] && tv.None?
                  && styles == AfterMeasuring(styles0, cls0, t, [t]))
            && (settings.transitioningClass !in cls0[t] &&
                ValuesReadable(settings.matrixValues, settings.cssValues, CurrentOf(cls0, t), ToggledOf(cls0, t)) ==>
                  && tv == Some(TargetValuesIn(cls0, t))
                  && |vs| <= |bs| && Measured(bs[..|vs|], vs, cls0, t)
                  && styles == AfterMeasuring(styles0, cls0, t, bs[..if |vs| < |bs| then |vs| + 1 else |bs|])
                  && (outcome == Done <==> |vs| == |bs|)
                  && (outcome != Done ==> outcome == Threw && cls == cls0 && !Measures(cls0, t, bs[|vs|]))
                  && (outcome == Done ==> cls == cls0[t := cls0[t] + {settings.touchmoveClass}])))
    }

    /** The part of `startHandler` after the gesture zone and the ignore
        zones are checked, on the state it reads and writes. */
    method StartSession(zone: Id, cls0: map<Id, set<string>>, styles0: map<Id, Style>)
      returns (outcome: Outcome, tgt: Option<Id>, cls: map<Id, set<string>>, styles: map<Id, Style>, bs: seq<Id>,
               vs: seq<map<string, Calc>>, tv: Option<TargetValues>)
      requires cls0.Keys == doc.looks.Keys && Shaped() && TouchElsKnown() && zone in cls0
      ensures cls.Keys == cls0.Keys && (tgt.Some? ==> tgt.value in doc.looks) && forall b :: b in bs ==> b in doc.looks
      ensures outcome == Done ==> tgt.Some? && tv.Some? && |bs| > 0 && |vs| == |bs|
      ensures Started(zone, cls0, styles0, outcome, tgt, cls, styles, bs, vs, tv)
    {
      outcome, tgt, cls, styles, bs := GetTarget(zone, cls0, styles0);
      vs, tv := [], None;
      if outcome == Threw || tgt.None? || settings.transitioningClass in cls[tgt.value] {
        if outcome != Threw {
          outcome := Rejected;
        }
        return;
      }
      var t := tgt.value;
      assert WellShaped(doc.looks[t], settings.cssValues);
      tv := MeasureValues(settings.matrixValues, settings.cssValues, CurrentOf(cls, t), ToggledOf(cls, t));
      if tv.None? {
        styles := AfterMeasuring(styles, cls, t, [t]);
        outcome := Threw;
        return;
      }
      var ok;
      ok, vs := MeasureBuddies(bs, cls, t);
      styles := AfterMeasuring(styles, cls, t, bs[..if ok then |bs| else |vs| + 1]);
      if !ok {
        outcome := Threw;
        return;
      }
      KeysKept(cls, t, cls[t] + {settings.touchmoveClass});
      cls := cls[t := cls[t] + {settings.touchmoveClass}];
      outcome := Done;
    }

    /** Records a session begun at (`x`, `y`) outside every ignore zone with
        what `StartSession` computed, in one step. */
    method Begin(x: int, y: int, started: bool, tgt: Option<Id>, tv: Option<TargetValues>, bs: seq<Id>,
                 vs: seq<map<string, Calc>>, cls: map<Id, set<string>>, styles: map<Id, Style>)
      modifies this`touchstartX, this`touchstartY, this`lastDifference, this`moveDirection, this`touchstart
      modifies this`target, this`targetValues, this`buddies, this`buddiesValues, this`classes, this`inline, this`ignore
      ensures !ignore && touchstartX == x && touchstartY == y && lastDifference.None? && moveDirection == Forward
      ensures touchstart == started && target == tgt && targetValues == tv && buddies == bs && buddiesValues == vs
      ensures classes == cls && inline == styles
    {
      ignore, touchstartX, touchstartY, lastDifference, moveDirection := false, x, y, None, Forward;
      touchstart, target, targetValues, buddies, buddiesValues, classes, inline := started, tgt, tv, bs, vs, cls, styles;
    }

    /** `startHandler`: outside every gesture zone it does nothing; inside an
        ignore zone it only records that; otherwise it resets the session
        variables, records where the pointer went down and starts a new
        session. */
    method StartHandler(zone: Option<Id>, inIgnoreZone: bool, x: int, y: int) returns (outcome: Outcome)
      requires Valid() && Shaped() && TouchElsKnown() && (zone.Some? ==> zone.value in classes)
      modifies this`ignore, this`touchstart, this`touchstartX, this`touchstartY, this`lastDifference, this`moveDirection
      modifies this`target, this`targetValues, this`buddies, this`buddiesValues, this`classes, this`inline
      ensures Valid()
      ensures zone.None? ==> outcome == Rejected && unchanged(this)
      ensures zone.Some? && inIgnoreZone ==>
                && outcome == Rejected && ignore
                && unchanged(this`classes, this`inline, this`touchstart, this`touchstartX, this`touchstartY)
                && unchanged(this`lastDifference, this`moveDirection)
                && unchanged(this`target, this`targetValues, this`buddies, this`buddiesValues)
      ensures zone.Some? && !inIgnoreZone ==>
                && !ignore && touchstartX == x && touchstartY == y
                && lastDifference.None? && moveDirection == Forward && (touchstart <==> outcome == Done)
                && Started(zone.value, old(classes), old(inline), outcome, target, classes, inline, buddies,
                           buddiesValues, targetValues)
    {
      if zone.None? {
        return Rejected;
      }
      if inIgnoreZone {
        ignore := true;
        return Rejected;
      }
      var tgt, cls, styles, bs, vs, tv;
      outcome, tgt, cls, styles, bs, vs, tv := StartSession(zone.value, classes, inline);
      Begin(x, y, outcome == Done, tgt, tv, bs, vs, cls, styles);
    }

    /** The guards shared by `moveHandler` and `endHandler`. */
    predicate Active()
      reads this
      requires Valid()
    {
      touchstart && target.Some? && !ignore && settings.transitioningClass !in classes[target.value]
    }

    /** `moveHandler`: inside an active session, records the displacement
        with a 10-unit hysteresis, updates the direction while the pointer
        keeps the target inside its travel, and then has every buddy that
        follows this target's gesture follow the pointer. */
    method MoveHandler(x: int, y: int) returns (outcome: Outcome)
      requires Valid()
      modifies this`lastDifference, this`moveDirection, this`targetValues, this`inline
      ensures Valid()
      ensures outcome == Rejected <==> !old(Active())
      ensures outcome == Rejected ==> unchanged(this)
      ensures outcome == Done ==>
                var tv := old(targetValues).value;
                var difference := if tv.axis == X then GetDifference(touchstartX, x) else GetDifference(touchstartY, y);
                var translated := if tv.axis == X then x - (touchstartX - tv.from) else y - (touchstartY - tv.from);
                var isBetween := Between(translated, tv.from, tv.to, true);
                && lastDifference == Some(NextLastDifference(old(lastDifference), difference))
                && moveDirection == NextDirection(old(moveDirection), isBetween, difference, lastDifference.value)
                && (!isBetween ==> targetValues == old(targetValues) && inline == old(inline))
                && (isBetween ==>
                      targetValues == Some(WithMoved(tv, GetDifference(x, touchstartX), GetDifference(y, touchstartY))) &&
                      inline == FollowGesture(old(inline), buddies, buddiesValues, classes, target.value, settings, targetValues))
      ensures outcome != Threw
    {
      if !Active() {
        return Rejected;
      }
      var tv := targetValues.value;
      var translated := if tv.axis == X then x - (touchstartX - tv.from) else y - (touchstartY - tv.from);
      var difference := if tv.axis == X then GetDifference(touchstartX, x) else GetDifference(touchstartY, y);
      var isBetween := Between(translated, tv.from, tv.to, true);
      if lastDifference.None? || GetDifference(difference, lastDifference.value) > 10 {
        lastDifference := Some(difference);
      }
      if isBetween && difference > lastDifference.value {
        moveDirection := Forward;
      } else if isBetween && difference < lastDifference.value {
        moveDirection := Backward;
      }
      if isBetween {
        TransitionWithGesture(x, y);
      }
      outcome := Done;
    }

    /** `transitionWithGesture`: records the displacement on both axes and
        restyles, with the target's values, every buddy that nothing else
        holds open. */
    method TransitionWithGesture(x: int, y: int)
      requires Valid() && touchstart
      modifies this`targetValues, this`inline
      ensures Valid()
      ensures targetValues == Some(WithMoved(old(targetValues).value, GetDifference(x, touchstartX), GetDifference(y, touchstartY)))
      ensures inline == FollowGesture(old(inline), buddies, buddiesValues, classes, target.value, settings, targetValues)
    {
      var tv := Some(WithMoved(targetValues.value, GetDifference(x, touchstartX), GetDifference(y, touchstartY)));
      var t, bs, vs, cls := target.value, buddies, buddiesValues, classes;
      var styles := inline;
      ghost var styles0 := styles;
      var i := 0;
      while i < |bs|
        invariant 0 <= i <= |bs|
        invariant forall b :: b in bs ==> b in cls
        invariant styles == FollowGesture(styles0, bs[..i], vs, cls, t, settings, tv)
      {
        var b := bs[i];
        if FollowsGesture(cls[b], t) {
          var s := SetStyling(settings.matrixValues, settings.cssValues, Some(vs[i]), tv, Live);
          styles := styles[b := s.value];
        }
        assert bs[..i + 1][..i] == bs[..i];
        i := i + 1;
      }
      assert bs[..i] == bs;
      targetValues, inline := tv, styles;
    }

    /** Whether the release at the recorded end point commits the
        gesture: far enough forward, or not moved at all. */
    function Committing(): bool
      reads this`touchstartX, this`touchstartY, this`touchendX, this`touchendY, this`targetValues, this`moveDirection
      requires targetValues.Some?
    {
      var tv := targetValues.value;
      var diff := if tv.axis == X then GetDifference(touchendX, touchstartX) else GetDifference(touchendY, touchstartY);
      Commits(diff, tv.difference, settings.threshold, moveDirection)
    }

    /** `handleGesture` on the state it writes: marks the target as
        transitioning, toggles it when the release commits and otherwise
        only resets the styles, then removes the dragging mark. */
    method SettleGesture() returns (committed: bool, cls: map<Id, set<string>>, styles: map<Id, Style>)
      requires Valid() && touchstart
      ensures committed == Committing()
      ensures cls == Settled(classes, buddies, target.value, settings, committed)
      ensures committed ==> styles == ToggledStyles(inline, target.value, buddies, buddiesValues, settings, targetValues)
      ensures !committed ==> styles == Restyle(inline - {target.value}, buddies, buddiesValues, settings, targetValues, Reverting)
    {
      var t := target.value;
      KeysKept(classes, t, classes[t] + {settings.transitioningClass});
      cls := classes[t := classes[t] + {settings.transitioningClass}];
      committed := Committing();
      var ok, bs;
      if committed {
        ok, cls, styles, bs := ToggleState(t, cls, inline, buddies, buddiesValues, targetValues);
      } else {
        ok, styles := ResetStyle(inline, t, buddies, buddiesValues, targetValues);
      }
      KeysKept(cls, t, cls[t] - {settings.touchmoveClass});
      cls := cls[t := cls[t] - {settings.touchmoveClass}];
    }

    /** `handleGesture`. */
    method HandleGesture() returns (committed: bool)
      requires Valid() && touchstart
      modifies this`classes, this`inline
      ensures Valid()
      ensures committed == Committing()
      ensures classes == Settled(old(classes), buddies, target.value, settings, committed)
      ensures committed ==> inline == ToggledStyles(old(inline), target.value, buddies, buddiesValues, settings, targetValues)
      ensures !committed ==> inline == Restyle(old(inline) - {target.value}, buddies, buddiesValues, settings, targetValues, Reverting)
    {
      var cls, styles;
      committed, cls, styles := SettleGesture();
      classes, inline := cls, styles;
    }

    /** `endHandler`: inside an active session, records where the pointer
        was released and settles the gesture. */
    method EndHandler(x: int, y: int) returns (outcome: Outcome, committed: bool)
      requires Valid()
      modifies this`touchendX, this`touchendY, this`classes, this`inline
      ensures Valid()
      ensures outcome == Rejected <==> !old(Active())
      ensures outcome == Rejected ==> unchanged(this) && !committed
      ensures outcome == Done ==> touchstart && target.Some? && targetValues.Some?
      ensures outcome == Done ==> touchendX == x && touchendY == y && committed == Committing()
      ensures outcome == Done ==> classes == Settled(old(classes), buddies, target.value, settings, committed)
      ensures outcome == Done && committed ==>
                inline == ToggledStyles(old(inline), target.value, buddies, buddiesValues, settings, targetValues)
      ensures outcome == Done && !committed ==>
                inline == Restyle(old(inline) - {target.value}, buddies, buddiesValues, settings, targetValues, Reverting)
      ensures outcome == Done ==> settings.touchmoveClass !in classes[target.value]
      ensures outcome == Done && settings.transitioningClass != settings.openClass &&
              settings.transitioningClass != settings.touchmoveClass && !IsOpener(settings.transitioningClass) ==>
                settings.transitioningClass in classes[target.value]
      ensures outcome != Threw
    {
      committed := false;
      if !Active() {
        return Rejected, committed;
      }
      touchendX, touchendY := x, y;
      committed := HandleGesture();
      SettledMarks(old(classes), buddies, target.value, settings, committed);
      outcome := Done;
    }
  }
}
