# bip gesture core in Dafny

This project models the gesture logic of the `bip` ("bottom in place")
plugin, `src/js/bip.js`. The plugin lets a drag or a click open and close
a panel. The panel's "buddies" follow the pointer while it is dragged.
When the pointer is released, each buddy either finishes the transition
or falls back.

The browser is replaced by plain data:

- Elements are named by their `data-touch-id`.
- Each element has a class set and a *look*: the transform and CSS
  readings it shows while closed and while open. The look stands in for
  what the plugin measures by toggling `openClass` back and forth.
- A state whose computed transform is `none` has no transform readings
  at all; `getMatrixValues` returns `false` for it (src/js/bip.js:158).
  A `translate` reading always has both coordinates.
- The `data-touch-controls`, `data-touch-closes` and `data-touch-buddies`
  attributes are given already split.
- Inline styles are values: a list of (property, x, y) transforms plus CSS
  writes while the target follows the pointer, or a list of per-property
  durations once it is released.

The modules follow the source:

- `Common`: `between`, `getDifference` and `calculateDifference`.
- `Timing`: `getTransitionValue`.
- `Equivalence`: `isEquivalent` over JavaScript objects.
- `Geometry`: `getCalculations`, the axis choice and the diff collection
  of `getTransitionValues`, and `getValues`.
- `Progress`: `calculateMultiplier`, plus the interpolation and
  remaining-duration arithmetic of `setStyling`.
- `Styling`: `setStyling`.
- `Openers`: the `openedby:<id>` bookkeeping of `toggle`.
- `Gesture`: the session.
  - Class `Session` holds the plugin's module-level variables as fields.
  - Its methods cover `startHandler`, `moveHandler`, `endHandler`,
    `handleGesture`, `toggle`, `resetStyle`, `getTarget`, `getBuddies`,
    `resetValues` and `transitionWithGesture`.

A JavaScript `TypeError` is modelled as an outcome:

- `Threw` from a handler.
- `None` from `SetStyling`, `TransitionValues` and `MeasureValues`.
- `ok == false` from `Toggle`.

`NaN` and `Infinity` from a division by zero are modelled as an absent
value. Reals are exact.

Three quirks of the code are reproduced as written:

- `getCalculations` never returns `false`: its zero-difference test reads
  `ydifference`, which that branch never assigns. An unchanged CSS
  property is dropped only by `isEquivalent`.
- When the toggled state's transform is `none`, `getCalculations` skips
  its two-dimensional branch and keeps a diff without usable readings or
  timing (`Untimed`). Its multiplier is `NaN`, so it emits no transform
  and gets no number as duration.
- The release test `diff > threshold` is strict, so a drag of exactly the
  threshold reverts.

A behaviour of the code that the model keeps, and that its contracts make
visible:

- `toggle` hands each buddy `buddiesValues[i]`, and that entry is missing
  whenever fewer diffs than buddies were measured. `setStyling` then reads
  a property of `undefined` and throws, unless no property is configured
  at all.
- Two paths hit this: a programmatic `toggle` outside a drag, and the
  close-everything fallback of `getTarget`. The fallback empties
  `buddies` and never measures.
- The fallback therefore throws on the first open `[data-touch]` element,
  after that element's inline style is cleared. No class changes.
- `Gesture.Session.Toggle`, `Gesture.Session.CloseAll` and
  `Gesture.Session.StartHandler` state this outcome exactly.

## Model

| member | source | states |
|---|---|---|
| Common.ContainsIffOccurs | src/js/bip.js:245 | `includes` holds exactly when the searched text occurs at some position of the string |
| Common.GetDifference | src/js/bip.js:256-258 | the result is the non-negative distance: adding it to the smaller operand gives the larger |
| Common.CalculateDifference | src/js/bip.js:264-268 | the magnitude is non-negative, zero exactly when the two readings are equal, and stepping it from `from` toward `to` lands on `to` |
| Common.Between | src/js/bip.js:141-145 | the inclusive test holds exactly when the value lies between the bounds in either order; the exclusive test does the same with strict bounds |
| Common.BetweenSymmetric | src/js/bip.js:141-145 | the inclusive test ignores the order of its bounds, admits both bounds, and is implied by the exclusive test |
| Timing.LastMatch | src/js/bip.js:244-248 | absent exactly when no `transition` entry contains the property name; otherwise the index of a matching entry after which no entry matches |
| Timing.GetTransitionValue | src/js/bip.js:240-250 | 0 when no entry of the transition list names the property; otherwise 1000 times the value at the last matching index, and `NaN` when that index is past the value list |
| Equivalence.IsEquivalent | src/js/bip.js:276-283 | objects with different numbers of own properties are never equivalent |
| Equivalence.SameValuesMeaning | src/js/bip.js:285-293 | the loop passes exactly when every listed property has the same value in both objects |
| Equivalence.IsEquivalentReflexive | src/js/bip.js:274-298 | every object is equivalent to itself |
| Equivalence.IsEquivalentMismatch | src/js/bip.js:285-293 | a property of `a` whose value differs in `b` makes the objects not equivalent |
| Equivalence.IsEquivalentNotSymmetric | src/js/bip.js:274-298 | a property of `a` that `b` lacks still matches when its value is `undefined`, so the test is not symmetric |
| Equivalence.IsEquivalentIsEquality | src/js/bip.js:274-298 | for objects without `undefined` values and without repeated names, equivalence is equality of their property maps |
| Geometry.MatrixCalculations | src/js/bip.js:304-321 | for a transform function read in both states: x gives `dir` up exactly when `from.x < to.x`, and `difference` is the distance, reaching `to.x` from `from.x`; y gets `ydir`/`ydifference` the same way, or down and 0 when a reading has no y; the unit is the toggled (`to`) reading's; delay and duration come from the toggled reading unless it is 0, then from the current (`from`) one, so a closing gesture takes the closed state's timing |
| Geometry.MatrixDiff | src/js/bip.js:304-321 | on what `getMatrixValues` returned: with no transform in the toggled state the diff is `Untimed`; otherwise there is a diff exactly when both states decompose the function (it throws otherwise), and it is the one `MatrixCalculations` builds from the two readings |
| Geometry.CssCalculations | src/js/bip.js:304-324 | always produces a diff (the `false` return is never taken); its direction, distance and fallback timing have the same meaning as above |
| Geometry.CssEquivalentIffEqual | src/js/bip.js:379 | two CSS readings are `isEquivalent` exactly when they are equal, so only a changed CSS property gets a diff |
| Geometry.UnchangedReadingsStillDiffed | src/js/bip.js:315-323 | an unchanged transform or CSS reading still yields a diff, with distance 0 |
| Geometry.GetValues | src/js/bip.js:463-478 | (the axis choice of `getTransitionValues`, src/js/bip.js:360-363) the axis is x exactly when the truncated x positions of the closed and open translate differ; `from`/`to` are the truncated positions on that axis, and `difference` is their distance, zero exactly when they agree; timing is taken from the translate diff, with total = delay + duration |
| Geometry.MeasureValues | src/js/bip.js:463-478 | `getValues` runs to its end exactly when `getTransitionValues` does and its value set has a `translate` entry; it then returns the travel and timing `GetValues` computes from the two translate readings |
| Geometry.TransitionValues | src/js/bip.js:330-385 | throws exactly when the calculator lacks a translate reading in either state or some listed transform function throws; otherwise every listed transform function has its `MatrixDiff`, a CSS property has a diff exactly when its two readings differ (and then takes the place of a transform diff of the same name), and nothing else has one |
| Geometry.MatrixDiffs | src/js/bip.js:372-377 | the loop over the transform functions throws exactly when one of them does; otherwise it gives every listed function, and nothing else, the diff `MatrixDiff` builds |
| Geometry.CssDiffs | src/js/bip.js:378-385 | the CSS loop's diffs cover exactly the listed properties read in both states whose readings differ, each the one `getCalculations` builds |
| Geometry.AddCssDiffs | src/js/bip.js:378-385 | after the CSS loop, the value set is the transform diffs overwritten by the kept CSS diffs |
| Geometry.MatrixThenCss | src/js/bip.js:372-385 | the transform diffs overwritten by the kept CSS diffs are exactly the value set `getTransitionValues` keeps |
| Progress.CalculateMultiplier | src/js/bip.js:484-494 | a number exactly when the diff has timing (an `Untimed` one gives `NaN`), a move has been recorded (a recorded move of (0, 0) included), the travel is non-zero, the total duration is non-zero and the resolved duration is non-zero; that number always lies in [0, 1] |
| Progress.DriveFractionIsRatio | src/js/bip.js:486 | the drag factor is the distance moved along the axis divided by the travel |
| Progress.MultiplierIsWindowShare | src/js/bip.js:486-493 | the factor is the clamped share of the property's own delay-to-delay+duration window that the drag has covered |
| Progress.LaterDelayLags | src/js/bip.js:484-494 | of two properties with the same duration, the one with the later delay is never further along |
| Progress.FurtherDragNeverLowers | src/js/bip.js:484-494 | dragging further along the axis never lowers any property's factor |
| Progress.RestAndFullDrag | src/js/bip.js:484-494 | before the pointer moves, a property with a non-negative delay is at 0; at a full drag a property whose window ends at the total duration is at 1 |
| Progress.StaggeredOpacityLags | src/js/bip.js:484-494 | a concrete staggered pair under a target translate running from 0 ms for 400 ms: three quarters through the drag, a transform running from 0 ms for 400 ms is at 0.75 while an opacity delayed to 200 ms is only at 0.25 |
| Progress.Interpolate | src/js/bip.js:509 | with the diff's own distance as `difference`, the up/down step of `setStyling` is the straight line `from + (to - from)·m` |
| Progress.InterpolateEndpoints | src/js/bip.js:509-510 | factor 0 gives `from`, factor 1 gives `to`, and any factor in [0, 1] stays between them; the CSS interpolation at lines 534-538 is the same function |
| Progress.RemainingDuration | src/js/bip.js:524 | for a factor in [0, 1] the release duration lies within the total; a property that has not started takes the whole total to complete and none to revert (the CSS durations at line 541 use the same rule) |
| Progress.RemainingDurationMatchesDistance | src/js/bip.js:524 | the completing duration is the total scaled by the share of the distance still to go, and the reverting one by the share already covered; the two add up to the total |
| Styling.SetStyling | src/js/bip.js:500-557 | throws exactly when the buddy has no diffs but some property is configured; otherwise the written style is the one the diffs, the factor and the mode determine |
| Styling.TransformsAreInterpolations | src/js/bip.js:505-517 | every emitted transform belongs to a configured function with a diff whose factor is a number in (0, 1], and is that diff's interpolation at that factor |
| Styling.TransformsFollowReadings | src/js/bip.js:505-517 | on the diffs `getTransitionValues` measured, every emitted transform of a function without a kept CSS diff lies on the straight line from the element's current reading to its toggled reading, at its factor in (0, 1]; its y is left out exactly when a reading has no y or the line's y is 0 there |
| Styling.NoTransformsAtRest | src/js/bip.js:508 | with the pointer not yet moved, no transform is emitted |
| Openers.Open | src/js/bip.js:616 | the buddy gains `openClass` and `openedby:<id>`, and no other class changes |
| Openers.Close | src/js/bip.js:618-622 | the buddy loses `openedby:<id>`, does not gain `openClass`, and no other class changes |
| Openers.FollowsGesture | src/js/bip.js:572-573 | a buddy follows exactly when every `openedby:` class it carries is this controller's mark |
| Openers.OpenCloseMeaning | src/js/bip.js:614-623 | opening adds `openClass` and `openedby:<id>`; closing removes `openedby:<id>` and keeps `openClass` exactly when it was there and another opener remains; no other class changes |
| Openers.OpenCloseIdempotent | src/js/bip.js:614-623 | opening twice or closing twice for the same controller is the same as doing it once |
| Openers.SharedBuddyClosesWithLastOpener | src/js/bip.js:614-623 | a buddy opened by two controllers stays open when either closes it, and is closed when both have |
| Openers.TagInjective | src/js/bip.js:616 | distinct controllers leave distinct `openedby:` marks |
| Gesture.Resolve | src/js/bip.js:447-453 | keeps exactly the listed ids that name an element, and is no longer than the list |
| Gesture.OpenAmong | src/js/bip.js:403-408 | keeps exactly the listed ids whose element is open |
| Gesture.ResolveTarget | src/js/bip.js:394-416 | a resolved target is an element of the document, or the touched element itself |
| Gesture.CloserResolvesToSingleOpen | src/js/bip.js:400-413 | a closing element resolves only to an open element it lists, and only when no other listed element is open |
| Gesture.BuddyPassUniform | src/js/bip.js:613-623 | the buddy loop opens every buddy when the target is open after its flip, and closes every buddy otherwise |
| Gesture.BuddyPassKeepsOtherClasses | src/js/bip.js:613-623 | the buddy loop changes no class other than `openClass` and the `openedby:` marks |
| Gesture.ToggleOpensOrClosesBuddies | src/js/bip.js:609-623 | when the target becomes open, every buddy gets `openClass` and the target's mark; when it becomes closed, every buddy loses the mark and keeps `openClass` exactly when another opener remains |
| Gesture.FollowSkipsForeignOpened | src/js/bip.js:571-576 | a buddy held open by another controller is never restyled by this target's drag |
| Gesture.Commits | src/js/bip.js:664 | a click always commits; a backward drag commits only as a click; a drag no further than the threshold share of the travel commits only as a click; a forward drag beyond it commits |
| Gesture.CommitAtThreshold | src/js/bip.js:664 | with a 300 px travel and threshold 0.2: 61 px forward commits, exactly 60 px reverts, any backward drag reverts, a click commits |
| Gesture.NextLastDifference | src/js/bip.js:783-785 | the recorded displacement is replaced when none was recorded or it differs by more than 10; otherwise the old record is kept |
| Gesture.NextDirection | src/js/bip.js:788-792 | inside the travel, a displacement beyond the record turns the direction forward and one short of it backward; the direction changes only inside the travel and off the record |
| Gesture.DirectionHoldsWhenRecordReplaced | src/js/bip.js:783-792 | on a step that replaces the record, the direction does not change |
| Gesture.SettledMarks | src/js/bip.js:656-674 | after release the target has lost `touchmoveClass` and carries `transitioningClass`; a revert changes no other element's classes |
| Gesture.Session.constructor | src/js/bip.js:44-56 | a fresh session is idle: not touching, no target, no buddies, no diffs, direction forward; it asks only that the class map covers the document, the touch elements exist, translate readings have both coordinates and every listed CSS property has a computed value |
| Gesture.Session.ResetValues | src/js/bip.js:584-592 | clears the session's gesture state and leaves classes, styles, coordinates and the ignore flag alone |
| Gesture.Session.GetBuddies | src/js/bip.js:437-457 | the buddy list is the existing list, then the target, then its listed buddies that exist, in listed order |
| Gesture.Session.FindControllers | src/js/bip.js:403-408 | reports a listed id without an element (the lookup that throws); otherwise returns exactly the open listed elements, in order |
| Gesture.Session.ResetStyle | src/js/bip.js:642-650 | succeeds exactly when every buddy has its diffs; the target's style is cleared and every buddy gets its reverting durations; on failure the buddies before the first one without diffs are restyled and that one's style is cleared |
| Gesture.Session.PassBuddies | src/js/bip.js:613-626 | the buddy loop of `toggle` leaves the classes of the buddy pass (each buddy opened or closed by the target's state) and gives every buddy its completing durations |
| Gesture.Session.ToggleState | src/js/bip.js:599-626 | buddies are taken when none are known; with every buddy's diffs present the target flips and the buddy loop runs, otherwise it throws with no class changed and the styles left as the failed reset leaves them |
| Gesture.Session.Toggle | src/js/bip.js:599-626 | the same, on the session's own classes, styles and buddies; on a throw the classes are unchanged and the styles are those of the interrupted reset; it is also the public `toggle` (lines 824-826) |
| Gesture.Session.CloseAll | src/js/bip.js:421-427 | when a property is configured: with no open `[data-touch]` element nothing changes; otherwise it throws on the first open one in document order, after clearing its style |
| Gesture.Session.ChooseTarget | src/js/bip.js:394-416 | reports a missing closer entry, and otherwise returns exactly the target `getTarget` resolves to |
| Gesture.Session.GetTarget | src/js/bip.js:394-431 | a resolved target gets its buddies; no target runs the close-all fallback; a missing closer entry throws |
| Gesture.Session.MeasureBuddies | src/js/bip.js:746-748 | measures the buddies in order with the target as calculator, each getting exactly the value set `getTransitionValues` keeps; it completes exactly when no measuring throws, and otherwise stops at the first buddy whose measuring throws |
| Gesture.Session.AfterMeasuring | src/js/bip.js:340-356 | measuring removes the style attribute of every measured element that has a CSS property or a transform to read, and of the calculator unless its transform is `none` in both states; an element keeps its style exactly when none of these removals applies to it, unchanged |
| Gesture.Session.StartSession | src/js/bip.js:736-756 | the session starts exactly on a resolved target that is not transitioning and whose measuring does not throw; the target then carries `touchmoveClass`, its travel is what `getValues` measures, and every buddy has the diffs between its current and its toggled look; a throwing `getValues` or buddy measuring leaves the classes unchanged; the styles are those measuring leaves: the target's and those of the buddies measured up to and including one that throws are removed |
| Gesture.Session.StartHandler | src/js/bip.js:715-760 | outside a gesture zone nothing changes; in an ignore zone only the flag is set; otherwise the values are reset, the start point is recorded, the classes and styles are those `StartSession` leaves, and the session is active exactly when it started |
| Gesture.Session.MoveHandler | src/js/bip.js:766-798 | rejected exactly when no session is active, and then nothing changes; otherwise it applies the hysteresis and the direction rule, and restyles only while the pointer keeps the target within its travel |
| Gesture.Session.TransitionWithGesture | src/js/bip.js:563-577 | records the distance moved on both axes, and restyles exactly the buddies that follow this target |
| Gesture.Session.SettleGesture | src/js/bip.js:656-674 | commits exactly under the release rule; the classes are the settled ones; the styles are the toggled ones on commit and the reverted ones otherwise |
| Gesture.Session.HandleGesture | src/js/bip.js:656-686 | the same, written into the session |
| Gesture.Session.EndHandler | src/js/bip.js:804-818 | rejected exactly when no session is active, and then nothing changes; otherwise it records the release point and settles the gesture: the target loses `touchmoveClass` and carries `transitioningClass`; only the release point, the classes and the styles change; it never throws |

## Left out

- The UMD wrapper, the feature test and the `Element.closest` polyfill
  (src/js/bip.js:1-19, 66-80): environment plumbing.
- `emitEvent` and `setAria`: event dispatch and ARIA attribute writes have
  no effect on the modelled state.
- `getMatrixValues`, `getCSSValue` and the class-toggle measuring in
  `getTransitionValues`: the browser's computed readings. They are given
  as each element's closed and open look. The "from" reading is the state
  the element is in, the "to" reading the toggled one.
- The `calculator` option: the calculator's reading in its current state
  is taken for the function that option names (src/js/bip.js:340), its
  toggled reading always for `translate` (line 350). The model fixes the
  option to its default `translate` (line 29), so both readings are
  translate readings. The calculator element itself is always the
  target, and is passed in as its two snapshots.
- Geometry.MatrixCalculations: for `translate`, the source splits the
  matrix text and keeps `a[4]` and `a[5]` as strings (src/js/bip.js:176-177,
  182), so its `dir` and `ydir` compare strings. The model compares
  numbers. No later reader uses `dir` or `ydir` of a transform diff, and
  `difference` is numeric in both.
- Geometry.TransitionValues: a name listed both as a transform function
  and as a CSS property is read twice, and the CSS reading overwrites the
  transform reading (src/js/bip.js:341-342, 355-356). The source then builds
  that name's transform diff from the CSS readings; the model builds it
  from the transform readings. A kept CSS diff replaces it in both.
- Geometry.MeasureValues: with `translate` in both lists, the source
  computes `NaN` travel whether or not the CSS diff is kept. If it is kept,
  the diff holds numbers; if not, the transform diff was built from the CSS
  readings (src/js/bip.js:342, 356, 373). Either way `.x` is read from a
  number or a string at src/js/bip.js:465. The model takes the travel from
  the translate readings.
- Gesture.Session.StartSession: measuring writes
  `style.transition = 'none'` after each reading (src/js/bip.js:214, 232)
  and on the calculator and the element (lines 345-346). These writes are
  not modelled; the removal of the style attribute that precedes the
  first two (lines 211, 229) is. So where the source leaves a measured
  element with the inline style `transition: none`, the model has no
  style for it; the drag's later transform and CSS writes in the source
  add to that `transition: none`, and the model's live style does not
  record it. An element measuring does not clear keeps its style in the
  model, without the added `transition: none`.
- Gesture.Session.constructor: it requires every listed CSS property to
  have a computed value in both looks of every element. A listed name the
  browser's computed style lacks makes `getCSSValue` throw at
  src/js/bip.js:228, on every element, so every touch start with such a
  configuration throws while measuring the target; that outcome is not
  modelled.
- Openers.Tag: every element is taken to have a `data-touch-id`. A
  `[data-touch]` element without one marks its buddies `openedby:null`
  (src/js/bip.js:573, 616, 618).
- Openers.SharedBuddyClosesWithLastOpener: holds for openers with distinct
  ids. Two id-less openers of one buddy share the mark `openedby:null`, so
  in the source the buddy closes when either of them closes it.
- The `ontransitionend` callbacks: they run after a CSS transition ends.
  In the model `transitioningClass` stays on the target and `touchstart`
  stays set until a later event the model does not contain.
- `document.body` overflow styling, and the CSS strings that transforms
  and durations are assembled into: styles are kept as values.
- `init`, `extend` and event-listener registration: configuration glue.
- Reading pointer coordinates from the event, and finding the gesture
  zone and the ignore zone with `closest`: these are handler parameters.
- `parseFloat` in `getTransitionValue`: the value list is given already
  parsed.
- Floating point: arithmetic on reals is exact, and `NaN`/`Infinity` are
  modelled as an absent value.
- Progress.CalculateMultiplier: the `parseInt` of the resolved delay and
  duration is modelled as truncation of a finite number. The `NaN` that
  `parseInt` could produce is not modelled.
- Progress.CalculateMultiplier: with a travel of 0 the model gives no
  number. The source gives `NaN` only when the recorded displacement is 0
  too; a non-zero displacement over a travel of 0 gives `±Infinity`
  (src/js/bip.js:486), which line 492 clamps to 1 or 0. `moveHandler` never
  records such a displacement: with a travel of 0 the range test at line
  780 admits only a zero displacement.
- Gesture.Session.CloseAll: with no transform or CSS property configured
  at all, only the key set of the resulting classes is stated, not which
  elements were toggled.
- Gesture.Session.MoveHandler: the `translatedX`/`translatedY` arguments
  are not passed on, because `transitionWithGesture` never reads them.
