# BubbleActions, modelled in Dafny

BubbleActions is an Android widget. When the user long-presses a view, it fans
out up to five "bubbles" in an arc around the touch point. The user then drags
onto a bubble and drops to run that bubble's action. The library ships two
package generations with the same idea, and both are modelled here.

- **Current generation** (`me.samthompson.bubbleactions`).
  - The fluent builder `BubbleActions` collects the actions in a fixed array of five.
  - The builder adds its overlay to the root view and reads the last touch point by reflection.
  - It lays the overlay out there and starts a drag session.
  - Its drag listener starts the show and hide animation sets.
  - `BubbleActionOverlay` does the radial layout and builds the animation sets.
  - `BubbleView` is one bubble, with a drag listener that selects, deselects and drops.
  - `DragUtils.isDragForMe` filters drags by their clip label.
- **Legacy generation** (`com.sam.bubbleactions`).
  - Its builder keeps a foreground and a background drawable per action.
  - Its overlay answers the drag itself. It animates in on DRAG_STARTED and out on DRAG_ENDED, guarded by `overlayActive`.
  - Its bubbles set and clear `animatedIn` in the end callbacks of their own animations.
  - `BubbleActionLayout` accepts exactly one child and records the last DOWN/MOVE touch.

## How the model is organised

- Arithmetic on floats becomes arithmetic on reals.
- `cos`, `sin` and `acos` are uninterpreted functions supplied in a `Trig` value.
- Java `int` colour arithmetic is modelled on 32-bit patterns, including the
  truncating and saturating `(int)` cast and the wrap-around of `int` addition (module `ArgbEvaluator`).
  The float product before the cast is taken as an exact real product (see "Left out").
- Each object whose fields the source updates in place is a Dafny `class`: the builders, the overlays,
  the bubbles, the legacy bubble's view animator and the layout. Their `float[]` position arrays are
  `array<real>`.
- Every method is specified against a pure function or against its whole new state. The properties are
  proved as lemmas about those functions:
  - `Added`/`Append`/`FromMenu` for the registries;
  - `Respond` for the bubble listener;
  - `SlotAfter` for the layout loop;
  - `ShowSet`/`HideSet` for the animation sets;
  - `Ended` for the end of a legacy bubble animation;
  - `AddedView`/`Recorded` for the layout.
- Animations are represented by what they target. The moment an animation starts or ends becomes an
  explicit method, such as `OnIndicatorAnimationStart`, `OnAnimationEnd` or `OnSetEnd`.
- Java exceptions are `Result.Throws` values. Null references are `Option.None`.
- The reflective touch-point lookup is an input (`TouchLookup`), and so are its two caught failures.

Modules:
- `Types`: shared values.
- `RadialLayout`: the geometry shared by both overlays.
- `ArgbEvaluator`.
- `DragUtils`.
- `Selection`: the bubble drag listener.
- `Bubble`, `Overlay` and `Actions`: the current generation.
- `LegacyBubble`, `LegacyOverlay`, `LegacyActions` and `LegacyLayout`: the legacy generation.

## Model

| member | source | states |
|---|---|---|
| RadialLayout.AngleDelta | bubbleactions/src/main/java/me/samthompson/bubbleactions/BubbleActionOverlay.java:136 | the angle between neighbours is positive, at most π, and n+1 of them make exactly a half turn |
| RadialLayout.StartingAngle | bubbleactions/src/main/java/me/samthompson/bubbleactions/BubbleActionOverlay.java:147-154 | the priority of the three cases: both sides give π+δ; right only anchors to the left edge; otherwise the right-edge angle minus (n−1)·δ |
| RadialLayout.Slot | bubbleactions/src/main/java/me/samthompson/bubbleactions/BubbleActionOverlay.java:160-163 | the slot of the k-th visited position is always a valid slot index |
| RadialLayout.SlotIsInvolution | bubbleactions/src/main/java/me/samthompson/bubbleactions/BubbleActionOverlay.java:160-163 | the action↔slot binding is its own inverse, so every action lands in exactly one slot and each slot holds exactly one action |
| RadialLayout.VisitOrderIsPermutation | bubbleactions/src/main/java/me/samthompson/bubbleactions/BubbleActionOverlay.java:160-163 | the loop visits every slot of [0, n) exactly once; no slot twice, none missed, n = 0 included |
| RadialLayout.VisitOrderDirection | bubbleactions/src/main/java/me/samthompson/bubbleactions/BubbleActionOverlay.java:160-163 | slots are visited strictly ascending when the right side fits and strictly descending otherwise |
| RadialLayout.AngleStep | bubbleactions/src/main/java/me/samthompson/bubbleactions/BubbleActionOverlay.java:156-184 | each pass of the loop advances the angle by exactly one δ, so the k-th visited slot gets startingAngle + k·δ |
| RadialLayout.CentredFanIsSymmetric | bubbleactions/src/main/java/me/samthompson/bubbleactions/BubbleActionOverlay.java:147-148 | with room on both sides the fan is mirror-symmetric about the upward direction |
| RadialLayout.CentredFanIsAbove | bubbleactions/src/main/java/me/samthompson/bubbleactions/BubbleActionOverlay.java:147-148 | with room on both sides every bubble's angle lies strictly between π and 2π: all bubbles sit above the finger |
| RadialLayout.MultipleBelow | bubbleactions/src/main/java/me/samthompson/bubbleactions/BubbleActionOverlay.java:136 | positive multiples of δ are ordered as their factors |
| RadialLayout.RightOnlyAnchorsFirst | bubbleactions/src/main/java/me/samthompson/bubbleactions/BubbleActionOverlay.java:149-150 | with room on the right only, the first bubble is on the ray meeting the left edge at the reach distance |
| RadialLayout.LeftOnlyAnchorsLast | bubbleactions/src/main/java/me/samthompson/bubbleactions/BubbleActionOverlay.java:151-153 | with room on the left only, the last bubble is on the ray meeting the right edge at the reach distance |
| RadialLayout.StartAndEndShareTheRay | bubbleactions/src/main/java/me/samthompson/bubbleactions/BubbleActionOverlay.java:175-182 | a slot's start and end points lie on the same ray at its angle and differ only by the difference of the two distances |
| ArgbEvaluator.Trunc | bubbleactions/src/main/java/me/samthompson/bubbleactions/BubbleActionOverlay.java:45-48 | Java's float-to-int truncation rounds toward zero, within one of its argument |
| ArgbEvaluator.FloatToInt | bubbleactions/src/main/java/me/samthompson/bubbleactions/BubbleActionOverlay.java:45-48 | the `(int)` cast always yields an `int` and equals truncation inside the `int` range |
| ArgbEvaluator.Wrap32 | bubbleactions/src/main/java/me/samthompson/bubbleactions/BubbleActionOverlay.java:45-48 | `int` addition wraps into the signed range and is the identity on values already in range |
| ArgbEvaluator.ByteBits | bubbleactions/src/main/java/me/samthompson/bubbleactions/BubbleActionOverlay.java:45-48 | a lane value in [0, 256) has the bit pattern of its byte |
| ArgbEvaluator.PackChannels | bubbleactions/src/main/java/me/samthompson/bubbleactions/BubbleActionOverlay.java:33-48 | reading back the channels of four packed bytes gives those bytes: no channel spills into a neighbour |
| ArgbEvaluator.UnpackPack | bubbleactions/src/main/java/me/samthompson/bubbleactions/BubbleActionOverlay.java:33-43 | unpacking a colour into its four channels and packing them gives the colour back |
| ArgbEvaluator.PackOfBytes | bubbleactions/src/main/java/me/samthompson/bubbleactions/BubbleActionOverlay.java:45-48 | shifting and or-ing byte-sized `int`s is packing their bytes |
| ArgbEvaluator.ScaleWithin | bubbleactions/src/main/java/me/samthompson/bubbleactions/BubbleActionOverlay.java:45-48 | a fraction in [0, 1] times a channel difference lies between 0 and the difference |
| ArgbEvaluator.TruncWithin | bubbleactions/src/main/java/me/samthompson/bubbleactions/BubbleActionOverlay.java:45-48 | truncating such a product stays between 0 and the difference and never saturates |
| ArgbEvaluator.OffsetWithin | bubbleactions/src/main/java/me/samthompson/bubbleactions/BubbleActionOverlay.java:45-48 | `(int)(fraction * (end - start))` lies between 0 and end − start for a fraction in [0, 1] |
| ArgbEvaluator.LaneBetween | bubbleactions/src/main/java/me/samthompson/bubbleactions/BubbleActionOverlay.java:45-48 | each interpolated channel is a byte between its start and end channel |
| ArgbEvaluator.PackEvaluated | bubbleactions/src/main/java/me/samthompson/bubbleactions/BubbleActionOverlay.java:32-49 | for a fraction in [0, 1] the result is exactly the four interpolated bytes side by side |
| ArgbEvaluator.LaneAtEnds | bubbleactions/src/main/java/me/samthompson/bubbleactions/BubbleActionOverlay.java:45-48 | a channel interpolates to its start at fraction 0 and to its end at fraction 1 |
| ArgbEvaluator.LaneOfAtZero | bubbleactions/src/main/java/me/samthompson/bubbleactions/BubbleActionOverlay.java:33-48 | at fraction 0 every channel is the start colour's channel |
| ArgbEvaluator.LaneOfAtOne | bubbleactions/src/main/java/me/samthompson/bubbleactions/BubbleActionOverlay.java:33-48 | at fraction 1 every channel is the end colour's channel |
| ArgbEvaluator.ByteRoundTrip | bubbleactions/src/main/java/me/samthompson/bubbleactions/BubbleActionOverlay.java:34-43 | a masked channel read as `int` and cast back is the same byte |
| ArgbEvaluator.PackOfChannels | bubbleactions/src/main/java/me/samthompson/bubbleactions/BubbleActionOverlay.java:33-48 | repacking a colour's own channels through `int` arithmetic reproduces it |
| ArgbEvaluator.EvaluateAtZero | bubbleactions/src/main/java/me/samthompson/bubbleactions/BubbleActionOverlay.java:32-49 | `evaluate(0, s, e)` is exactly `s` |
| ArgbEvaluator.EvaluateAtOne | bubbleactions/src/main/java/me/samthompson/bubbleactions/BubbleActionOverlay.java:32-49 | `evaluate(1, s, e)` is exactly `e` |
| ArgbEvaluator.EvaluateChannelsBetween | bubbleactions/src/main/java/me/samthompson/bubbleactions/BubbleActionOverlay.java:32-49 | for a fraction in [0, 1] each output channel depends on that channel alone and lies between its start and end channel |
| DragUtils.IsDragForMe | bubbleactions/src/main/java/me/samthompson/bubbleactions/DragUtils.java:8-14 | true exactly when the label is the String "me.samthompson.bubbleactions.BubbleActions" |
| DragUtils.NullLabelRefused | bubbleactions/src/main/java/me/samthompson/bubbleactions/DragUtils.java:13 | a null label gives false rather than an exception, unlike the legacy overlay's `label.equals(TAG)` |
| Types.Values | bubbleactions/src/main/java/me/samthompson/bubbleactions/BubbleActions.java:36-37 | the values of a filled prefix of the registry array, one per slot, in slot order |
| Types.ValuesSnoc | bubbleactions/src/main/java/me/samthompson/bubbleactions/BubbleActions.java:196-197 | filling the next slot appends exactly its action to the registered actions |
| Types.Run | bubbleactions/src/main/java/me/samthompson/bubbleactions/BubbleActions.java:143-149 | a menu-forwarding callback reports exactly its own item id to its menu callback, and throws NullPointerException when `fromMenu` was given a null menu callback; a user callback reports itself |
| Selection.Respond | bubbleactions/src/main/java/me/samthompson/bubbleactions/BubbleView.java:56-120 | ENTERED selects and EXITED deselects only when animated in and both answer `animatedIn`; only DROP runs anything; only ENTERED/EXITED change the face |
| Selection.RespondKeepsCoherent | bubbleactions/src/main/java/me/samthompson/bubbleactions/BubbleView.java:67-113 | the listener keeps a bubble's face coherent: selected iff scale 1 with the label shown, otherwise scale 0.85 |
| Selection.NotAnimatedInFaceIsFrozen | bubbleactions/src/main/java/com/sam/bubbleactions/BubbleView.java:102-148 | until the bubble has animated in, no drag event changes its selection |
| Selection.EnterAndExitAreIdempotent | bubbleactions/src/main/java/me/samthompson/bubbleactions/BubbleView.java:67-113 | entering twice is entering once, and exiting twice is exiting once |
| Selection.EnterThenExit | bubbleactions/src/main/java/me/samthompson/bubbleactions/BubbleView.java:67-113 | enter then exit leaves the reset face whatever came before; exit then enter leaves it selected |
| Selection.StartedAndEndedAnswers | bubbleactions/src/main/java/me/samthompson/bubbleactions/BubbleView.java:63-118 | DRAG_STARTED answers `isDragForMe(label)` (always true in the legacy generation), DRAG_ENDED true, any other action false |
| Selection.DropRunsTheCallback | bubbleactions/src/main/java/me/samthompson/bubbleactions/BubbleView.java:114-116 | a drop runs the bound callback exactly once and answers true whether or not animated in, with the face unchanged; with no callback, or one forwarding to a null menu callback, it throws NullPointerException and runs nothing |
| Bubble.BubbleView.constructor | bubbleactions/src/main/java/me/samthompson/bubbleactions/BubbleView.java:27-42 | a new bubble is not animated in, unselected, at the deselected scale 0.85, with no callback |
| Bubble.BubbleView.ResetChildren | bubbleactions/src/main/java/me/samthompson/bubbleactions/BubbleView.java:44-49 | scale 0.85, not selected, label hidden, and nothing else changes, so a second call changes nothing |
| Bubble.BubbleView.OnDrag | bubbleactions/src/main/java/me/samthompson/bubbleactions/BubbleView.java:56-120 | the face, answer and callbacks run are those of `Respond` for the current generation; all other fields are unchanged |
| Overlay.ShowSetTargets | bubbleactions/src/main/java/me/samthompson/bubbleactions/BubbleActionOverlay.java:202-220 | the show set fades the indicator in, then animates exactly children 1..n in order, each to its slot's end point with overshoot |
| Overlay.HideSetTargets | bubbleactions/src/main/java/me/samthompson/bubbleactions/BubbleActionOverlay.java:222-239 | the hide set fades the indicator out, then animates exactly children 1..n in order, each back to its slot's start point |
| Overlay.HideMirrorsShow | bubbleactions/src/main/java/me/samthompson/bubbleactions/BubbleActionOverlay.java:202-239 | hiding animates the same children in the same order for the same duration as showing, with opposite alpha |
| Overlay.SlotAfterStart | bubbleactions/src/main/java/me/samthompson/bubbleactions/BubbleActionOverlay.java:158-163 | before the loop no slot has changed |
| Overlay.SlotAfterStep | bubbleactions/src/main/java/me/samthompson/bubbleactions/BubbleActionOverlay.java:163-185 | one pass writes only the slot of the current action, which was untouched before, and leaves every other slot as it was |
| Overlay.SlotAfterAll | bubbleactions/src/main/java/me/samthompson/bubbleactions/BubbleActionOverlay.java:158-186 | after the loop action k sits in slot `Slot(rightOk, n, k)` at the k-th angle; slots from n on are untouched |
| Overlay.BubbleActionOverlay.constructor | bubbleactions/src/main/java/me/samthompson/bubbleactions/BubbleActionOverlay.java:74-110 | indicator at alpha 0, five distinct fresh bubbles each invisible at alpha 0, four fresh position arrays all 0, no actions, no drag |
| Overlay.BubbleActionOverlay.SetLabelTypeface | bubbleactions/src/main/java/me/samthompson/bubbleactions/BubbleActionOverlay.java:112-117 | exactly the labels of children 1..5 take the typeface; the indicator and every other field are untouched |
| Overlay.BubbleActionOverlay.PlaceSlot | bubbleactions/src/main/java/me/samthompson/bubbleactions/BubbleActionOverlay.java:163-184 | the loop body binds the action to slot i, writes its four positions and moves the bubble to the start point; no other slot changes |
| Overlay.BubbleActionOverlay.LayOut | bubbleactions/src/main/java/me/samthompson/bubbleactions/BubbleActionOverlay.java:156-186 | every slot ends as `SlotAfter` says for all n positions: a single-visit traversal in the chosen direction |
| Overlay.BubbleActionOverlay.SetupOverlay | bubbleactions/src/main/java/me/samthompson/bubbleactions/BubbleActionOverlay.java:119-188 | more than 5 actions throws IllegalArgumentException before any position is written; no room throws IllegalStateException with no slot written; otherwise the indicator is centred and the slots are laid out |
| Overlay.BubbleActionOverlay.StartDrag | bubbleactions/src/main/java/me/samthompson/bubbleactions/BubbleActionOverlay.java:190-192 | one more drag session is started |
| Overlay.BubbleActionOverlay.AnimateDimBackground | bubbleactions/src/main/java/me/samthompson/bubbleactions/BubbleActionOverlay.java:194-196 | the background animator runs forwards |
| Overlay.BubbleActionOverlay.AnimateUndimBackground | bubbleactions/src/main/java/me/samthompson/bubbleactions/BubbleActionOverlay.java:198-200 | the background animator runs in reverse |
| Overlay.BubbleActionOverlay.GetAnimateSetShow | bubbleactions/src/main/java/me/samthompson/bubbleactions/BubbleActionOverlay.java:202-220 | the show set of `ShowSet`; exactly bubbles 0..numActions−1 become visible and nothing else changes; more than 5 actions reach a null child |
| Overlay.BubbleActionOverlay.GetAnimateSetHide | bubbleactions/src/main/java/me/samthompson/bubbleactions/BubbleActionOverlay.java:222-239 | the hide set of `HideSet` with no state change; more than 5 actions index past the arrays |
| Actions.Added | bubbleactions/src/main/java/me/samthompson/bubbleactions/BubbleActions.java:183-200 | capacity is checked first (IllegalStateException), then null drawable, then null callback (IllegalArgumentException); a throw leaves the registry unchanged, success appends exactly the new action |
| Actions.AddedKeepsCapacity | bubbleactions/src/main/java/me/samthompson/bubbleactions/BubbleActions.java:184-186 | adding never takes the registry past five actions |
| Actions.MenuActions | bubbleactions/src/main/java/me/samthompson/bubbleactions/BubbleActions.java:143-149 | one action per item in menu order, with the item's title and icon, whose callback forwards exactly that item's id, or throws NullPointerException for a null menu callback |
| Actions.FromMenu | bubbleactions/src/main/java/me/samthompson/bubbleactions/BubbleActions.java:130-133 | a menu of more than 5 items is refused before any action is added |
| Actions.AppendGoodItem | bubbleactions/src/main/java/me/samthompson/bubbleactions/BubbleActions.java:135-149 | an acceptable item with room appends its action and the loop continues with the rest |
| Actions.MenuActionsOfPrefix | bubbleactions/src/main/java/me/samthompson/bubbleactions/BubbleActions.java:135-149 | the actions of a prefix of items are the first item's action followed by the rest's |
| Actions.AppendPrefix | bubbleactions/src/main/java/me/samthompson/bubbleactions/BubbleActions.java:135-150 | running the loop over j acceptable items that fit adds their actions in order and then continues with `items[j..]` |
| Actions.AppendAllGood | bubbleactions/src/main/java/me/samthompson/bubbleactions/BubbleActions.java:135-152 | a menu of acceptable items that fits is added whole, in menu order |
| Actions.AppendStopsAtFirstBad | bubbleactions/src/main/java/me/samthompson/bubbleactions/BubbleActions.java:138-141 | the first item with a submenu, no icon, no title or id 0 throws IllegalArgumentException, with exactly the items before it added |
| Actions.AppendStopsWhenFull | bubbleactions/src/main/java/me/samthompson/bubbleactions/BubbleActions.java:143-149 | acceptable items beyond the free slots make `addAction` throw IllegalStateException once the free slots are filled in order |
| Actions.AppendKeepsCapacity | bubbleactions/src/main/java/me/samthompson/bubbleactions/BubbleActions.java:135-150 | whatever the menu, the registry stays within five and keeps its earlier actions in front |
| Actions.ShowOutcome | bubbleactions/src/main/java/me/samthompson/bubbleactions/BubbleActions.java:234-245 | a missing lookup throws NullPointerException, the two caught failures return quietly, no room throws IllegalStateException, anything else succeeds |
| Actions.On | bubbleactions/src/main/java/me/samthompson/bubbleactions/BubbleActions.java:67-79 | a null or non-ViewGroup root view is refused with IllegalArgumentException; a ViewGroup attached to no window ends in the constructor's NullPointerException; otherwise a fresh empty builder that is not showing |
| Actions.BubbleActions.Registered | bubbleactions/src/main/java/me/samthompson/bubbleactions/BubbleActions.java:36-37 | the registered actions number exactly `numActions` |
| Actions.BubbleActions.constructor | bubbleactions/src/main/java/me/samthompson/bubbleactions/BubbleActions.java:40-58 | default indicator, fresh overlay and registry, nothing registered, not showing, nothing started |
| Actions.BubbleActions.WithTypeface | bubbleactions/src/main/java/me/samthompson/bubbleactions/BubbleActions.java:87-90 | every bubble label takes the typeface and nothing else changes |
| Actions.BubbleActions.WithIndicator | bubbleactions/src/main/java/me/samthompson/bubbleactions/BubbleActions.java:110-113 | the indicator is replaced, null included |
| Actions.BubbleActions.WithIndicatorResource | bubbleactions/src/main/java/me/samthompson/bubbleactions/BubbleActions.java:99-102 | the indicator becomes the resource's drawable |
| Actions.BubbleActions.AddAction | bubbleactions/src/main/java/me/samthompson/bubbleactions/BubbleActions.java:183-200 | the registry changes as `Added` says, keeping the invariant that exactly the first numActions ≤ 5 slots are filled; success writes only slot old-numActions and counts it |
| Actions.BubbleActions.AddActionResource | bubbleactions/src/main/java/me/samthompson/bubbleactions/BubbleActions.java:167-172 | `AddAction` with the resource's drawable |
| Actions.BubbleActions.FromMenuItems | bubbleactions/src/main/java/me/samthompson/bubbleactions/BubbleActions.java:125-153 | the loop changes the registry exactly as `FromMenu` says |
| Actions.BubbleActions.IsShowing | bubbleactions/src/main/java/me/samthompson/bubbleactions/BubbleActions.java:230-232 | answers the `showing` flag |
| Actions.BubbleActions.Show | bubbleactions/src/main/java/me/samthompson/bubbleactions/BubbleActions.java:208-228 | while showing nothing happens and the overlay, its bubbles and arrays are untouched; otherwise the overlay is attached, then, if laid out, set up at the touch point as `showOverlay` does (indicator centred there, slots laid out by `SlotAfter` when there is room), else a layout listener is registered and the overlay is untouched; `showing` never changes here; the indicator, the started sets, the reset count, the dim state and the indicator alpha never change, and without a layout neither do the detach listener and the touch point |
| Actions.BubbleActions.OnLayoutChange | bubbleactions/src/main/java/me/samthompson/bubbleactions/BubbleActions.java:218-226 | a registered listener removes itself, then `showOverlay` runs, with the same outcome, indicator and slot layout; with no listener nothing changes; the indicator, the started sets, the reset count, the dim state and the indicator alpha never change |
| Actions.BubbleActions.ShowOverlay | bubbleactions/src/main/java/me/samthompson/bubbleactions/BubbleActions.java:234-265 | outcome as `ShowOutcome`; at a found touch point the overlay holds the registered count and the indicator centred there, and with room every slot is as `SlotAfter` gives it for the fan at that point, without room every slot as it was; a drag starts and the detach listener is installed exactly when a touch point with room was found; the caught failures leave the overlay, its bubbles and arrays untouched; the indicator, the started sets, the reset count, the dim state and the indicator alpha never change |
| Actions.BubbleActions.RemoveOverlay | bubbleactions/src/main/java/me/samthompson/bubbleactions/BubbleActions.java:267-271 | not showing, detached, bubbles reset once more |
| Actions.BubbleActions.OnOverlayDetached | bubbleactions/src/main/java/me/samthompson/bubbleactions/BubbleActions.java:247-262 | the detach listener uninstalls itself and removes the overlay only while showing |
| Actions.BubbleActions.OnOverlayDrag | bubbleactions/src/main/java/me/samthompson/bubbleactions/BubbleActions.java:273-322 | answers true exactly for DRAG_ENDED and for DRAG_STARTED with the library's label, starting the show or hide set; a false answer changes nothing and `showing` never changes |
| Actions.BubbleActions.OnSetStart | bubbleactions/src/main/java/me/samthompson/bubbleactions/BubbleActions.java:281-309 | the show set's start dims the background, the hide set's start undims it |
| Actions.BubbleActions.OnSetEnd | bubbleactions/src/main/java/me/samthompson/bubbleactions/BubbleActions.java:289-314 | the show set's end is where `showing` becomes true; the hide set's end removes the overlay |
| LegacyBubble.ViewAnimator.constructor | bubbleactions/src/main/java/com/sam/bubbleactions/BubbleView.java:50 | a bubble's animator starts with no target and no end listener |
| LegacyBubble.ViewAnimator.Configure | bubbleactions/src/main/java/com/sam/bubbleactions/BubbleView.java:50-83 | the animator holds exactly the new targets, interpolator and end listener; the previous listener is replaced |
| LegacyBubble.BubbleView.constructor | bubbleactions/src/main/java/com/sam/bubbleactions/BubbleView.java:29-46 | a new bubble is not animated in, unselected, at the deselected scale, with a fresh animator |
| LegacyBubble.BubbleView.AnimateIn | bubbleactions/src/main/java/com/sam/bubbleactions/BubbleView.java:48-63 | visible at once; the animator targets the end point at alpha 1 with overshoot and will mark the bubble animated in; `animatedIn` itself does not change yet |
| LegacyBubble.BubbleView.AnimateOut | bubbleactions/src/main/java/com/sam/bubbleactions/BubbleView.java:65-84 | the animator targets the start point at alpha 0 and will reset the bubble; the bubble itself does not change yet |
| LegacyBubble.BubbleView.OnAnimationEnd | bubbleactions/src/main/java/com/sam/bubbleactions/BubbleView.java:57-81 | the bubble reaches the animator's targets and then changes as `Ended` says |
| LegacyBubble.BubbleView.OnDrag | bubbleactions/src/main/java/com/sam/bubbleactions/BubbleView.java:91-155 | the face, answer and callbacks run are those of `Respond` for the legacy generation; all other fields are unchanged |
| LegacyBubble.Ended | bubbleactions/src/main/java/com/sam/bubbleactions/BubbleView.java:57-81 | only the end of `animateIn` sets `animatedIn` and only the end of `animateOut` clears it; the latter also hides the bubble and resets scale, selection and label; nothing else changes |
| LegacyBubble.InThenEndThenOutThenEnd | bubbleactions/src/main/java/com/sam/bubbleactions/BubbleView.java:48-84 | animating in to the end leaves the bubble visible, at its end point and animated in; animating out to the end leaves it hidden, at its start point, reset, not animated in, with label, drawables and callback kept |
| LegacyOverlay.IsDragEventForOverlay | bubbleactions/src/main/java/com/sam/bubbleactions/BubbleActionOverlay.java:273-275 | true exactly for the String label "BubbleActionOverlay"; a null label throws NullPointerException |
| LegacyOverlay.SlotAfterStart | bubbleactions/src/main/java/com/sam/bubbleactions/BubbleActionOverlay.java:184-189 | before the loop no slot has changed |
| LegacyOverlay.SlotAfterStep | bubbleactions/src/main/java/com/sam/bubbleactions/BubbleActionOverlay.java:189-208 | one pass writes only the slot of the current action and leaves every other slot as it was |
| LegacyOverlay.SlotAfterAll | bubbleactions/src/main/java/com/sam/bubbleactions/BubbleActionOverlay.java:184-208 | after the loop action k sits in slot `Slot(rightOk, n, k)` at the k-th angle; slots from n on are untouched |
| LegacyOverlay.BubbleActionOverlay.constructor | bubbleactions/src/main/java/com/sam/bubbleactions/BubbleActionOverlay.java:71-106 | indicator invisible at alpha 0, five distinct fresh bubbles with distinct fresh animators, each invisible at alpha 0, four fresh position arrays all 0, not active |
| LegacyOverlay.BubbleActionOverlay.SetLabelTypeface | bubbleactions/src/main/java/com/sam/bubbleactions/BubbleActionOverlay.java:108-113 | exactly the labels of children 1..5 take the typeface; the indicator is never touched |
| LegacyOverlay.BubbleActionOverlay.SetBubbleActions | bubbleactions/src/main/java/com/sam/bubbleactions/BubbleActionOverlay.java:118-143 | more than 5 actions throws IllegalArgumentException with only the count stored, which later lets the indicator animation read past the position arrays; otherwise child i ≥ 1 gets action i−1 when there is one and is hidden otherwise |
| LegacyOverlay.BubbleActionOverlay.SetIndicatorBackground | bubbleactions/src/main/java/com/sam/bubbleactions/BubbleActionOverlay.java:124-128 | the builder's indicator, or the default one when it is null |
| LegacyOverlay.BubbleActionOverlay.BindBubbles | bubbleactions/src/main/java/com/sam/bubbleactions/BubbleActionOverlay.java:130-142 | child i ≥ 1 is bound to action i−1 when i−1 < n and hidden otherwise |
| LegacyOverlay.BubbleActionOverlay.PlaceSlot | bubbleactions/src/main/java/com/sam/bubbleactions/BubbleActionOverlay.java:190-205 | the loop body binds the action to slot i, writes its positions and moves it to the start point; no other slot changes |
| LegacyOverlay.BubbleActionOverlay.LayOut | bubbleactions/src/main/java/com/sam/bubbleactions/BubbleActionOverlay.java:184-208 | every slot ends as `SlotAfter` says: the same single-visit traversal as the current generation |
| LegacyOverlay.BubbleActionOverlay.PlaceIndicator | bubbleactions/src/main/java/com/sam/bubbleactions/BubbleActionOverlay.java:151-159 | the indicator takes the builder's drawable and is centred on the touch point |
| LegacyOverlay.BubbleActionOverlay.StartDrag | bubbleactions/src/main/java/com/sam/bubbleactions/BubbleActionOverlay.java:210 | one more drag session is started |
| LegacyOverlay.BubbleActionOverlay.ShowOverlay | bubbleactions/src/main/java/com/sam/bubbleactions/BubbleActionOverlay.java:145-211 | more than 5 actions throws IllegalArgumentException; no room throws IllegalStateException with no slot written and no drag; otherwise the slots are laid out and only then one drag starts |
| LegacyOverlay.BubbleActionOverlay.AnimateIn | bubbleactions/src/main/java/com/sam/bubbleactions/BubbleActionOverlay.java:216-235 | nothing changes when already active, otherwise it becomes active, dims, shows the indicator and installs the show listener; afterwards always active, so a second call has no effect |
| LegacyOverlay.BubbleActionOverlay.AnimateOut | bubbleactions/src/main/java/com/sam/bubbleactions/BubbleActionOverlay.java:240-264 | nothing changes when inactive, otherwise it becomes inactive and installs the hide listener, so in and out strictly alternate |
| LegacyOverlay.BubbleActionOverlay.OnIndicatorAnimationStart | bubbleactions/src/main/java/com/sam/bubbleactions/BubbleActionOverlay.java:226-253 | bubbles 0..numActions−1 animate to their end points (after animating in) or back to their start points (after animating out); the other bubbles are untouched |
| LegacyOverlay.BubbleActionOverlay.OnIndicatorAnimationEnd | bubbleactions/src/main/java/com/sam/bubbleactions/BubbleActionOverlay.java:256-261 | after animating out, the indicator is hidden and the background undimmed |
| LegacyOverlay.BubbleActionOverlay.OnDragEvent | bubbleactions/src/main/java/com/sam/bubbleactions/BubbleActionOverlay.java:273-302 | DRAG_STARTED animates in and answers true only for the overlay's own label, a foreign label changing nothing; DRAG_ENDED animates out and answers true whatever the label; anything else answers false with no change |
| LegacyActions.Added | bubbleactions/src/main/java/com/sam/bubbleactions/BubbleActions.java:129-148 | capacity first (IllegalStateException), then null foreground, null background, null callback (IllegalArgumentException); a throw changes nothing, success appends exactly the new action |
| LegacyActions.AddedAllKeepsCapacity | bubbleactions/src/main/java/com/sam/bubbleactions/BubbleActions.java:32-33 | whatever calls are made, the registry never exceeds `actions.length` = 5 and keeps its earlier actions in front |
| LegacyActions.SetupRequests | bubbleactions/src/main/java/com/sam/bubbleactions/BubbleActions.java:171-185 | a failed lookup requests nothing; otherwise setup at the touch point, then show only if setup returned normally |
| LegacyActions.SetupOutcome | bubbleactions/src/main/java/com/sam/bubbleactions/BubbleActions.java:171-185 | a missing lookup throws NullPointerException, the caught failures return normally, a setup exception propagates |
| LegacyActions.ShowRequestedOnlyAfterSetup | bubbleactions/src/main/java/com/sam/bubbleactions/BubbleActions.java:173-184 | the overlay is shown iff a touch point was found and the setup there succeeded; setup is always the first request |
| LegacyActions.Forwarded | bubbleactions/src/main/java/com/sam/bubbleactions/BubbleActions.java:191-205 | exactly STARTED and ENDED are forwarded, each to its own overlay call |
| LegacyActions.On | bubbleactions/src/main/java/com/sam/bubbleactions/BubbleActions.java:85-97 | a null or non-ViewGroup root view is refused with IllegalArgumentException; a ViewGroup attached to no window ends in the constructor's NullPointerException; otherwise a fresh empty builder with the given indicator |
| LegacyActions.OnDefault | bubbleactions/src/main/java/com/sam/bubbleactions/BubbleActions.java:63-65 | `On` with the library's default indicator, with the same exceptions |
| LegacyActions.OnResource | bubbleactions/src/main/java/com/sam/bubbleactions/BubbleActions.java:74-76 | `On` with the resource's drawable, with the same exceptions |
| LegacyActions.BubbleActions.Registered | bubbleactions/src/main/java/com/sam/bubbleactions/BubbleActions.java:32-33 | the registered actions number exactly `numActions` |
| LegacyActions.BubbleActions.constructor | bubbleactions/src/main/java/com/sam/bubbleactions/BubbleActions.java:36-54 | the given indicator, fresh overlay and registry, nothing registered or requested |
| LegacyActions.BubbleActions.WithTypeface | bubbleactions/src/main/java/com/sam/bubbleactions/BubbleActions.java:99-102 | every bubble label takes the typeface |
| LegacyActions.BubbleActions.AddAction | bubbleactions/src/main/java/com/sam/bubbleactions/BubbleActions.java:129-148 | the registry changes as `Added` says, keeping numActions ≤ 5 with those slots filled; success writes only slot old-numActions |
| LegacyActions.BubbleActions.AddActionResources | bubbleactions/src/main/java/com/sam/bubbleactions/BubbleActions.java:115-120 | `AddAction` with the two resources' drawables |
| LegacyActions.BubbleActions.Show | bubbleactions/src/main/java/com/sam/bubbleactions/BubbleActions.java:153-169 | the overlay is attached; laid out, `setupAndShow` runs at once, otherwise a layout listener is registered; there is no guard against a second show; not laid out, the touch point is kept |
| LegacyActions.BubbleActions.OnLayoutChange | bubbleactions/src/main/java/com/sam/bubbleactions/BubbleActions.java:161-167 | `setupAndShow` runs, and the listener is removed only when it returned normally; with no listener nothing changes, the touch point included |
| LegacyActions.BubbleActions.SetupAndShow | bubbleactions/src/main/java/com/sam/bubbleactions/BubbleActions.java:171-185 | outcome and requests as `SetupOutcome` and `SetupRequests`; the touch point is recorded only when found |
| LegacyActions.BubbleActions.HideOverlay | bubbleactions/src/main/java/com/sam/bubbleactions/BubbleActions.java:187-189 | the overlay leaves the root view |
| LegacyActions.BubbleActions.OnOverlayDrag | bubbleactions/src/main/java/com/sam/bubbleactions/BubbleActions.java:191-205 | STARTED and ENDED are forwarded and their answer returned; any other action answers false and forwards nothing |
| LegacyLayout.AddedView | bubbleactions/src/main/java/com/sam/bubbleactions/BubbleActionLayout.java:55-62 | succeeds iff there is no child yet, and then the children are the child followed by the overlay (0 → 2); otherwise IllegalStateException with the children unchanged |
| LegacyLayout.OnlyFirstChildTaken | bubbleactions/src/main/java/com/sam/bubbleactions/BubbleActionLayout.java:55-62 | however many views are added to an empty layout, only the first is kept, with the overlay right after it |
| LegacyLayout.LaterAddsRefused | bubbleactions/src/main/java/com/sam/bubbleactions/BubbleActionLayout.java:56-58 | once the layout has a child, every further `addView` leaves the children unchanged |
| LegacyLayout.Recorded | bubbleactions/src/main/java/com/sam/bubbleactions/BubbleActionLayout.java:89-97 | DOWN and MOVE record left+x and top+y; every other action keeps the last point |
| LegacyLayout.OthersKeepPoint | bubbleactions/src/main/java/com/sam/bubbleactions/BubbleActionLayout.java:90-94 | a run of events with no DOWN or MOVE never moves the recorded point |
| LegacyLayout.RecordedAllAppend | bubbleactions/src/main/java/com/sam/bubbleactions/BubbleActionLayout.java:89-97 | recording two runs of events one after the other is recording their concatenation |
| LegacyLayout.LastDownOrMoveWins | bubbleactions/src/main/java/com/sam/bubbleactions/BubbleActionLayout.java:89-97 | after any run of events the recorded point is that of the last DOWN or MOVE, whatever came before |
| LegacyLayout.BubbleActionLayout.constructor | bubbleactions/src/main/java/com/sam/bubbleactions/BubbleActionLayout.java:23-44 | a fresh overlay, no children, no touch recorded |
| LegacyLayout.BubbleActionLayout.AddView | bubbleactions/src/main/java/com/sam/bubbleactions/BubbleActionLayout.java:55-62 | the children change as `AddedView` says |
| LegacyLayout.BubbleActionLayout.AddViewAt | bubbleactions/src/main/java/com/sam/bubbleactions/BubbleActionLayout.java:64-67 | the index is ignored and the single-child rule holds |
| LegacyLayout.BubbleActionLayout.AddViewSized | bubbleactions/src/main/java/com/sam/bubbleactions/BubbleActionLayout.java:69-72 | the size is ignored and the single-child rule holds |
| LegacyLayout.BubbleActionLayout.AddViewWithParams | bubbleactions/src/main/java/com/sam/bubbleactions/BubbleActionLayout.java:74-77 | the parameters are ignored and the single-child rule holds |
| LegacyLayout.BubbleActionLayout.AddViewAtWithParams | bubbleactions/src/main/java/com/sam/bubbleactions/BubbleActionLayout.java:79-82 | index and parameters are ignored and the single-child rule holds |
| LegacyLayout.BubbleActionLayout.OnInterceptTouchEvent | bubbleactions/src/main/java/com/sam/bubbleactions/BubbleActionLayout.java:89-97 | the recorded point changes as `Recorded` says and the answer is the frame layout's own |
| LegacyLayout.BubbleActionLayout.ShowOverlay | bubbleactions/src/main/java/com/sam/bubbleactions/BubbleActionLayout.java:102-104 | the overlay's `showOverlay` at the most recently recorded point: more than 5 actions throws IllegalArgumentException; the indicator takes the builder's drawable or the default and is centred there; no room throws IllegalStateException with no slot written; otherwise every slot is as `SlotAfter` gives it for the fan there and one drag starts |
| LegacyLayout.BubbleActionLayout.SetLabelTypeface | bubbleactions/src/main/java/com/sam/bubbleactions/BubbleActionLayout.java:110-112 | every bubble label of the overlay takes the typeface |

## Left out

- The Android view hierarchy is not modelled: inflation, resources, themes, `LayoutParams`, drawing. Drawables, typefaces and callbacks are identities. `Action.java` is a plain value holder and is folded into `Types`. `BubbleUtil.makeBubbleDrawable` only combines two drawables into a `LayerDrawable`; drawables are identities, so it is left out.
- Animations do not run. Each is represented by its targets, duration and interpolator. Each start or end callback is an explicit method that the platform would call: `OnSetStart`, `OnSetEnd`, `OnIndicatorAnimationStart`, `OnIndicatorAnimationEnd`, `LegacyBubble.BubbleView.OnAnimationEnd`. The frames in between, the overshoot curve and the background colour animator's frames are not modelled.
- Floating point is modelled by reals.
  - `cos`, `sin` and `acos` are uninterpreted, so no claim depends on their values.
  - `0.85f` is taken as the real 0.85.
  - The float rounding of `(float) Math.cos(...)` and of the position sums is not modelled.
  - ArgbEvaluator.Offset: the float product `fraction * (end - start)` is rounded to a float before the `(int)` cast, but the model truncates the exact real product, so the two can differ by one near an integer (for f = 10676410·2⁻²⁴ and a difference of 11 Java gives 7 and the model 6). The bounds proved about the offset and the channel hold for both.
- Reflection is modelled as an input. `getViewRootImpl` and `getLastTouchPoint` are a `TouchLookup`: a point, one of the two caught exceptions, or a lookup that was never found (`MissingLookup`, the null `Method`). `NoSuchMethodException` in the constructor is in the same case. A root `ViewGroup` attached to no window has a null `ViewRootImpl`, which `DetachedGroupRootView` stands for; `On` answers it with the constructor's NullPointerException.
- Actions.BubbleActions.constructor: a Dafny constructor cannot end in an exception, so the NullPointerException of `viewRootImpl.getClass()` for a detached root is raised by `Actions.On` before the constructor is called.
- LegacyActions.BubbleActions.constructor: likewise, the NullPointerException of `viewRootImpl.getClass()` for a detached root is raised by `LegacyActions.On` before the constructor is called.
- The OS drag session is reduced to a counter. `startDrag` only counts sessions (`dragsStarted`); shadow building and `ClipData` are left out. Delivery of drag events to views is the caller invoking the listener methods.
- `Actions.BubbleActions.Show` and `LegacyActions.BubbleActions.Show`: whether the overlay is laid out is an input. Registered layout-change listeners are a count. `getWidth()`/`getHeight()` of the overlay are parameters.
- Some callees of the current builder are missing from the current overlay and bubble, so they only change counters:
  - `resetBubbleViews` is counted in `bubbleResets`;
  - the attach-state listener of `showOverlay` is the `detachListener` flag.
- The legacy builder calls overlay operations the legacy overlay does not define: `setupOverlay`, the no-argument `showOverlay`, `dragStarted` and `dragEnded`.
  - They are recorded as `OverlayRequest`s.
  - Their results are inputs.
- `fromMenu` gets its menu as input: `MenuInflater` and `PopupMenu` are not modelled, and the items arrive as a sequence of `MenuItem` values.
- `BubbleActionLayout` position and super-class calls are parameters:
  - `getLeft()`/`getTop()` are parameters of `OnInterceptTouchEvent`;
  - `super.onInterceptTouchEvent` is the `superAnswer` input.
- The fluent `return this` of the builder methods is not modelled; the methods return only their outcome.
- The sample application, the tests and threading are out of scope: all callbacks run on the UI thread in order.
- Bubble.BubbleView: `animatedIn` is never set by any code of the current generation, so the model leaves it false unless a caller changes the field. What the gate does is proved in `Selection`.
