/** `BubbleActionOverlay` of the current generation: the full-screen layer
    holding the indicator (child 0) and `MAX_ACTIONS` bubbles (children 1 to
    5), the four position arrays the layout fills, and the animation sets
    that move the bubbles out and back. */
module Overlay {
  import opened Types
  import opened RadialLayout
  import Bubble
  import Selection

  /** The show set for `n` slots: the indicator fades in, then child `i`
      (slot `i - 1`) moves to its end point, fading in, with overshoot. */
  function ShowSet(endX: seq<real>, endY: seq<real>, n: nat): seq<Animation>
    requires n <= |endX| && n <= |endY|
  {
    if n == 0 then [Animation(0, None, 1.0, false, ANIMATION_DURATION)]
    else ShowSet(endX, endY, n - 1) + [Animation(n, Some((endX[n - 1], endY[n - 1])), 1.0, true, ANIMATION_DURATION)]
  }

  /** The hide set for `n` slots: the indicator fades out, then child `i`
      moves back to its start point, fading out, without overshoot. */
  function HideSet(startX: seq<real>, startY: seq<real>, n: nat): seq<Animation>
    requires n <= |startX| && n <= |startY|
  {
    if n == 0 then [Animation(0, None, 0.0, false, ANIMATION_DURATION)]
    else HideSet(startX, startY, n - 1) + [Animation(n, Some((startX[n - 1], startY[n - 1])), 0.0, false, ANIMATION_DURATION)]
  }

  /** The show set animates the indicator and exactly children `1 .. n`, in
      that order, each to its own slot's end point. */
  lemma {:induction false} ShowSetTargets(endX: seq<real>, endY: seq<real>, n: nat)
    requires n <= |endX| && n <= |endY|
    ensures var anims := ShowSet(endX, endY, n);
      && |anims| == n + 1
      && anims[0] == Animation(0, None, 1.0, false, ANIMATION_DURATION)
      && forall j :: 1 <= j <= n ==> anims[j] == Animation(j, Some((endX[j - 1], endY[j - 1])), 1.0, true, ANIMATION_DURATION)
  {
    if n > 0 {
      ShowSetTargets(endX, endY, n - 1);
    }
  }

  /** The hide set animates the indicator and exactly children `1 .. n`, in
      that order, each back to its own slot's start point. */
  lemma {:induction false} HideSetTargets(startX: seq<real>, startY: seq<real>, n: nat)
    requires n <= |startX| && n <= |startY|
    ensures var anims := HideSet(startX, startY, n);
      && |anims| == n + 1
      && anims[0] == Animation(0, None, 0.0, false, ANIMATION_DURATION)
      && forall j :: 1 <= j <= n ==> anims[j] == Animation(j, Some((startX[j - 1], startY[j - 1])), 0.0, false, ANIMATION_DURATION)
  {
    if n > 0 {
      HideSetTargets(startX, startY, n - 1);
    }
  }

  /** Hiding undoes showing slot by slot: both sets animate the same children
      in the same order for the same duration; what showing fades in, hiding
      fades out, and a bubble that moved out to its end point moves back to
      its start point. */
  lemma {:induction false} HideMirrorsShow(startX: seq<real>, startY: seq<real>, endX: seq<real>, endY: seq<real>, n: nat)
    requires n <= |startX| && n <= |startY| && n <= |endX| && n <= |endY|
    ensures var shown, hidden := ShowSet(endX, endY, n), HideSet(startX, startY, n);
      && |shown| == |hidden|
      && forall j :: 0 <= j < |shown| ==>
           (&& shown[j].child == hidden[j].child == j
            && shown[j].duration == hidden[j].duration
            && shown[j].alpha == 1.0 && hidden[j].alpha == 0.0
            && (j == 0 <==> shown[j].translateTo.None?) && (j == 0 <==> hidden[j].translateTo.None?))
  {
    ShowSetTargets(endX, endY, n);
    HideSetTargets(startX, startY, n);
  }

  /** One slot of the overlay: where its bubble starts and stops, and the
      bubble itself. */
  datatype SlotState = SlotState(startX: real, startY: real, endX: real, endY: real, bubble: Bubble.Snapshot)

  /** The slot that holds action `a` at `angle` around the touch point: its
      end and start points are at the stop and start distances along that
      angle, and its bubble, otherwise as `before`, carries the action's
      label, image and callback and sits at the start point. */
  function PlacedState(before: Bubble.Snapshot, a: Action, angle: real, originX: real, originY: real,
                       g: Geometry, width: int, height: int, trig: Trig): SlotState
  {
    var e := EndPoint(originX, originY, g, angle, width, height, trig);
    var st := StartPoint(originX, originY, g, angle, width, height, trig);
    SlotState(st.x, st.y, e.x, e.y,
              before.(text := a.actionName, image := Some(a.bubble), callback := Some(a.callback), x := st.x, y := st.y))
  }

  /** Slot `s` after the layout loop has visited its first `m` positions,
      starting from `before`, for a bubble of the given size: a slot
      `s < n` holds action `k = Slot(rightOk, n, s)` at the fan's `k`-th
      angle once `k < m`; otherwise it is as it was. */
  function SlotAfter(before: SlotState, actions: seq<Action>, fan: Fan, g: Geometry,
                     width: int, height: int, m: int, s: int): SlotState
  {
    var k := Slot(fan.rightOk, |actions|, s);
    if 0 <= s < |actions| && k < m
    then PlacedState(before.bubble, actions[k], FanAngle(fan, k), fan.originX, fan.originY, g, width, height, fan.trig)
    else before
  }

  /** Before the loop, no slot has changed. */
  lemma SlotAfterStart(before: SlotState, actions: seq<Action>, fan: Fan, g: Geometry,
                       width: int, height: int, s: int)
    ensures SlotAfter(before, actions, fan, g, width, height, 0, s) == before
  {
  }

  /** One pass of the loop, the `m`-th: the slot of action `m` is still as it
      was and receives action `m` at the fan's `m`-th angle; every other slot
      keeps its state. */
  lemma {:induction false} SlotAfterStep(before: SlotState, actions: seq<Action>, fan: Fan, g: Geometry,
                                         width: int, height: int, m: int, s: int)
    requires 0 <= m < |actions|
    ensures s == Slot(fan.rightOk, |actions|, m) ==>
      && SlotAfter(before, actions, fan, g, width, height, m, s) == before
      && SlotAfter(before, actions, fan, g, width, height, m + 1, s)
         == PlacedState(before.bubble, actions[m], FanAngle(fan, m), fan.originX, fan.originY, g, width, height, fan.trig)
    ensures s != Slot(fan.rightOk, |actions|, m) ==>
      SlotAfter(before, actions, fan, g, width, height, m + 1, s) == SlotAfter(before, actions, fan, g, width, height, m, s)
  {
    SlotIsInvolution(fan.rightOk, |actions|, m);
    SlotIsInvolution(fan.rightOk, |actions|, s);
  }

  /** After all `n` positions: action `k` sits in slot `Slot(rightOk, n, k)`
      at the fan's `k`-th angle, and the slots from `n` on are as they were. */
  lemma {:induction false} SlotAfterAll(before: SlotState, actions: seq<Action>, fan: Fan, g: Geometry,
                                        width: int, height: int, k: int, s: int)
    ensures 0 <= k < |actions| && s == Slot(fan.rightOk, |actions|, k) ==>
      SlotAfter(before, actions, fan, g, width, height, |actions|, s)
      == PlacedState(before.bubble, actions[k], FanAngle(fan, k), fan.originX, fan.originY, g, width, height, fan.trig)
    ensures |actions| <= s ==> SlotAfter(before, actions, fan, g, width, height, |actions|, s) == before
  {
    SlotIsInvolution(fan.rightOk, |actions|, k);
  }

  class BubbleActionOverlay {
    /** Children 1 .. MAX_ACTIONS: `bubbles[i]` is `getChildAt(i + 1)`. */
    const bubbles: seq<Bubble.BubbleView>
    /** Where each slot's bubble starts and stops. */
    const actionStartX: array<real>
    const actionStartY: array<real>
    const actionEndX: array<real>
    const actionEndY: array<real>
    /** The start and stop distances and the indicator dimension. */
    const geometry: Geometry
    /** The indicator's laid-out size. */
    const indicatorWidth: int
    const indicatorHeight: int
    /** The number of actions of the last `setupOverlay`. */
    var numActions: nat
    /** The indicator (child 0): its drawable, position and alpha. */
    var indicatorImage: Option<Drawable>
    var indicatorX: real
    var indicatorY: real
    var indicatorAlpha: real
    /** Whether the background animator last ran forwards (dim) or in
        reverse (undim). */
    var backgroundDimmed: bool
    /** Drag sessions started with the overlay's own clip data. */
    var dragsStarted: nat

    /** The fixed shape of the overlay: five bubbles and four arrays of five
        positions. Everything it reads is constant. */
    predicate Shaped()
    {
      && |bubbles| == MAX_ACTIONS
      && actionStartX.Length == MAX_ACTIONS && actionStartY.Length == MAX_ACTIONS
      && actionEndX.Length == MAX_ACTIONS && actionEndY.Length == MAX_ACTIONS
    }

    /** The overlay's fixed wiring: distinct bubbles, distinct arrays,
        positive distances. Everything it reads is constant. */
    predicate Wired()
    {
      && Shaped()
      && (forall i, j :: 0 <= i < j < |bubbles| ==> bubbles[i] != bubbles[j])
      && actionStartX != actionStartY && actionStartX != actionEndX && actionStartX != actionEndY
      && actionStartY != actionEndX && actionStartY != actionEndY && actionEndX != actionEndY
      && ValidGeometry(geometry)
    }

    ghost predicate Valid()
      reads bubbles
    {
      && Wired()
      && (forall i :: 0 <= i < |bubbles| ==> bubbles[i].Valid())
    }

    /** The constructor: the indicator at alpha 0, then `MAX_ACTIONS` fresh
        bubbles, each invisible and at alpha 0; the position arrays hold
        Java's default `0f`. A bubble's laid-out size and its label's initial
        visibility are parameters. */
    constructor (geometry: Geometry, indicatorWidth: int, indicatorHeight: int,
                 sizes: seq<(int, int)>, labelVisible: bool)
      requires ValidGeometry(geometry)
      requires |sizes| == MAX_ACTIONS
      ensures Valid()
      ensures this.geometry == geometry
      ensures this.indicatorWidth == indicatorWidth && this.indicatorHeight == indicatorHeight
      ensures numActions == 0 && indicatorImage == None && indicatorAlpha == 0.0
      ensures !backgroundDimmed && dragsStarted == 0
      ensures forall i :: 0 <= i < MAX_ACTIONS ==>
        && bubbles[i].width == sizes[i].0 && bubbles[i].height == sizes[i].1
        && bubbles[i].Snap() == Bubble.Snapshot(false, 0.0, 0.0, 0.0, None, None, None, None, false,
                                                Selection.Face(false, Selection.DESELECTED_SCALE, labelVisible), [])
      ensures forall i :: 0 <= i < MAX_ACTIONS ==>
        actionStartX[i] == 0.0 && actionStartY[i] == 0.0 && actionEndX[i] == 0.0 && actionEndY[i] == 0.0
      ensures forall i :: 0 <= i < MAX_ACTIONS ==> fresh(bubbles[i])
      ensures fresh(actionStartX) && fresh(actionStartY) && fresh(actionEndX) && fresh(actionEndY)
    {
      this.geometry := geometry;
      this.indicatorWidth := indicatorWidth;
      this.indicatorHeight := indicatorHeight;
      var made: seq<Bubble.BubbleView> := [];
      var i := 0;
      while i < MAX_ACTIONS
        invariant 0 <= i <= MAX_ACTIONS
        invariant |made| == i
        invariant forall j, k :: 0 <= j < k < i ==> made[j] != made[k]
        invariant forall j :: 0 <= j < i ==> fresh(made[j])
        invariant forall j :: 0 <= j < i ==>
          && made[j].Valid()
          && made[j].width == sizes[j].0 && made[j].height == sizes[j].1
          && made[j].Snap() == Bubble.Snapshot(false, 0.0, 0.0, 0.0, None, None, None, None, false,
                                               Selection.Face(false, Selection.DESELECTED_SCALE, labelVisible), [])
      {
        var b := new Bubble.BubbleView(sizes[i].0, sizes[i].1, labelVisible);
        b.SetVisible(false);
        b.SetAlpha(0.0);
        made := made + [b];
        i := i + 1;
      }
      bubbles := made;
      actionStartX := new real[MAX_ACTIONS](_ => 0.0);
      actionStartY := new real[MAX_ACTIONS](_ => 0.0);
      actionEndX := new real[MAX_ACTIONS](_ => 0.0);
      actionEndY := new real[MAX_ACTIONS](_ => 0.0);
      numActions := 0;
      indicatorImage := None;
      indicatorX := 0.0;
      indicatorY := 0.0;
      indicatorAlpha := 0.0;
      backgroundDimmed := false;
      dragsStarted := 0;
    }

    /** `setLabelTypeface`: the labels of children 1 .. MAX_ACTIONS, and
        nothing else, take the typeface; the indicator is never touched. */
    method SetLabelTypeface(t: Option<Typeface>)
      requires Valid()
      modifies bubbles
      ensures Valid()
      ensures forall s :: 0 <= s < MAX_ACTIONS ==> bubbles[s].Snap() == old(bubbles[s].Snap()).(typeface := t)
    {
      var i := 1;
      while i <= MAX_ACTIONS
        invariant 1 <= i <= MAX_ACTIONS + 1
        invariant Valid()
        invariant forall s :: 0 <= s < i - 1 ==> bubbles[s].Snap() == old(bubbles[s].Snap()).(typeface := t)
        invariant forall s :: i - 1 <= s < MAX_ACTIONS ==> bubbles[s].Snap() == old(bubbles[s].Snap())
      {
        bubbles[i - 1].SetTypeface(t);
        i := i + 1;
      }
    }

    /** Slot `s`: its four positions and its bubble. */
    ghost function SlotAt(s: int): SlotState
      reads bubbles[s], actionStartX, actionStartY, actionEndX, actionEndY
      requires Shaped() && 0 <= s < MAX_ACTIONS
    {
      SlotState(actionStartX[s], actionStartY[s], actionEndX[s], actionEndY[s], bubbles[s].Snap())
    }

    /** One pass of the layout loop's body: bind `a` to slot `i`, compute its
        end and start points at `angle` and move the bubble to the start
        point. No other slot changes. */
    method PlaceSlot(i: int, a: Action, angle: real, originX: real, originY: real, trig: Trig)
      requires Wired() && 0 <= i < MAX_ACTIONS
      modifies bubbles[i], actionStartX, actionStartY, actionEndX, actionEndY
      ensures SlotAt(i) == PlacedState(old(bubbles[i].Snap()), a, angle, originX, originY, geometry,
                                       bubbles[i].width, bubbles[i].height, trig)
      ensures forall s :: 0 <= s < MAX_ACTIONS && s != i ==> SlotAt(s) == old(SlotAt(s))
    {
      var b := bubbles[i];
      b.Bind(a);
      var e := EndPoint(originX, originY, geometry, angle, b.width, b.height, trig);
      var st := StartPoint(originX, originY, geometry, angle, b.width, b.height, trig);
      actionEndX[i] := e.x;
      actionEndY[i] := e.y;
      actionStartX[i] := st.x;
      actionStartY[i] := st.y;
      b.SetPosition(st.x, st.y);
    }

    /** The layout loop of `setupOverlay`: starting at slot 0 and stepping up
        when the right side fits, at slot `n - 1` and stepping down otherwise,
        the `k`-th visited slot receives action `k` at the fan's `k`-th
        angle: slot `s` ends as `SlotAfter` gives it for all `n` positions. */
    method LayOut(actions: seq<Action>, fan: Fan)
      requires Wired() && |actions| <= MAX_ACTIONS
      modifies bubbles, actionStartX, actionStartY, actionEndX, actionEndY
      ensures forall s :: 0 <= s < MAX_ACTIONS ==>
        SlotAt(s) == SlotAfter(old(SlotAt(s)), actions, fan, geometry, bubbles[s].width, bubbles[s].height, |actions|, s)
    {
      var n := |actions|;
      forall s | 0 <= s < MAX_ACTIONS {
        SlotAfterStart(SlotAt(s), actions, fan, geometry, bubbles[s].width, bubbles[s].height, s);
      }
      var angle := fan.startingAngle;
      var actionIndex := 0;
      var start := if fan.rightOk then 0 else n - 1;
      var end := if fan.rightOk then n else -1;
      var delta := if fan.rightOk then 1 else -1;
      var i := start;
      while i != end
        invariant 0 <= actionIndex <= n
        invariant i == Slot(fan.rightOk, n, actionIndex) && end == Slot(fan.rightOk, n, n)
        invariant delta == if fan.rightOk then 1 else -1
        invariant angle == FanAngle(fan, actionIndex)
        invariant Wired()
        invariant forall s :: 0 <= s < MAX_ACTIONS ==>
          SlotAt(s) == SlotAfter(old(SlotAt(s)), actions, fan, geometry, bubbles[s].width, bubbles[s].height, actionIndex, s)
        decreases n - actionIndex
      {
        label step:
        PlaceSlot(i, actions[actionIndex], angle, fan.originX, fan.originY, fan.trig);
        forall s | 0 <= s < MAX_ACTIONS
          ensures SlotAt(s) == SlotAfter(old(SlotAt(s)), actions, fan, geometry, bubbles[s].width, bubbles[s].height, actionIndex + 1, s)
        {
          SlotAfterStep(old(SlotAt(s)), actions, fan, geometry, bubbles[s].width, bubbles[s].height, actionIndex, s);
        }
        AngleStep(fan.startingAngle, fan.angleDelta, actionIndex);
        angle := angle + fan.angleDelta;
        actionIndex := actionIndex + 1;
        i := i + delta;
      }
    }

    /** `setupOverlay(originX, originY, bubbleActions)`, given the registered
        actions, the builder's indicator, the overlay's laid-out size and the
        trigonometric functions.
        - The action count is stored first; more than `MAX_ACTIONS` raises
          IllegalArgumentException before anything else changes.
        - The indicator takes the builder's drawable (the default one when it
          is null) and is centred on the touch point.
        - With no room on either side, IllegalStateException, and no slot is
          written.
        - Otherwise the slots are laid out as `SlotAfter` describes: the
          `k`-th visited slot, `Slot(rightOk, n, k)`, holds action `k` at the
          fan's `k`-th angle, and the slots from `n` on keep everything they
          held. */
    method SetupOverlay(originX: real, originY: real, actions: seq<Action>, indicator: Option<Drawable>,
                        width: int, height: int, trig: Trig)
      returns (r: Result<()>)
      requires Valid()
      modifies this, bubbles, actionStartX, actionStartY, actionEndX, actionEndY
      ensures Valid()
      ensures numActions == |actions|
      ensures dragsStarted == old(dragsStarted) && backgroundDimmed == old(backgroundDimmed)
      ensures indicatorAlpha == old(indicatorAlpha)
      ensures |actions| > MAX_ACTIONS ==>
        && r == Throws(IllegalArgument)
        && indicatorImage == old(indicatorImage) && indicatorX == old(indicatorX) && indicatorY == old(indicatorY)
      ensures |actions| <= MAX_ACTIONS ==>
        && indicatorImage == Some(if indicator.Some? then indicator.value else DefaultIndicator)
        && indicatorX == originX - indicatorWidth as real / 2.0
        && indicatorY == originY - indicatorHeight as real / 2.0
      ensures var n := |actions|;
        var leftOk := LeftOk(width, height, originX, originY, geometry, n, trig);
        var rightOk := RightOk(width, height, originX, originY, geometry, n, trig);
        && (n <= MAX_ACTIONS && !leftOk && !rightOk ==> r == Throws(IllegalState))
        && (n <= MAX_ACTIONS && (leftOk || rightOk) ==>
             && r == Ok(())
             && var fan := Fan(rightOk, StartingAngle(n, leftOk, rightOk, originX, width, geometry, trig),
                               AngleDelta(n), originX, originY, trig);
                forall s :: 0 <= s < MAX_ACTIONS ==>
                  SlotAt(s) == SlotAfter(old(SlotAt(s)), actions, fan, geometry, bubbles[s].width, bubbles[s].height, n, s))
      ensures r.Throws? ==> forall s :: 0 <= s < MAX_ACTIONS ==> SlotAt(s) == old(SlotAt(s))
    {
      var n := |actions|;
      numActions := n;
      if n > MAX_ACTIONS {
        return Throws(IllegalArgument);
      }
      indicatorImage := Some(if indicator.Some? then indicator.value else DefaultIndicator);
      indicatorX := originX - indicatorWidth as real / 2.0;
      indicatorY := originY - indicatorHeight as real / 2.0;

      var leftOk := LeftOk(width, height, originX, originY, geometry, n, trig);
      var rightOk := RightOk(width, height, originX, originY, geometry, n, trig);
      if !leftOk && !rightOk {
        return Throws(IllegalState);
      }
      var startingAngle := StartingAngle(n, leftOk, rightOk, originX, width, geometry, trig);
      LayOut(actions, Fan(rightOk, startingAngle, AngleDelta(n), originX, originY, trig));
      r := Ok(());
    }

    /** `startDrag()`: one more drag session with the overlay's clip data. */
    method StartDrag()
      modifies this`dragsStarted
      ensures dragsStarted == old(dragsStarted) + 1
    {
      dragsStarted := dragsStarted + 1;
    }

    /** `animateDimBackground`: the background animator runs forwards. */
    method AnimateDimBackground()
      modifies this`backgroundDimmed
      ensures backgroundDimmed
    {
      backgroundDimmed := true;
    }

    /** `animateUndimBackground`: the background animator runs in reverse. */
    method AnimateUndimBackground()
      modifies this`backgroundDimmed
      ensures !backgroundDimmed
    {
      backgroundDimmed := false;
    }

    /** `getAnimateSetShow`: the indicator fades in, then for each of the
        `numActions` slots the bubble is made visible and its animation
        targets the slot's end point at full alpha, with the overshoot
        interpolator. With more actions than bubbles, `getChildAt` returns
        null once the bubbles run out. */
    method GetAnimateSetShow() returns (r: Result<seq<Animation>>)
      requires Valid()
      modifies bubbles
      ensures Valid()
      ensures numActions <= MAX_ACTIONS ==> r == Ok(ShowSet(actionEndX[..], actionEndY[..], numActions))
      ensures numActions > MAX_ACTIONS ==> r == Throws(NullPointer)
      ensures forall s :: 0 <= s < MAX_ACTIONS ==>
        bubbles[s].Snap() == old(bubbles[s].Snap()).(visible := s < numActions || old(bubbles[s].visible))
    {
      var anims := [Animation(0, None, 1.0, false, ANIMATION_DURATION)];
      var i := 0;
      while i < numActions
        invariant 0 <= i <= numActions && i <= MAX_ACTIONS
        invariant Valid()
        invariant anims == ShowSet(actionEndX[..], actionEndY[..], i)
        invariant forall s :: 0 <= s < MAX_ACTIONS ==>
          bubbles[s].Snap() == old(bubbles[s].Snap()).(visible := s < i || old(bubbles[s].visible))
      {
        if i >= MAX_ACTIONS {
          return Throws(NullPointer);
        }
        bubbles[i].SetVisible(true);
        anims := anims + [Animation(i + 1, Some((actionEndX[i], actionEndY[i])), 1.0, true, ANIMATION_DURATION)];
        i := i + 1;
      }
      r := Ok(anims);
    }

    /** `getAnimateSetHide`: the indicator fades out, then for each of the
        `numActions` slots the animation targets the slot's start point at
        alpha 0, without an interpolator. Nothing changes visibility. With
        more actions than slots, reading `actionStartX[5]` is out of bounds. */
    method GetAnimateSetHide() returns (r: Result<seq<Animation>>)
      requires Valid()
      ensures numActions <= MAX_ACTIONS ==> r == Ok(HideSet(actionStartX[..], actionStartY[..], numActions))
      ensures numActions > MAX_ACTIONS ==> r == Throws(IndexOutOfBounds)
    {
      var anims := [Animation(0, None, 0.0, false, ANIMATION_DURATION)];
      var i := 0;
      while i < numActions
        invariant 0 <= i <= numActions && i <= MAX_ACTIONS
        invariant anims == HideSet(actionStartX[..], actionStartY[..], i)
      {
        if i >= MAX_ACTIONS {
          return Throws(IndexOutOfBounds);
        }
        anims := anims + [Animation(i + 1, Some((actionStartX[i], actionStartY[i])), 0.0, false, ANIMATION_DURATION)];
        i := i + 1;
      }
      r := Ok(anims);
    }
  }
}
