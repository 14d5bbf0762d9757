/** `BubbleActionOverlay` of the legacy generation: the same layer of an
    indicator and `MAX_ACTIONS` bubbles and the same radial layout, but the
    overlay answers the drag itself: DRAG_STARTED animates it in, DRAG_ENDED
    out, guarded by `overlayActive`, and the bubbles are moved by the
    indicator animation's start callback. */
module LegacyOverlay {
  import opened Types
  import opened RadialLayout
  import LegacyBubble
  import Selection

  /** `TAG`: the simple name of the overlay class, also the label of the
      overlay's clip data. */
  const TAG: string := "BubbleActionOverlay"

  /** `isDragEventForOverlay`: `getLabel().equals(TAG)`. A null label raises
      a NullPointerException; `String.equals` accepts only a string with the
      same characters, so any other kind of text is refused. */
  function IsDragEventForOverlay(clipLabel: Option<CharSequence>): (r: Result<bool>)
    ensures r == Throws(NullPointer) <==> clipLabel.None?
    ensures r == Ok(true) <==> clipLabel == Some(JavaString(TAG))
  {
    match clipLabel
    case None => Throws(NullPointer)
    case Some(JavaString(chars)) => Ok(chars == TAG)
    case Some(OtherText(_)) => Ok(false)
  }

  /** The listener of the indicator's view animator, replaced by each of
      `animateIn` and `animateOut`. */
  datatype IndicatorListener = NoIndicatorListener | ShowBubbles | HideBubbles

  /** The indicator (child 0), the background and the `overlayActive` flag:
      the state `animateIn`, `animateOut` and the indicator's callbacks
      change. `background == None` is the drawable of the inflated layout. */
  datatype Indicator = Indicator(
    background: Option<Drawable>,
    visible: bool,
    x: real,
    y: real,
    alpha: real,
    targetAlpha: real,
    listener: IndicatorListener,
    active: bool,
    dimmed: bool)

  /** One slot of the overlay: where its bubble starts and stops, and the
      bubble itself. */
  datatype SlotState = SlotState(startX: real, startY: real, endX: real, endY: real, bubble: LegacyBubble.Snapshot)

  /** The bubble `before`, bound to action `a`: label, foreground, background
      and callback. */
  function Bound(before: LegacyBubble.Snapshot, a: LegacyAction): LegacyBubble.Snapshot
  {
    before.(text := a.actionName, image := Some(a.foreground), background := Some(a.background),
            callback := Some(a.callback))
  }

  /** The slot that holds action `a` at `angle` around the touch point: its
      end and start points at the stop and start distances along the angle,
      its bubble bound to `a` and sitting at the start point. */
  function PlacedState(before: LegacyBubble.Snapshot, a: LegacyAction, angle: real, originX: real, originY: real,
                       g: Geometry, width: int, height: int, trig: Trig): SlotState
  {
    var e := EndPoint(originX, originY, g, angle, width, height, trig);
    var st := StartPoint(originX, originY, g, angle, width, height, trig);
    SlotState(st.x, st.y, e.x, e.y, Bound(before, a).(x := st.x, y := st.y))
  }

  /** Slot `s` after the layout loop has visited its first `m` positions,
      starting from `before`, for a bubble of the given size: a slot
      `s < n` holds action `k = Slot(rightOk, n, s)` at the fan's `k`-th
      angle once `k < m`; otherwise it is as it was. */
  function SlotAfter(before: SlotState, actions: seq<LegacyAction>, fan: Fan, g: Geometry,
                     width: int, height: int, m: int, s: int): SlotState
  {
    var k := Slot(fan.rightOk, |actions|, s);
    if 0 <= s < |actions| && k < m
    then PlacedState(before.bubble, actions[k], FanAngle(fan, k), fan.originX, fan.originY, g, width, height, fan.trig)
    else before
  }

  /** Before the loop, no slot has changed. */
  lemma SlotAfterStart(before: SlotState, actions: seq<LegacyAction>, fan: Fan, g: Geometry,
                       width: int, height: int, s: int)
    ensures SlotAfter(before, actions, fan, g, width, height, 0, s) == before
  {
  }

  /** One pass of the loop, the `m`-th: the slot of action `m` is still as it
      was and receives action `m` at the fan's `m`-th angle; every other slot
      keeps its state. */
  lemma {:induction false} SlotAfterStep(before: SlotState, actions: seq<LegacyAction>, fan: Fan, g: Geometry,
                                         width: int, height: int, m: int, s: int)
    requires 0 <= m < |actions|
    ensures s == Slot(fan.rightOk, |actions|, m) ==>
      && SlotAfter(before, actions, fan, g, width, height, m, s) == before
      && SlotAfter(before, actions, fan, g, width, height, m + 1, s)
         == PlacedState(before.bubble, actions[m], FanAngle(fan, m), fan.originX, fan.originY, g, width, height, fan.trig)
    ensures s != Slot(fan.rightOk, |actions|, m) ==>
      SlotAfter(before, actions, fan, g, width, height, m + 1, s) == SlotAfter(before, actions, fan, g, width, height, m, s)
  {
    SlotIsInvolution(fan.rightOk, |actions|, m);
    SlotIsInvolution(fan.rightOk, |actions|, s);
  }

  /** After all `n` positions: action `k` sits in slot `Slot(rightOk, n, k)`
      at the fan's `k`-th angle, and the slots from `n` on are as they were. */
  lemma {:induction false} SlotAfterAll(before: SlotState, actions: seq<LegacyAction>, fan: Fan, g: Geometry,
                                        width: int, height: int, k: int, s: int)
    ensures 0 <= k < |actions| && s == Slot(fan.rightOk, |actions|, k) ==>
      SlotAfter(before, actions, fan, g, width, height, |actions|, s)
      == PlacedState(before.bubble, actions[k], FanAngle(fan, k), fan.originX, fan.originY, g, width, height, fan.trig)
    ensures |actions| <= s ==> SlotAfter(before, actions, fan, g, width, height, |actions|, s) == before
  {
    SlotIsInvolution(fan.rightOk, |actions|, k);
  }

  class BubbleActionOverlay {
    /** Children 1 .. MAX_ACTIONS: `bubbles[i]` is `getChildAt(i + 1)`. */
    const bubbles: seq<LegacyBubble.BubbleView>
    const actionStartX: array<real>
    const actionStartY: array<real>
    const actionEndX: array<real>
    const actionEndY: array<real>
    const geometry: Geometry
    const indicatorWidth: int
    const indicatorHeight: int
    /** The number of actions last passed to `setBubbleActions` or
        `showOverlay`. */
    var numActions: nat
    /** Whether the overlay is animated in. */
    var overlayActive: bool
    var indicatorBackground: Option<Drawable>
    var indicatorVisible: bool
    var indicatorX: real
    var indicatorY: real
    var indicatorAlpha: real
    /** The alpha the indicator's current animation goes to. */
    var indicatorTargetAlpha: real
    var indicatorListener: IndicatorListener
    /** Whether the background animator last ran forwards (start) or in
        reverse. */
    var backgroundDimmed: bool
    /** Drag sessions started with the overlay's clip data. */
    var dragsStarted: nat

    /** The indicator, the background and `overlayActive` as one value. */
    function Ind(): Indicator
      reads this
    {
      Indicator(indicatorBackground, indicatorVisible, indicatorX, indicatorY, indicatorAlpha,
                indicatorTargetAlpha, indicatorListener, overlayActive, backgroundDimmed)
    }

    predicate Shaped()
    {
      && |bubbles| == MAX_ACTIONS
      && actionStartX.Length == MAX_ACTIONS && actionStartY.Length == MAX_ACTIONS
      && actionEndX.Length == MAX_ACTIONS && actionEndY.Length == MAX_ACTIONS
    }

    /** The overlay's fixed wiring: distinct bubbles with distinct
        animators, distinct arrays, positive distances. Everything it reads is
        constant. */
    predicate Wired()
    {
      && Shaped()
      && (forall i, j :: 0 <= i < j < |bubbles| ==> bubbles[i] != bubbles[j])
      && (forall i, j :: 0 <= i < j < |bubbles| ==> bubbles[i].animator != bubbles[j].animator)
      && actionStartX != actionStartY && actionStartX != actionEndX && actionStartX != actionEndY
      && actionStartY != actionEndX && actionStartY != actionEndY && actionEndX != actionEndY
      && ValidGeometry(geometry)
    }

    ghost predicate Valid()
      reads bubbles
    {
      && Wired()
      && (forall i :: 0 <= i < |bubbles| ==> bubbles[i].Valid())
    }

    /** The constructor: the indicator invisible at alpha 0, then
        `MAX_ACTIONS` fresh bubbles, each invisible at alpha 0; the overlay is
        not active. */
    constructor (geometry: Geometry, indicatorWidth: int, indicatorHeight: int,
                 sizes: seq<(int, int)>, labelVisible: bool)
      requires ValidGeometry(geometry)
      requires |sizes| == MAX_ACTIONS
      ensures Valid()
      ensures this.geometry == geometry
      ensures this.indicatorWidth == indicatorWidth && this.indicatorHeight == indicatorHeight
      ensures numActions == 0 && dragsStarted == 0
      ensures Ind() == Indicator(None, false, 0.0, 0.0, 0.0, 0.0, NoIndicatorListener, false, false)
      ensures forall i :: 0 <= i < MAX_ACTIONS ==>
        && bubbles[i].width == sizes[i].0 && bubbles[i].height == sizes[i].1
        && bubbles[i].Snap() == LegacyBubble.Snapshot(false, 0.0, 0.0, 0.0, None, None, None, None, None, false,
                                                      Selection.Face(false, Selection.DESELECTED_SCALE, labelVisible), [])
      ensures forall i :: 0 <= i < MAX_ACTIONS ==>
        actionStartX[i] == 0.0 && actionStartY[i] == 0.0 && actionEndX[i] == 0.0 && actionEndY[i] == 0.0
      ensures forall i :: 0 <= i < MAX_ACTIONS ==> fresh(bubbles[i]) && fresh(bubbles[i].animator)
      ensures fresh(actionStartX) && fresh(actionStartY) && fresh(actionEndX) && fresh(actionEndY)
    {
      this.geometry := geometry;
      this.indicatorWidth := indicatorWidth;
      this.indicatorHeight := indicatorHeight;
      var made: seq<LegacyBubble.BubbleView> := [];
      var i := 0;
      while i < MAX_ACTIONS
        invariant 0 <= i <= MAX_ACTIONS
        invariant |made| == i
        invariant forall j, k :: 0 <= j < k < i ==> made[j] != made[k] && made[j].animator != made[k].animator
        invariant forall j :: 0 <= j < i ==> fresh(made[j]) && fresh(made[j].animator)
        invariant forall j :: 0 <= j < i ==>
          && made[j].Valid()
          && made[j].width == sizes[j].0 && made[j].height == sizes[j].1
          && made[j].Snap() == LegacyBubble.Snapshot(false, 0.0, 0.0, 0.0, None, None, None, None, None, false,
                                                     Selection.Face(false, Selection.DESELECTED_SCALE, labelVisible), [])
      {
        var b := new LegacyBubble.BubbleView(sizes[i].0, sizes[i].1, labelVisible);
        b.SetVisible(false);
        b.SetAlpha(0.0);
        made := made + [b];
        i := i + 1;
      }
      bubbles := made;
      actionStartX := new real[MAX_ACTIONS](_ => 0.0);
      actionStartY := new real[MAX_ACTIONS](_ => 0.0);
      actionEndX := new real[MAX_ACTIONS](_ => 0.0);
      actionEndY := new real[MAX_ACTIONS](_ => 0.0);
      numActions := 0;
      overlayActive := false;
      indicatorBackground := None;
      indicatorVisible := false;
      indicatorX := 0.0;
      indicatorY := 0.0;
      indicatorAlpha := 0.0;
      indicatorTargetAlpha := 0.0;
      indicatorListener := NoIndicatorListener;
      backgroundDimmed := false;
      dragsStarted := 0;
    }

    /** `setLabelTypeface`: the labels of children 1 .. MAX_ACTIONS take the
        typeface; nothing else changes. */
    method SetLabelTypeface(t: Option<Typeface>)
      requires Valid()
      modifies bubbles
      ensures Valid()
      ensures forall s :: 0 <= s < MAX_ACTIONS ==> bubbles[s].Snap() == old(bubbles[s].Snap()).(typeface := t)
    {
      var i := 1;
      while i <= MAX_ACTIONS
        invariant 1 <= i <= MAX_ACTIONS + 1
        invariant Valid()
        invariant forall s :: 0 <= s < i - 1 ==> bubbles[s].Snap() == old(bubbles[s].Snap()).(typeface := t)
        invariant forall s :: i - 1 <= s < MAX_ACTIONS ==> bubbles[s].Snap() == old(bubbles[s].Snap())
      {
        bubbles[i - 1].SetTypeface(t);
        i := i + 1;
      }
    }

    /** `setBubbleActions(bubbleActions)`: the action count is stored first
        and more than `MAX_ACTIONS` raises IllegalArgumentException with no
        other change. Otherwise the indicator takes the builder's drawable
        (the default one when it is null), bubble `s` is bound to action `s`
        for `s < n`, and every other bubble is hidden. */
    method SetBubbleActions(actions: seq<LegacyAction>, indicator: Option<Drawable>) returns (r: Result<()>)
      requires Valid()
      modifies this, bubbles
      ensures Valid()
      ensures numActions == |actions|
      ensures |actions| > MAX_ACTIONS <==> r == Throws(IllegalArgument)
      ensures r.Ok? <==> r == Ok(())
      ensures r.Throws? ==> Ind() == old(Ind())
      ensures r.Ok? ==> Ind() == old(Ind()).(background := Some(if indicator.Some? then indicator.value else DefaultIndicator))
      ensures dragsStarted == old(dragsStarted)
      ensures forall s :: 0 <= s < MAX_ACTIONS ==>
        bubbles[s].Snap() == if r.Throws? then old(bubbles[s].Snap())
                             else if s < |actions| then Bound(old(bubbles[s].Snap()), actions[s])
                             else old(bubbles[s].Snap()).(visible := false)
    {
      numActions := |actions|;
      if numActions > MAX_ACTIONS {
        return Throws(IllegalArgument);
      }
      SetIndicatorBackground(indicator);
      BindBubbles(actions);
      r := Ok(());
    }

    /** The indicator takes the builder's drawable, or the default one when
        it is null. */
    method SetIndicatorBackground(indicator: Option<Drawable>)
      modifies this`indicatorBackground
      ensures Ind() == old(Ind()).(background := Some(if indicator.Some? then indicator.value else DefaultIndicator))
    {
      indicatorBackground := Some(if indicator.Some? then indicator.value else DefaultIndicator);
    }

    /** The loop of `setBubbleActions` over children 1 .. MAX_ACTIONS: the
        bubble of child `i` is bound to action `i - 1` when there is one and
        hidden otherwise. */
    method BindBubbles(actions: seq<LegacyAction>)
      requires Valid() && |actions| <= MAX_ACTIONS
      modifies bubbles
      ensures Valid()
      ensures forall s :: 0 <= s < MAX_ACTIONS ==>
        bubbles[s].Snap() == if s < |actions| then Bound(old(bubbles[s].Snap()), actions[s])
                             else old(bubbles[s].Snap()).(visible := false)
    {
      var i := 1;
      while i < MAX_ACTIONS + 1
        invariant 1 <= i <= MAX_ACTIONS + 1
        invariant Valid()
        invariant forall s :: 0 <= s < i - 1 ==>
          bubbles[s].Snap() == if s < |actions| then Bound(old(bubbles[s].Snap()), actions[s])
                               else old(bubbles[s].Snap()).(visible := false)
        invariant forall s :: i - 1 <= s < MAX_ACTIONS ==> bubbles[s].Snap() == old(bubbles[s].Snap())
      {
        if i - 1 < |actions| {
          bubbles[i - 1].Bind(actions[i - 1]);
        } else {
          bubbles[i - 1].SetVisible(false);
        }
        i := i + 1;
      }
    }

    /** Slot `s`: its four positions and its bubble. */
    ghost function SlotAt(s: int): SlotState
      reads bubbles[s], actionStartX, actionStartY, actionEndX, actionEndY
      requires Shaped() && 0 <= s < MAX_ACTIONS
    {
      SlotState(actionStartX[s], actionStartY[s], actionEndX[s], actionEndY[s], bubbles[s].Snap())
    }

    /** One pass of the layout loop's body: bind `a` to slot `i`, compute its
        end and start points at `angle` and move the bubble to the start
        point. No other slot changes. */
    method PlaceSlot(i: int, a: LegacyAction, angle: real, originX: real, originY: real, trig: Trig)
      requires Wired() && 0 <= i < MAX_ACTIONS
      modifies bubbles[i], actionStartX, actionStartY, actionEndX, actionEndY
      ensures SlotAt(i) == PlacedState(old(bubbles[i].Snap()), a, angle, originX, originY, geometry,
                                       bubbles[i].width, bubbles[i].height, trig)
      ensures forall s :: 0 <= s < MAX_ACTIONS && s != i ==> SlotAt(s) == old(SlotAt(s))
    {
      var b := bubbles[i];
      b.Bind(a);
      var e := EndPoint(originX, originY, geometry, angle, b.width, b.height, trig);
      var st := StartPoint(originX, originY, geometry, angle, b.width, b.height, trig);
      actionEndX[i] := e.x;
      actionEndY[i] := e.y;
      actionStartX[i] := st.x;
      actionStartY[i] := st.y;
      b.SetPosition(st.x, st.y);
    }

    /** The layout loop of `showOverlay`: starting at slot 0 and stepping up
        when the right side fits, at slot `n - 1` and stepping down otherwise,
        the `k`-th visited slot receives action `k` at the fan's `k`-th
        angle: slot `s` ends as `SlotAfter` gives it for all `n` positions. */
    method LayOut(actions: seq<LegacyAction>, fan: Fan)
      requires Wired() && |actions| <= MAX_ACTIONS
      modifies bubbles, actionStartX, actionStartY, actionEndX, actionEndY
      ensures forall s :: 0 <= s < MAX_ACTIONS ==>
        SlotAt(s) == SlotAfter(old(SlotAt(s)), actions, fan, geometry, bubbles[s].width, bubbles[s].height, |actions|, s)
    {
      var n := |actions|;
      forall s | 0 <= s < MAX_ACTIONS {
        SlotAfterStart(SlotAt(s), actions, fan, geometry, bubbles[s].width, bubbles[s].height, s);
      }
      var angle := fan.startingAngle;
      var actionIndex := 0;
      var start := if fan.rightOk then 0 else n - 1;
      var end := if fan.rightOk then n else -1;
      var delta := if fan.rightOk then 1 else -1;
      var i := start;
      while i != end
        invariant 0 <= actionIndex <= n
        invariant i == Slot(fan.rightOk, n, actionIndex) && end == Slot(fan.rightOk, n, n)
        invariant delta == if fan.rightOk then 1 else -1
        invariant angle == FanAngle(fan, actionIndex)
        invariant Wired()
        invariant forall s :: 0 <= s < MAX_ACTIONS ==>
          SlotAt(s) == SlotAfter(old(SlotAt(s)), actions, fan, geometry, bubbles[s].width, bubbles[s].height, actionIndex, s)
        decreases n - actionIndex
      {
        label step:
        PlaceSlot(i, actions[actionIndex], angle, fan.originX, fan.originY, fan.trig);
        forall s | 0 <= s < MAX_ACTIONS
          ensures SlotAt(s) == SlotAfter(old(SlotAt(s)), actions, fan, geometry, bubbles[s].width, bubbles[s].height, actionIndex + 1, s)
        {
          SlotAfterStep(old(SlotAt(s)), actions, fan, geometry, bubbles[s].width, bubbles[s].height, actionIndex, s);
        }
        AngleStep(fan.startingAngle, fan.angleDelta, actionIndex);
        angle := angle + fan.angleDelta;
        actionIndex := actionIndex + 1;
        i := i + delta;
      }
    }

    /** The indicator takes the builder's drawable (the default one when it
        is null) and is centred on the touch point. */
    method PlaceIndicator(indicator: Option<Drawable>, originX: real, originY: real)
      modifies this`indicatorBackground, this`indicatorX, this`indicatorY
      ensures Ind() == old(Ind()).(background := Some(if indicator.Some? then indicator.value else DefaultIndicator),
                                   x := originX - indicatorWidth as real / 2.0,
                                   y := originY - indicatorHeight as real / 2.0)
    {
      SetIndicatorBackground(indicator);
      indicatorX := originX - indicatorWidth as real / 2.0;
      indicatorY := originY - indicatorHeight as real / 2.0;
    }

    /** `startDrag(dragData, ...)`: one more drag session with the overlay's
        clip data. */
    method StartDrag()
      modifies this`dragsStarted
      ensures dragsStarted == old(dragsStarted) + 1
    {
      dragsStarted := dragsStarted + 1;
    }

    /** `showOverlay(originX, originY, bubbleActions)`, given the registered
        actions, the builder's indicator, the overlay's laid-out size and the
        trigonometric functions.
        - More than `MAX_ACTIONS` actions: IllegalArgumentException after the
          count is stored, with no other change.
        - The indicator takes the builder's drawable (the default one when it
          is null) and is centred on the touch point.
        - No room on either side: IllegalStateException, no slot written and
          no drag started.
        - Otherwise the layout of the current generation, and then one drag
          session is started. */
    method ShowOverlay(originX: real, originY: real, actions: seq<LegacyAction>, indicator: Option<Drawable>,
                       width: int, height: int, trig: Trig)
      returns (r: Result<()>)
      requires Valid()
      modifies this, bubbles, actionStartX, actionStartY, actionEndX, actionEndY
      ensures Valid()
      ensures numActions == |actions|
      ensures |actions| > MAX_ACTIONS ==> r == Throws(IllegalArgument) && Ind() == old(Ind())
      ensures |actions| <= MAX_ACTIONS ==>
        Ind() == old(Ind()).(background := Some(if indicator.Some? then indicator.value else DefaultIndicator),
                             x := originX - indicatorWidth as real / 2.0,
                             y := originY - indicatorHeight as real / 2.0)
      ensures dragsStarted == old(dragsStarted) + (if r.Ok? then 1 else 0)
      ensures var n := |actions|;
        var leftOk := LeftOk(width, height, originX, originY, geometry, n, trig);
        var rightOk := RightOk(width, height, originX, originY, geometry, n, trig);
        && (n <= MAX_ACTIONS && !leftOk && !rightOk ==> r == Throws(IllegalState))
        && (n <= MAX_ACTIONS && (leftOk || rightOk) ==>
             && r == Ok(())
             && var fan := Fan(rightOk, StartingAngle(n, leftOk, rightOk, originX, width, geometry, trig),
                               AngleDelta(n), originX, originY, trig);
                forall s :: 0 <= s < MAX_ACTIONS ==>
                  SlotAt(s) == SlotAfter(old(SlotAt(s)), actions, fan, geometry, bubbles[s].width, bubbles[s].height, n, s))
      ensures r.Throws? ==> forall s :: 0 <= s < MAX_ACTIONS ==> SlotAt(s) == old(SlotAt(s))
    {
      var n := |actions|;
      numActions := n;
      if n > MAX_ACTIONS {
        return Throws(IllegalArgument);
      }
      PlaceIndicator(indicator, originX, originY);

      var leftOk := LeftOk(width, height, originX, originY, geometry, n, trig);
      var rightOk := RightOk(width, height, originX, originY, geometry, n, trig);
      if !leftOk && !rightOk {
        return Throws(IllegalState);
      }
      var startingAngle := StartingAngle(n, leftOk, rightOk, originX, width, geometry, trig);
      LayOut(actions, Fan(rightOk, startingAngle, AngleDelta(n), originX, originY, trig));
      StartDrag();
      r := Ok(());
    }

    /** `animateIn`: only when the overlay is not active does it become
        active, start dimming the background, show the indicator and fade it
        in with the listener that moves the bubbles out; when active, nothing
        changes. */
    method AnimateIn()
      modifies this
      ensures old(overlayActive) ==> Ind() == old(Ind())
      ensures !old(overlayActive) ==>
        Ind() == old(Ind()).(active := true, dimmed := true, visible := true, targetAlpha := 1.0, listener := ShowBubbles)
      ensures overlayActive
      ensures numActions == old(numActions) && dragsStarted == old(dragsStarted)
    {
      if !overlayActive {
        overlayActive := true;
        backgroundDimmed := true;
        indicatorVisible := true;
        indicatorTargetAlpha := 1.0;
        indicatorListener := ShowBubbles;
      }
    }

    /** `animateOut`: only when the overlay is active does it become inactive
        and fade the indicator out with the listener that moves the bubbles
        back and, at its end, hides the indicator and reverses the
        background; when not active, nothing changes. */
    method AnimateOut()
      modifies this
      ensures !old(overlayActive) ==> Ind() == old(Ind())
      ensures old(overlayActive) ==>
        Ind() == old(Ind()).(active := false, targetAlpha := 0.0, listener := HideBubbles)
      ensures !overlayActive
      ensures numActions == old(numActions) && dragsStarted == old(dragsStarted)
    {
      if overlayActive {
        overlayActive := false;
        indicatorTargetAlpha := 0.0;
        indicatorListener := HideBubbles;
      }
    }

    /** The animators of the bubbles. */
    function Animators(): set<LegacyBubble.ViewAnimator>
    {
      set b | b in bubbles :: b.animator
    }

    /** What the indicator's start callback tells the animator of slot `s`:
        after `animateIn`, the slot's end point at full alpha with overshoot
        and the listener that marks the bubble animated in; after
        `animateOut`, the start point at alpha 0 and the listener that resets
        it. */
    ghost function Cue(s: int): LegacyBubble.Motion
      reads this, actionStartX, actionStartY, actionEndX, actionEndY
      requires Shaped() && 0 <= s < MAX_ACTIONS
    {
      if indicatorListener == ShowBubbles
      then LegacyBubble.Motion(actionEndX[s], actionEndY[s], 1.0, true, LegacyBubble.MarkAnimatedIn)
      else LegacyBubble.Motion(actionStartX[s], actionStartY[s], 0.0, false, LegacyBubble.ResetOnEnd)
    }

    /** `onAnimationStart` of the indicator's animation: with a listener
        installed, bubble `s` animates to `Cue(s)` for each `s < numActions`,
        and bubbles animated in become visible at once; the other bubbles and
        their animators do not change. With more actions than slots, the
        sixth iteration reads the arrays out of bounds, after all five
        bubbles have been moved. */
    method OnIndicatorAnimationStart() returns (r: Result<()>)
      requires Valid()
      modifies bubbles, Animators()
      ensures Valid()
      ensures r.Throws? <==> indicatorListener != NoIndicatorListener && numActions > MAX_ACTIONS
      ensures r.Throws? ==> r.ex == IndexOutOfBounds
      ensures forall s :: 0 <= s < MAX_ACTIONS ==>
        var cued := indicatorListener != NoIndicatorListener && s < numActions;
        && bubbles[s].Snap() == (if cued && indicatorListener == ShowBubbles then old(bubbles[s].Snap()).(visible := true)
                                 else old(bubbles[s].Snap()))
        && bubbles[s].animator.Snap() == if cued then Cue(s) else old(bubbles[s].animator.Snap())
    {
      if indicatorListener == NoIndicatorListener {
        return Ok(());
      }
      var i := 0;
      while i < numActions
        invariant 0 <= i <= numActions && i <= MAX_ACTIONS
        invariant Valid()
        invariant forall s :: 0 <= s < MAX_ACTIONS ==>
          && bubbles[s].Snap() == (if s < i && indicatorListener == ShowBubbles then old(bubbles[s].Snap()).(visible := true)
                                   else old(bubbles[s].Snap()))
          && bubbles[s].animator.Snap() == if s < i then Cue(s) else old(bubbles[s].animator.Snap())
      {
        if i >= MAX_ACTIONS {
          return Throws(IndexOutOfBounds);
        }
        if indicatorListener == ShowBubbles {
          bubbles[i].AnimateIn(actionEndX[i], actionEndY[i]);
        } else {
          bubbles[i].AnimateOut(actionStartX[i], actionStartY[i]);
        }
        i := i + 1;
      }
      r := Ok(());
    }

    /** `onAnimationEnd` of the indicator's animation: the indicator reaches
        its target alpha; after `animateOut` it is then hidden and the
        background animator reversed. */
    method OnIndicatorAnimationEnd()
      modifies this
      ensures Ind() == if old(indicatorListener) == HideBubbles
                       then old(Ind()).(alpha := old(indicatorTargetAlpha), visible := false, dimmed := false)
                       else old(Ind()).(alpha := old(indicatorTargetAlpha))
      ensures numActions == old(numActions) && dragsStarted == old(dragsStarted)
    {
      indicatorAlpha := indicatorTargetAlpha;
      if indicatorListener == HideBubbles {
        indicatorVisible := false;
        backgroundDimmed := false;
      }
    }

    /** `onDragEvent`: DRAG_STARTED with the overlay's own label animates the
        overlay in and is accepted, with another label refused, and with a
        null label raises a NullPointerException; DRAG_ENDED animates it out
        and is accepted whatever its label; every other action is refused
        with no change. */
    method OnDragEvent(e: DragEvent) returns (r: Result<bool>)
      modifies this
      ensures e.action == DragStarted ==> r == IsDragEventForOverlay(e.clipLabel)
      ensures e.action == DragStarted && r == Ok(true) ==>
        Ind() == (if old(overlayActive) then old(Ind())
                  else old(Ind()).(active := true, dimmed := true, visible := true, targetAlpha := 1.0, listener := ShowBubbles))
      ensures e.action == DragEnded ==>
        && r == Ok(true)
        && Ind() == (if !old(overlayActive) then old(Ind())
                     else old(Ind()).(active := false, targetAlpha := 0.0, listener := HideBubbles))
      ensures e.action !in {DragStarted, DragEnded} ==> r == Ok(false)
      ensures (e.action !in {DragStarted, DragEnded} || r != Ok(true)) ==> Ind() == old(Ind())
      ensures numActions == old(numActions) && dragsStarted == old(dragsStarted)
    {
      match e.action
      case DragStarted =>
        r := IsDragEventForOverlay(e.clipLabel);
        if r == Ok(true) {
          AnimateIn();
        }
      case DragEnded =>
        AnimateOut();
        r := Ok(true);
      case _ =>
        r := Ok(false);
    }
  }
}
