/** `BubbleActionLayout` of the legacy generation: a frame layout that takes
    exactly one child, puts its own overlay above it, and remembers where
    the last DOWN or MOVE touch was so that the overlay can be shown there. */
module LegacyLayout {
  import opened Types
  import opened RadialLayout
  import LegacyOverlay

  /** A child of the layout: the application's view, by identity, or the
      layout's own overlay. */
  datatype View = AppView(id: nat) | OverlayView

  /** The `MotionEvent` action codes `onInterceptTouchEvent` distinguishes;
      `OtherMotion` stands for every other code. */
  datatype MotionAction = Down | Move | Up | Cancel | OtherMotion

  /** A touch event as the layout sees it: its masked action and its
      position relative to the layout. */
  datatype MotionEvent = MotionEvent(action: MotionAction, x: real, y: real)

  /** `addView(child)` on a layout holding `children`: with any child
      already there, IllegalStateException and no change; otherwise the
      child and then the overlay are appended. */
  function AddedView(children: seq<View>, child: View): (r: (Result<()>, seq<View>))
    ensures r.0.Ok? <==> children == []
    ensures r.0.Throws? ==> r.0 == Throws(IllegalState) && r.1 == children
    ensures r.0.Ok? ==> r.1 == [child, OverlayView]
  {
    if |children| > 0 then (Throws(IllegalState), children)
    else (Ok(()), children + [child, OverlayView])
  }

  /** The children after `addView` with each of `adds` in turn, each call's
      exception caught by the caller. */
  function AddedViews(children: seq<View>, adds: seq<View>): seq<View>
    decreases |adds|
  {
    if adds == [] then children
    else AddedViews(AddedView(children, adds[0]).1, adds[1..])
  }

  /** The single-child rule: from an empty layout, however many children
      are added, only the first is taken, with the overlay right after it. */
  lemma {:induction false} OnlyFirstChildTaken(adds: seq<View>)
    ensures adds == [] ==> AddedViews([], adds) == []
    ensures adds != [] ==> AddedViews([], adds) == [adds[0], OverlayView]
  {
    if adds != [] {
      LaterAddsRefused([adds[0], OverlayView], adds[1..]);
    }
  }

  /** Once the layout has a child, every further `addView` is refused. */
  lemma {:induction false} LaterAddsRefused(children: seq<View>, adds: seq<View>)
    requires children != []
    ensures AddedViews(children, adds) == children
    decreases |adds|
  {
    if adds != [] {
      LaterAddsRefused(children, adds[1..]);
    }
  }

  /** The point `onInterceptTouchEvent` records for event `ev` when the
      layout sits at `(left, top)`: the event's position offset by the
      layout's, on DOWN and MOVE only; otherwise the last recorded point. */
  function Recorded(last: (real, real), ev: MotionEvent, left: int, top: int): (r: (real, real))
    ensures ev.action == Down || ev.action == Move ==> r == (left as real + ev.x, top as real + ev.y)
    ensures !(ev.action == Down || ev.action == Move) ==> r == last
  {
    if ev.action == Down || ev.action == Move then (left as real + ev.x, top as real + ev.y)
    else last
  }

  /** After a run of touch events, the recorded point is that of the last
      DOWN or MOVE among them, if there was one. */
  function RecordedAll(last: (real, real), evs: seq<MotionEvent>, left: int, top: int): (real, real)
    decreases |evs|
  {
    if evs == [] then last
    else RecordedAll(Recorded(last, evs[0], left, top), evs[1..], left, top)
  }

  /** Events other than DOWN and MOVE never move the recorded point. */
  lemma {:induction false} OthersKeepPoint(last: (real, real), evs: seq<MotionEvent>, left: int, top: int)
    requires forall k :: 0 <= k < |evs| ==> evs[k].action != Down && evs[k].action != Move
    ensures RecordedAll(last, evs, left, top) == last
    decreases |evs|
  {
    if evs != [] {
      OthersKeepPoint(last, evs[1..], left, top);
    }
  }

  /** Running the events `a` and then `b` records what running `b` from the
      point `a` leaves records. */
  lemma {:induction false} RecordedAllAppend(last: (real, real), a: seq<MotionEvent>, b: seq<MotionEvent>, left: int, top: int)
    ensures RecordedAll(last, a + b, left, top) == RecordedAll(RecordedAll(last, a, left, top), b, left, top)
    decreases |a|
  {
    if a == [] {
      assert a + b == b;
    } else {
      assert (a + b)[1..] == a[1..] + b;
      RecordedAllAppend(Recorded(last, a[0], left, top), a[1..], b, left, top);
    }
  }

  /** The recorded point is that of the last DOWN or MOVE event: if
      `evs[j]` is one and none comes after it, the point is `evs[j]`'s
      position offset by the layout's, whatever came before. */
  lemma LastDownOrMoveWins(last: (real, real), evs: seq<MotionEvent>, left: int, top: int, j: nat)
    requires j < |evs| && (evs[j].action == Down || evs[j].action == Move)
    requires forall k :: j < k < |evs| ==> evs[k].action != Down && evs[k].action != Move
    ensures RecordedAll(last, evs, left, top) == (left as real + evs[j].x, top as real + evs[j].y)
  {
    assert evs == evs[..j] + evs[j..];
    RecordedAllAppend(last, evs[..j], evs[j..], left, top);
    var p := Recorded(RecordedAll(last, evs[..j], left, top), evs[j], left, top);
    OthersKeepPoint(p, evs[j + 1..], left, top);
    assert evs[j..][1..] == evs[j + 1..];
  }

  class BubbleActionLayout {
    /** The layout's own overlay, made by `init`. */
    const overlay: LegacyOverlay.BubbleActionOverlay
    /** The children, in order. */
    var children: seq<View>
    var lastDownX: real
    var lastDownY: real

    ghost predicate Valid()
      reads this, overlay.bubbles
    {
      overlay.Valid()
    }

    /** Every constructor runs `init`: a fresh overlay, no children, and no
        touch recorded yet (the fields' Java default of 0). */
    constructor (geometry: Geometry, indicatorWidth: int, indicatorHeight: int, sizes: seq<(int, int)>, labelVisible: bool)
      requires ValidGeometry(geometry) && |sizes| == MAX_ACTIONS
      ensures Valid() && fresh(overlay)
      ensures children == [] && lastDownX == 0.0 && lastDownY == 0.0
    {
      overlay := new LegacyOverlay.BubbleActionOverlay(geometry, indicatorWidth, indicatorHeight, sizes, labelVisible);
      children := [];
      lastDownX := 0.0;
      lastDownY := 0.0;
    }

    /** `addView(child)`: the children change as `AddedView` says. */
    method AddView(child: View) returns (r: Result<()>)
      modifies this`children
      ensures (r, children) == AddedView(old(children), child)
    {
      if |children| > 0 {
        return Throws(IllegalState);
      }
      assert children == [];
      children := children + [child];
      children := children + [OverlayView];
      assert children == [child, OverlayView];
      r := Ok(());
    }

    /** `addView(child, index)`: the index is ignored. */
    method AddViewAt(child: View, index: int) returns (r: Result<()>)
      modifies this`children
      ensures (r, children) == AddedView(old(children), child)
    {
      r := AddView(child);
    }

    /** `addView(child, width, height)`: the size is ignored. */
    method AddViewSized(child: View, width: int, height: int) returns (r: Result<()>)
      modifies this`children
      ensures (r, children) == AddedView(old(children), child)
    {
      r := AddView(child);
    }

    /** `addView(child, params)`: the layout parameters are ignored (they
        are given here by an opaque identity). */
    method AddViewWithParams(child: View, params: nat) returns (r: Result<()>)
      modifies this`children
      ensures (r, children) == AddedView(old(children), child)
    {
      r := AddView(child);
    }

    /** `addView(child, index, params)`: index and parameters are ignored. */
    method AddViewAtWithParams(child: View, index: int, params: nat) returns (r: Result<()>)
      modifies this`children
      ensures (r, children) == AddedView(old(children), child)
    {
      r := AddView(child);
    }

    /** `onInterceptTouchEvent(ev)` with the layout at `(left, top)`: the
        recorded point changes as `Recorded` says, and the answer is the
        frame layout's own, given as `superAnswer`. */
    method OnInterceptTouchEvent(ev: MotionEvent, left: int, top: int, superAnswer: bool) returns (answer: bool)
      modifies this`lastDownX, this`lastDownY
      ensures (lastDownX, lastDownY) == Recorded(old((lastDownX, lastDownY)), ev, left, top)
      ensures answer == superAnswer
    {
      if ev.action == Down || ev.action == Move {
        lastDownX := left as real + ev.x;
        lastDownY := top as real + ev.y;
      }
      answer := superAnswer;
    }

    /** `showOverlay(bubbleActions)`: the overlay's `showOverlay` at the
        recorded point, with the builder's actions and indicator.
        - More than `MAX_ACTIONS` actions: IllegalArgumentException, the
          indicator untouched.
        - Otherwise the indicator takes the builder's drawable (the default
          one when it is null) and is centred on the recorded point.
        - No room on either side: IllegalStateException, no slot written.
        - Otherwise every slot is laid out as `SlotAfter` gives it for the
          fan at the recorded point, and one drag session is started. */
    method ShowOverlay(actions: seq<LegacyAction>, indicator: Option<Drawable>, width: int, height: int, trig: Trig)
      returns (r: Result<()>)
      requires Valid()
      modifies overlay, overlay.bubbles, overlay.actionStartX, overlay.actionStartY, overlay.actionEndX, overlay.actionEndY
      ensures Valid()
      ensures overlay.numActions == |actions|
      ensures |actions| > MAX_ACTIONS ==> r == Throws(IllegalArgument) && overlay.Ind() == old(overlay.Ind())
      ensures |actions| <= MAX_ACTIONS ==>
        overlay.Ind() == old(overlay.Ind()).(background := Some(if indicator.Some? then indicator.value else DefaultIndicator),
                                             x := lastDownX - overlay.indicatorWidth as real / 2.0,
                                             y := lastDownY - overlay.indicatorHeight as real / 2.0)
      ensures overlay.dragsStarted == old(overlay.dragsStarted) + (if r.Ok? then 1 else 0)
      ensures var n := |actions|;
        var leftOk := LeftOk(width, height, lastDownX, lastDownY, overlay.geometry, n, trig);
        var rightOk := RightOk(width, height, lastDownX, lastDownY, overlay.geometry, n, trig);
        && (n <= MAX_ACTIONS && !leftOk && !rightOk ==> r == Throws(IllegalState))
        && (n <= MAX_ACTIONS && (leftOk || rightOk) ==>
             && r == Ok(())
             && var fan := Fan(rightOk, StartingAngle(n, leftOk, rightOk, lastDownX, width, overlay.geometry, trig),
                               AngleDelta(n), lastDownX, lastDownY, trig);
                forall s :: 0 <= s < MAX_ACTIONS ==>
                  overlay.SlotAt(s) == LegacyOverlay.SlotAfter(old(overlay.SlotAt(s)), actions, fan, overlay.geometry,
                                                               overlay.bubbles[s].width, overlay.bubbles[s].height, n, s))
      ensures r.Throws? ==> forall s :: 0 <= s < MAX_ACTIONS ==> overlay.SlotAt(s) == old(overlay.SlotAt(s))
    {
      r := overlay.ShowOverlay(lastDownX, lastDownY, actions, indicator, width, height, trig);
    }

    /** `setLabelTypeface`: the overlay's bubble labels take the typeface. */
    method SetLabelTypeface(t: Option<Typeface>)
      requires Valid()
      modifies overlay.bubbles
      ensures Valid()
      ensures forall s :: 0 <= s < MAX_ACTIONS ==> overlay.bubbles[s].Snap() == old(overlay.bubbles[s].Snap()).(typeface := t)
    {
      overlay.SetLabelTypeface(t);
    }
  }
}
