/** `BubbleActions` of the current generation: the fluent builder that
    collects up to `MAX_ACTIONS` actions in a fixed array, adds its overlay
    to the root view, lays it out at the last touch point and drives the
    overlay's drag session, with the `showing` flag tracking whether the
    overlay is fully shown. */
module Actions {
  import opened Types
  import opened RadialLayout
  import opened DragUtils
  import Overlay

  /** `addAction(actionName, drawable, callback)` on a registry holding
      `registered`: the capacity check comes first (IllegalStateException),
      then a null drawable and then a null callback (IllegalArgumentException
      each); only when all three pass is the action appended. */
  function Added(registered: seq<Action>, actionName: Option<CharSequence>, drawable: Option<Drawable>,
                 callback: Option<Callback>): (r: (Result<()>, seq<Action>))
    ensures r.0.Ok? <==> |registered| < MAX_ACTIONS && drawable.Some? && callback.Some?
    ensures |registered| >= MAX_ACTIONS ==> r.0 == Throws(IllegalState)
    ensures |registered| < MAX_ACTIONS && (drawable.None? || callback.None?) ==> r.0 == Throws(IllegalArgument)
    ensures r.0.Throws? ==> r.1 == registered
    ensures r.0.Ok? ==> r.1 == registered + [Action(actionName, drawable.value, callback.value)]
  {
    if |registered| >= MAX_ACTIONS then (Throws(IllegalState), registered)
    else if drawable.None? then (Throws(IllegalArgument), registered)
    else if callback.None? then (Throws(IllegalArgument), registered)
    else (Ok(()), registered + [Action(actionName, drawable.value, callback.value)])
  }

  /** Adding never takes the registry past its capacity. */
  lemma AddedKeepsCapacity(registered: seq<Action>, actionName: Option<CharSequence>, drawable: Option<Drawable>,
                           callback: Option<Callback>)
    requires |registered| <= MAX_ACTIONS
    ensures |Added(registered, actionName, drawable, callback).1| <= MAX_ACTIONS
  {
  }

  /** The menu items `fromMenu` refuses: one with a submenu, without an
      icon, without a title, or with id 0. */
  predicate BadItem(item: MenuItem)
  {
    item.hasSubMenu || item.icon.None? || item.title.None? || item.itemId == 0
  }

  /** The action `fromMenu` builds from an acceptable item: its title, its
      icon, and a callback that forwards the item's id. */
  function MenuAction(item: MenuItem, menuCallback: Option<nat>): Action
    requires !BadItem(item)
  {
    Action(item.title, item.icon.value, MenuForward(menuCallback, item.itemId))
  }

  /** The actions built from acceptable menu items, in menu order: each
      takes the item's title and icon, and its callback forwards exactly
      the item's own id to the menu callback, or raises NullPointerException
      when that is null. */
  function MenuActions(items: seq<MenuItem>, menuCallback: Option<nat>): (r: seq<Action>)
    requires forall k :: 0 <= k < |items| ==> !BadItem(items[k])
    ensures |r| == |items|
    ensures forall k :: 0 <= k < |items| ==>
      && r[k].actionName == items[k].title
      && Some(r[k].bubble) == items[k].icon
      && Run(r[k].callback) == (if menuCallback.Some? then Ok(MenuItemDone(menuCallback.value, items[k].itemId))
                                else Throws(NullPointer))
  {
    var r := seq(|items|, k requires 0 <= k < |items| => MenuAction(items[k], menuCallback));
    forall k | 0 <= k < |items|
      ensures && r[k].actionName == items[k].title
              && Some(r[k].bubble) == items[k].icon
              && Run(r[k].callback) == (if menuCallback.Some? then Ok(MenuItemDone(menuCallback.value, items[k].itemId))
                                        else Throws(NullPointer))
    {
      assert r[k] == MenuAction(items[k], menuCallback);
    }
    r
  }

  /** The loop of `fromMenu` over `items`, starting from `registered`: each
      item is checked, then added through `addAction`; the first refusal
      stops the loop with the items before it already added. */
  function Append(registered: seq<Action>, items: seq<MenuItem>, menuCallback: Option<nat>): (r: (Result<()>, seq<Action>))
    decreases |items|
  {
    if items == [] then (Ok(()), registered)
    else if BadItem(items[0]) then (Throws(IllegalArgument), registered)
    else
      var added := Added(registered, items[0].title, items[0].icon, Some(MenuForward(menuCallback, items[0].itemId)));
      if added.0.Throws? then added
      else Append(added.1, items[1..], menuCallback)
  }

  /** `fromMenu` on a registry holding `registered`: a menu of more than
      `MAX_ACTIONS` items is refused before anything is added; otherwise the
      loop `Append`. */
  function FromMenu(registered: seq<Action>, items: seq<MenuItem>, menuCallback: Option<nat>): (r: (Result<()>, seq<Action>))
    ensures |items| > MAX_ACTIONS ==> r == (Throws(IllegalArgument), registered)
    ensures |items| <= MAX_ACTIONS ==> r == Append(registered, items, menuCallback)
  {
    if |items| > MAX_ACTIONS then (Throws(IllegalArgument), registered)
    else Append(registered, items, menuCallback)
  }

  /** One acceptable item added to a registry with room: `addAction`
      appends its action and the loop goes on with the rest. */
  lemma AppendGoodItem(registered: seq<Action>, items: seq<MenuItem>, menuCallback: Option<nat>)
    requires items != [] && !BadItem(items[0]) && |registered| < MAX_ACTIONS
    ensures Append(registered, items, menuCallback)
         == Append(registered + [MenuAction(items[0], menuCallback)], items[1..], menuCallback)
  {
  }

  /** The actions of a non-empty prefix of acceptable items: the first
      item's action, then those of the rest of the prefix. */
  lemma MenuActionsOfPrefix(items: seq<MenuItem>, menuCallback: Option<nat>, j: nat)
    requires 0 < j <= |items|
    requires forall k :: 0 <= k < j ==> !BadItem(items[k])
    ensures MenuActions(items[..j], menuCallback)
         == [MenuAction(items[0], menuCallback)] + MenuActions(items[1..][..j - 1], menuCallback)
  {
    assert items[..j][1..] == items[1..][..j - 1];
  }

  /** Running the loop over a prefix of `j` acceptable items that fits in
      the registry adds their actions in menu order and leaves the rest of
      the loop to run over `items[j..]`. */
  lemma {:induction false} AppendPrefix(registered: seq<Action>, items: seq<MenuItem>, menuCallback: Option<nat>, j: nat)
    requires j <= |items| && |registered| + j <= MAX_ACTIONS
    requires forall k :: 0 <= k < j ==> !BadItem(items[k])
    ensures Append(registered, items, menuCallback)
         == Append(registered + MenuActions(items[..j], menuCallback), items[j..], menuCallback)
    decreases j
  {
    if j == 0 {
      assert MenuActions(items[..j], menuCallback) == [];
      assert registered + [] == registered && items[j..] == items;
    } else {
      var a := MenuAction(items[0], menuCallback);
      AppendGoodItem(registered, items, menuCallback);
      AppendPrefix(registered + [a], items[1..], menuCallback, j - 1);
      MenuActionsOfPrefix(items, menuCallback, j);
      var rest := MenuActions(items[1..][..j - 1], menuCallback);
      assert items[1..][j - 1..] == items[j..];
      assert (registered + [a]) + rest == registered + ([a] + rest);
    }
  }

  /** A menu of acceptable items that fits in the registry is added whole,
      in menu order. */
  lemma AppendAllGood(registered: seq<Action>, items: seq<MenuItem>, menuCallback: Option<nat>)
    requires forall k :: 0 <= k < |items| ==> !BadItem(items[k])
    requires |registered| + |items| <= MAX_ACTIONS
    ensures Append(registered, items, menuCallback) == (Ok(()), registered + MenuActions(items, menuCallback))
  {
    AppendPrefix(registered, items, menuCallback, |items|);
    assert items[..|items|] == items && items[|items|..] == [];
  }

  /** The first refused item `items[j]` stops `fromMenu` with
      IllegalArgumentException, after the `j` items before it were added. */
  lemma AppendStopsAtFirstBad(registered: seq<Action>, items: seq<MenuItem>, menuCallback: Option<nat>, j: nat)
    requires j < |items| && BadItem(items[j])
    requires forall k :: 0 <= k < j ==> !BadItem(items[k])
    requires |registered| + j <= MAX_ACTIONS
    ensures Append(registered, items, menuCallback) == (Throws(IllegalArgument), registered + MenuActions(items[..j], menuCallback))
  {
    AppendPrefix(registered, items, menuCallback, j);
    assert items[j..][0] == items[j];
  }

  /** When acceptable items outnumber the free slots, the first item past
      the capacity makes `addAction` throw IllegalStateException; the free
      slots were filled in menu order. */
  lemma AppendStopsWhenFull(registered: seq<Action>, items: seq<MenuItem>, menuCallback: Option<nat>, j: nat)
    requires |registered| + j == MAX_ACTIONS && j < |items|
    requires forall k :: 0 <= k <= j ==> !BadItem(items[k])
    ensures Append(registered, items, menuCallback) == (Throws(IllegalState), registered + MenuActions(items[..j], menuCallback))
  {
    AppendPrefix(registered, items, menuCallback, j);
    assert items[j..][0] == items[j];
  }

  /** Whatever the outcome, the registry stays within its capacity and keeps
      the actions it held, in front. */
  lemma {:induction false} AppendKeepsCapacity(registered: seq<Action>, items: seq<MenuItem>, menuCallback: Option<nat>)
    requires |registered| <= MAX_ACTIONS
    ensures var r := Append(registered, items, menuCallback);
      |registered| <= |r.1| <= MAX_ACTIONS && r.1[..|registered|] == registered
    decreases |items|
  {
    if items != [] && !BadItem(items[0]) && |registered| < MAX_ACTIONS {
      var a := MenuAction(items[0], menuCallback);
      AppendGoodItem(registered, items, menuCallback);
      AppendKeepsCapacity(registered + [a], items[1..], menuCallback);
      var r := Append(registered, items, menuCallback);
      assert r.1[..|registered|] == r.1[..|registered| + 1][..|registered|];
    }
  }

  /** The two animation-set listeners the overlay's drag listener installs:
      on the show set and on the hide set. */
  datatype SetListener = RevealListener | DismissListener

  /** An animation set the drag listener started: its listener and its
      animations. */
  datatype StartedSet = StartedSet(listener: SetListener, animations: seq<Animation>)

  /** What `showOverlay` ends in: the uncaught NullPointerException of a
      missing lookup, a silent return on the two caught failures, and
      otherwise what `setupOverlay` raises (IllegalStateException when
      there is no room on either side). */
  function ShowOutcome(lookup: TouchLookup, room: bool): (r: Result<()>)
    ensures r == Throws(NullPointer) <==> lookup.MissingLookup?
    ensures r == Throws(IllegalState) <==> lookup.TouchPoint? && !room
    ensures r.Ok? <==> lookup.InvocationTargetFailure? || lookup.IllegalAccessFailure? || (lookup.TouchPoint? && room)
  {
    match lookup
    case MissingLookup => Throws(NullPointer)
    case InvocationTargetFailure => Ok(())
    case IllegalAccessFailure => Ok(())
    case TouchPoint(_, _) => if room then Ok(()) else Throws(IllegalState)
  }

  /** Whether the overlay of size `width` by `height` has room on one side of
      the touch point `(x, y)` for `n` actions. */
  predicate Room(x: int, y: int, n: nat, width: int, height: int, g: Geometry, trig: Trig)
  {
    LeftOk(width, height, x as real, y as real, g, n, trig) || RightOk(width, height, x as real, y as real, g, n, trig)
  }

  /** `on(view)`: a root view that is missing or is not a `ViewGroup` is
      refused with IllegalArgumentException; a `ViewGroup` not attached to a
      window makes the constructor raise NullPointerException, which nothing
      catches; otherwise a new builder over that root, with nothing
      registered and not showing. */
  method On(root: RootView, geometry: Geometry, indicatorWidth: int, indicatorHeight: int,
            sizes: seq<(int, int)>, labelVisible: bool)
    returns (r: Result<BubbleActions>)
    requires ValidGeometry(geometry) && |sizes| == MAX_ACTIONS
    ensures r.Throws? <==> !root.GroupRootView?
    ensures r == Throws(IllegalArgument) <==> root.NoRootView? || root.PlainRootView?
    ensures r == Throws(NullPointer) <==> root.DetachedGroupRootView?
    ensures r.Ok? ==> fresh(r.value) && r.value.Valid() && r.value.Registered() == [] && !r.value.showing
  {
    if root.NoRootView? {
      return Throws(IllegalArgument);
    }
    if root.PlainRootView? {
      return Throws(IllegalArgument);
    }
    // The constructor's `viewRootImpl.getClass()` on a detached root.
    if root.DetachedGroupRootView? {
      return Throws(NullPointer);
    }
    var b := new BubbleActions(geometry, indicatorWidth, indicatorHeight, sizes, labelVisible);
    r := Ok(b);
  }

  class BubbleActions {
    /** The overlay this builder shows, created with it. */
    const overlay: Overlay.BubbleActionOverlay
    /** `actions`: a fixed array of `MAX_ACTIONS` slots, filled from 0. */
    const registry: array<Option<Action>>
    /** `numActions`: how many slots are filled. */
    var numActions: nat
    /** The indicator drawable handed to the overlay. */
    var indicator: Option<Drawable>
    /** Whether the show animation has ended and the overlay has not been
        removed since. */
    var showing: bool
    /** Whether the overlay is a child of the root view. */
    var attached: bool
    /** Layout-change listeners registered by `show` and not yet run. */
    var layoutListeners: nat
    /** Whether the detach listener of the last `showOverlay` is installed. */
    var detachListener: bool
    /** The last touch point read. */
    var touchPoint: (int, int)
    /** Calls of the overlay's `resetBubbleViews`. */
    var bubbleResets: nat
    /** The animation sets started by the drag listener, oldest first. */
    var started: seq<StartedSet>

    /** The registry array's shape: `MAX_ACTIONS` slots, the first
        `numActions` of them filled. */
    predicate Filled()
      reads this, registry
    {
      && registry.Length == MAX_ACTIONS
      && numActions <= MAX_ACTIONS
      && (forall i :: 0 <= i < numActions ==> registry[i].Some?)
    }

    ghost predicate Valid()
      reads this, registry, overlay, overlay.bubbles
    {
      && Filled()
      && overlay.Valid()
      && overlay.numActions <= MAX_ACTIONS
    }

    /** The registered actions, in the order they were added. */
    function Registered(): (r: seq<Action>)
      reads this, registry
      requires Filled()
      ensures |r| == numActions
    {
      Values(registry[..numActions])
    }

    /** The overlay as `setupOverlay` leaves it for the registered actions
        and the indicator at the touch point `(x, y)`: the action count
        stored, the indicator's drawable (the default one for a null
        indicator) centred on the point; with room on one side, every slot as
        `SlotAfter` gives it for the fan at the point, and without room,
        every slot as it was. */
    twostate predicate SetUpAt(x: int, y: int, width: int, height: int, trig: Trig)
      reads this, registry, overlay, overlay.bubbles, overlay.actionStartX, overlay.actionStartY, overlay.actionEndX, overlay.actionEndY
      requires Filled() && overlay.Wired()
    {
      var n, ox, oy := numActions, x as real, y as real;
      var leftOk := LeftOk(width, height, ox, oy, overlay.geometry, n, trig);
      var rightOk := RightOk(width, height, ox, oy, overlay.geometry, n, trig);
      var fan := Fan(rightOk, StartingAngle(n, leftOk, rightOk, ox, width, overlay.geometry, trig), AngleDelta(n), ox, oy, trig);
      && overlay.numActions == n
      && overlay.indicatorImage == Some(if indicator.Some? then indicator.value else DefaultIndicator)
      && overlay.indicatorX == ox - overlay.indicatorWidth as real / 2.0
      && overlay.indicatorY == oy - overlay.indicatorHeight as real / 2.0
      && (leftOk || rightOk ==> forall s :: 0 <= s < MAX_ACTIONS ==>
            overlay.SlotAt(s) == Overlay.SlotAfter(old(overlay.SlotAt(s)), Registered(), fan, overlay.geometry,
                                                   overlay.bubbles[s].width, overlay.bubbles[s].height, n, s))
      && (!leftOk && !rightOk ==> forall s :: 0 <= s < MAX_ACTIONS ==> overlay.SlotAt(s) == old(overlay.SlotAt(s)))
    }

    /** Nothing of the overlay changed: its own fields, its bubbles and its
        four position arrays. */
    twostate predicate OverlayKept()
      reads overlay, overlay.bubbles, overlay.actionStartX, overlay.actionStartY, overlay.actionEndX, overlay.actionEndY
    {
      && unchanged(overlay, overlay.actionStartX, overlay.actionStartY, overlay.actionEndX, overlay.actionEndY)
      && unchanged(overlay.bubbles)
    }

    /** The private constructor: the default indicator, a fresh overlay
        whose drag listener is this builder's, an empty registry, not
        showing. */
    constructor (geometry: Geometry, indicatorWidth: int, indicatorHeight: int, sizes: seq<(int, int)>, labelVisible: bool)
      requires ValidGeometry(geometry) && |sizes| == MAX_ACTIONS
      ensures Valid()
      ensures fresh(overlay) && fresh(registry)
      ensures Registered() == [] && indicator == Some(DefaultIndicator)
      ensures !showing && !attached && layoutListeners == 0 && !detachListener
      ensures bubbleResets == 0 && started == []
    {
      overlay := new Overlay.BubbleActionOverlay(geometry, indicatorWidth, indicatorHeight, sizes, labelVisible);
      registry := new Option<Action>[MAX_ACTIONS](_ => None);
      numActions := 0;
      indicator := Some(DefaultIndicator);
      showing := false;
      attached := false;
      layoutListeners := 0;
      detachListener := false;
      touchPoint := (0, 0);
      bubbleResets := 0;
      started := [];
    }

    /** `withTypeface`: every bubble label takes the typeface. */
    method WithTypeface(t: Option<Typeface>)
      requires Valid()
      modifies overlay.bubbles
      ensures Valid()
      ensures forall s :: 0 <= s < MAX_ACTIONS ==> overlay.bubbles[s].Snap() == old(overlay.bubbles[s].Snap()).(typeface := t)
    {
      overlay.SetLabelTypeface(t);
    }

    /** `withIndicator(Drawable)`: the indicator is replaced, null included. */
    method WithIndicator(d: Option<Drawable>)
      modifies this`indicator
      ensures indicator == d
    {
      indicator := d;
    }

    /** `withIndicator(int)`: the indicator is the resource's drawable. */
    method WithIndicatorResource(res: nat)
      modifies this`indicator
      ensures indicator == Some(Image(res))
    {
      WithIndicator(Some(Image(res)));
    }

    /** `addAction(actionName, drawable, callback)`: the registry changes as
        `Added` says; a success writes slot `numActions` and no other, then
        counts it. */
    method AddAction(actionName: Option<CharSequence>, drawable: Option<Drawable>, callback: Option<Callback>)
      returns (r: Result<()>)
      requires Valid()
      modifies this`numActions, registry
      ensures Valid()
      ensures (r, Registered()) == Added(old(Registered()), actionName, drawable, callback)
      ensures r.Throws? ==> numActions == old(numActions) && registry[..] == old(registry[..])
      ensures r.Ok? ==>
        && numActions == old(numActions) + 1
        && registry[..] == old(registry[..])[old(numActions) := Some(Action(actionName, drawable.value, callback.value))]
    {
      if numActions >= registry.Length {
        return Throws(IllegalState);
      }
      if drawable.None? {
        return Throws(IllegalArgument);
      }
      if callback.None? {
        return Throws(IllegalArgument);
      }
      ghost var before := registry[..numActions];
      var a := Action(actionName, drawable.value, callback.value);
      registry[numActions] := Some(a);
      numActions := numActions + 1;
      assert registry[..numActions] == before + [Some(a)];
      ValuesSnoc(before, a);
      r := Ok(());
    }

    /** `addAction(actionName, drawableRes, callback)`: the resource's
        drawable, then the same as `AddAction`. */
    method AddActionResource(actionName: Option<CharSequence>, res: nat, callback: Option<Callback>)
      returns (r: Result<()>)
      requires Valid()
      modifies this`numActions, registry
      ensures Valid()
      ensures (r, Registered()) == Added(old(Registered()), actionName, Some(Image(res)), callback)
    {
      r := AddAction(actionName, Some(Image(res)), callback);
    }

    /** `fromMenu(menuRes, callback)`, given the inflated menu's items: the
        registry changes as `FromMenu` says. */
    method FromMenuItems(items: seq<MenuItem>, menuCallback: Option<nat>) returns (r: Result<()>)
      requires Valid()
      modifies this`numActions, registry
      ensures Valid()
      ensures (r, Registered()) == FromMenu(old(Registered()), items, menuCallback)
    {
      if |items| > MAX_ACTIONS {
        return Throws(IllegalArgument);
      }
      var i := 0;
      while i < |items|
        invariant 0 <= i <= |items|
        invariant Valid()
        invariant Append(old(Registered()), items, menuCallback) == Append(Registered(), items[i..], menuCallback)
      {
        var item := items[i];
        assert items[i..][0] == item && items[i..][1..] == items[i + 1..];
        if BadItem(item) {
          return Throws(IllegalArgument);
        }
        var added := AddAction(item.title, item.icon, Some(MenuForward(menuCallback, item.itemId)));
        if added.Throws? {
          return added;
        }
        i := i + 1;
      }
      r := Ok(());
    }

    /** `isShowing`. */
    method IsShowing() returns (r: bool)
      ensures r == showing
    {
      r := showing;
    }

    /** `show()`, given whether the overlay is laid out yet and, for the case
        it is, what the touch-point lookup gives and the overlay's size.
        - While showing, nothing happens.
        - Otherwise the overlay is added to the root view if it is not
          there yet; then, laid out, `showOverlay` runs at once, and not laid
          out, a layout-change listener is registered to run it later.
        `showing` itself never changes here. */
    method Show(laidOut: bool, lookup: TouchLookup, width: int, height: int, trig: Trig) returns (r: Result<()>)
      requires Valid()
      modifies this, overlay, overlay.bubbles, overlay.actionStartX, overlay.actionStartY, overlay.actionEndX, overlay.actionEndY
      ensures Valid()
      ensures showing == old(showing) && Registered() == old(Registered())
      ensures indicator == old(indicator) && started == old(started) && bubbleResets == old(bubbleResets)
      ensures overlay.backgroundDimmed == old(overlay.backgroundDimmed) && overlay.indicatorAlpha == old(overlay.indicatorAlpha)
      ensures old(showing) ==> r == Ok(()) && unchanged(this) && OverlayKept()
      ensures !old(showing) ==> attached
      ensures !laidOut ==> detachListener == old(detachListener) && touchPoint == old(touchPoint)
      ensures !old(showing) && !laidOut ==>
        r == Ok(()) && layoutListeners == old(layoutListeners) + 1 && OverlayKept()
      ensures !old(showing) && laidOut ==>
        && layoutListeners == old(layoutListeners)
        && var room := lookup.TouchPoint? && Room(lookup.x, lookup.y, numActions, width, height, overlay.geometry, trig);
           && r == ShowOutcome(lookup, room)
           && overlay.dragsStarted == old(overlay.dragsStarted) + (if lookup.TouchPoint? && room then 1 else 0)
           && detachListener == (old(detachListener) || (lookup.TouchPoint? && room))
           && (lookup.TouchPoint? ==> touchPoint == (lookup.x, lookup.y) && SetUpAt(lookup.x, lookup.y, width, height, trig))
           && (!lookup.TouchPoint? ==> OverlayKept())
    {
      if showing {
        return Ok(());
      }
      if !attached {
        attached := true;
      }
      if laidOut {
        r := ShowOverlay(lookup, width, height, trig);
      } else {
        layoutListeners := layoutListeners + 1;
        r := Ok(());
      }
    }

    /** A layout change reaching one registered layout-change listener: the
        listener removes itself, then `showOverlay` runs. With no listener
        registered, nothing happens. */
    method OnLayoutChange(lookup: TouchLookup, width: int, height: int, trig: Trig) returns (r: Result<()>)
      requires Valid()
      modifies this, overlay, overlay.bubbles, overlay.actionStartX, overlay.actionStartY, overlay.actionEndX, overlay.actionEndY
      ensures Valid()
      ensures showing == old(showing) && Registered() == old(Registered())
      ensures indicator == old(indicator) && started == old(started) && bubbleResets == old(bubbleResets)
      ensures overlay.backgroundDimmed == old(overlay.backgroundDimmed) && overlay.indicatorAlpha == old(overlay.indicatorAlpha)
      ensures old(layoutListeners) == 0 ==> r == Ok(()) && unchanged(this) && OverlayKept()
      ensures old(layoutListeners) > 0 ==>
        && layoutListeners == old(layoutListeners) - 1
        && var room := lookup.TouchPoint? && Room(lookup.x, lookup.y, numActions, width, height, overlay.geometry, trig);
           && r == ShowOutcome(lookup, room)
           && overlay.dragsStarted == old(overlay.dragsStarted) + (if lookup.TouchPoint? && room then 1 else 0)
           && detachListener == (old(detachListener) || (lookup.TouchPoint? && room))
           && (lookup.TouchPoint? ==> touchPoint == (lookup.x, lookup.y) && SetUpAt(lookup.x, lookup.y, width, height, trig))
           && (!lookup.TouchPoint? ==> OverlayKept())
    {
      if layoutListeners == 0 {
        return Ok(());
      }
      layoutListeners := layoutListeners - 1;
      r := ShowOverlay(lookup, width, height, trig);
    }

    /** `showOverlay()`: read the touch point, set the overlay up there with
        the registered actions and the indicator, install the detach
        listener and start the drag. The caught failures return early, with
        nothing changed; an exception of `setupOverlay` propagates before the
        listener and the drag. */
    method ShowOverlay(lookup: TouchLookup, width: int, height: int, trig: Trig) returns (r: Result<()>)
      requires Valid()
      modifies this, overlay, overlay.bubbles, overlay.actionStartX, overlay.actionStartY, overlay.actionEndX, overlay.actionEndY
      ensures Valid()
      ensures showing == old(showing) && attached == old(attached) && layoutListeners == old(layoutListeners)
      ensures indicator == old(indicator) && started == old(started) && bubbleResets == old(bubbleResets)
      ensures overlay.backgroundDimmed == old(overlay.backgroundDimmed) && overlay.indicatorAlpha == old(overlay.indicatorAlpha)
      ensures numActions == old(numActions) && registry[..] == old(registry[..])
      ensures var room := lookup.TouchPoint? && Room(lookup.x, lookup.y, numActions, width, height, overlay.geometry, trig);
        && r == ShowOutcome(lookup, room)
        && overlay.dragsStarted == old(overlay.dragsStarted) + (if lookup.TouchPoint? && room then 1 else 0)
        && detachListener == (old(detachListener) || (lookup.TouchPoint? && room))
      ensures lookup.TouchPoint? ==> touchPoint == (lookup.x, lookup.y) && SetUpAt(lookup.x, lookup.y, width, height, trig)
      ensures !lookup.TouchPoint? ==> unchanged(this) && OverlayKept()
    {
      match lookup
      case MissingLookup =>
        return Throws(NullPointer);
      case InvocationTargetFailure =>
        return Ok(());
      case IllegalAccessFailure =>
        return Ok(());
      case TouchPoint(x, y) =>
        touchPoint := (x, y);
        var setup := overlay.SetupOverlay(x as real, y as real, Registered(), indicator, width, height, trig);
        if setup.Throws? {
          return setup;
        }
        detachListener := true;
        overlay.StartDrag();
        r := Ok(());
    }

    /** `removeOverlay()`: no longer showing, the overlay leaves the root view
        and its bubbles are reset (`resetBubbleViews`, counted). Leaving the
        view detaches the overlay from its window, so the platform follows
        every `RemoveOverlay` with `OnOverlayDetached`, which uninstalls the
        detach listener. */
    method RemoveOverlay()
      modifies this`showing, this`attached, this`bubbleResets
      ensures !showing && !attached && bubbleResets == old(bubbleResets) + 1
    {
      showing := false;
      attached := false;
      bubbleResets := bubbleResets + 1;
    }

    /** The overlay being detached from its window: the installed detach
        listener uninstalls itself and, while showing, removes the overlay.
        Without a listener nothing happens. */
    method OnOverlayDetached()
      modifies this`detachListener, this`showing, this`attached, this`bubbleResets
      ensures !detachListener
      ensures old(detachListener) && old(showing) ==> !showing && !attached && bubbleResets == old(bubbleResets) + 1
      ensures !(old(detachListener) && old(showing)) ==>
        showing == old(showing) && attached == old(attached) && bubbleResets == old(bubbleResets)
    {
      if detachListener {
        detachListener := false;
        if showing {
          RemoveOverlay();
        }
      }
    }

    /** The overlay's drag listener.
        - DRAG_STARTED with the library's label: start the show set with the
          listener that dims and later marks the overlay shown; true.
        - DRAG_STARTED with any other label: false.
        - DRAG_ENDED: start the hide set with the listener that undims and
          later removes the overlay; true.
        - Anything else: false.
        A false answer changes nothing. */
    method OnOverlayDrag(e: DragEvent) returns (r: Result<bool>)
      requires Valid()
      modifies this`started, overlay.bubbles
      ensures Valid()
      ensures r == Ok(e.action == DragEnded || (e.action == DragStarted && IsDragForMe(e.clipLabel)))
      ensures e.action == DragStarted && IsDragForMe(e.clipLabel) ==>
        && started == old(started) + [StartedSet(RevealListener, Overlay.ShowSet(overlay.actionEndX[..], overlay.actionEndY[..], overlay.numActions))]
        && forall s :: 0 <= s < MAX_ACTIONS ==>
             overlay.bubbles[s].Snap() == old(overlay.bubbles[s].Snap()).(visible := s < overlay.numActions || old(overlay.bubbles[s].visible))
      ensures e.action == DragEnded ==>
        && started == old(started) + [StartedSet(DismissListener, Overlay.HideSet(overlay.actionStartX[..], overlay.actionStartY[..], overlay.numActions))]
        && unchanged(overlay.bubbles)
      ensures r == Ok(false) ==> started == old(started) && unchanged(overlay.bubbles)
      ensures showing == old(showing)
    {
      match e.action
      case DragStarted =>
        if IsDragForMe(e.clipLabel) {
          var anims := overlay.GetAnimateSetShow();
          started := started + [StartedSet(RevealListener, anims.value)];
          return Ok(true);
        }
        return Ok(false);
      case DragEnded =>
        var anims := overlay.GetAnimateSetHide();
        started := started + [StartedSet(DismissListener, anims.value)];
        return Ok(true);
      case _ =>
        return Ok(false);
    }

    /** The start of the `k`-th started set: the show set's listener dims
        the background, the hide set's listener undims it. */
    method OnSetStart(k: nat)
      requires k < |started|
      modifies overlay`backgroundDimmed
      ensures overlay.backgroundDimmed == (started[k].listener == RevealListener)
    {
      if started[k].listener == RevealListener {
        overlay.AnimateDimBackground();
      } else {
        overlay.AnimateUndimBackground();
      }
    }

    /** The end of the `k`-th started set: the show set's listener marks the
        overlay as showing, which is the only place `showing` becomes true;
        the hide set's listener removes the overlay. */
    method OnSetEnd(k: nat)
      requires k < |started|
      modifies this`showing, this`attached, this`bubbleResets
      ensures started[k].listener == RevealListener ==>
        showing && attached == old(attached) && bubbleResets == old(bubbleResets)
      ensures started[k].listener == DismissListener ==>
        !showing && !attached && bubbleResets == old(bubbleResets) + 1
    {
      if started[k].listener == RevealListener {
        showing := true;
      } else {
        RemoveOverlay();
      }
    }
  }
}
