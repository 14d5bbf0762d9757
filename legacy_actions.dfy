/** `BubbleActions` of the legacy generation: a builder over the root view
    that collects up to `MAX_ACTIONS` actions, each with a foreground and a
    background drawable, in a fixed array, and hands them to its overlay.
    The overlay operations it calls for showing and for the drag session
    (`setupOverlay`, the no-argument `showOverlay`, `dragStarted`,
    `dragEnded`) are not among the legacy overlay's own operations; the
    builder records each such call as a request, and what the call returns
    is an input. */
module LegacyActions {
  import opened Types
  import opened RadialLayout
  import LegacyOverlay

  /** `addAction(actionName, foreground, background, callback)` on a
      registry holding `registered`: the capacity check comes first
      (IllegalStateException), then a null foreground, a null background
      and a null callback (IllegalArgumentException each); only when all
      four pass is the action appended. */
  function Added(registered: seq<LegacyAction>, actionName: Option<CharSequence>, foreground: Option<Drawable>,
                 background: Option<Drawable>, callback: Option<Callback>): (r: (Result<()>, seq<LegacyAction>))
    ensures r.0.Ok? <==> |registered| < MAX_ACTIONS && foreground.Some? && background.Some? && callback.Some?
    ensures |registered| >= MAX_ACTIONS ==> r.0 == Throws(IllegalState)
    ensures |registered| < MAX_ACTIONS && (foreground.None? || background.None? || callback.None?) ==>
      r.0 == Throws(IllegalArgument)
    ensures r.0.Throws? ==> r.1 == registered
    ensures r.0.Ok? ==> r.1 == registered + [LegacyAction(actionName, foreground.value, background.value, callback.value)]
  {
    if |registered| >= MAX_ACTIONS then (Throws(IllegalState), registered)
    else if foreground.None? then (Throws(IllegalArgument), registered)
    else if background.None? then (Throws(IllegalArgument), registered)
    else if callback.None? then (Throws(IllegalArgument), registered)
    else (Ok(()), registered + [LegacyAction(actionName, foreground.value, background.value, callback.value)])
  }

  /** The registry that runs `addAction` over `calls` one after another,
      starting from `registered`, each call's exception caught by the
      caller. */
  function AddedAll(registered: seq<LegacyAction>, calls: seq<(Option<CharSequence>, Option<Drawable>, Option<Drawable>, Option<Callback>)>): seq<LegacyAction>
    decreases |calls|
  {
    if calls == [] then registered
    else
      var c := calls[0];
      AddedAll(Added(registered, c.0, c.1, c.2, c.3).1, calls[1..])
  }

  /** Whatever calls are made, the registry never holds more than
      `MAX_ACTIONS` actions, and the actions it held stay in front. */
  lemma {:induction false} AddedAllKeepsCapacity(registered: seq<LegacyAction>,
                                                 calls: seq<(Option<CharSequence>, Option<Drawable>, Option<Drawable>, Option<Callback>)>)
    requires |registered| <= MAX_ACTIONS
    ensures var r := AddedAll(registered, calls);
      |registered| <= |r| <= MAX_ACTIONS && r[..|registered|] == registered
    decreases |calls|
  {
    if calls != [] {
      var c := calls[0];
      var next := Added(registered, c.0, c.1, c.2, c.3).1;
      AddedAllKeepsCapacity(next, calls[1..]);
      var r := AddedAll(registered, calls);
      assert r[..|registered|] == r[..|next|][..|registered|];
    }
  }

  /** An overlay operation the builder calls that the legacy overlay does
      not define, as the builder requests it. */
  datatype OverlayRequest =
    | SetupOverlayAt(x: int, y: int, actions: seq<LegacyAction>, indicator: Option<Drawable>)
    | ShowOverlayNow
    | DragStartedWith(e: DragEvent)
    | DragEndedFor

  /** The requests `setupAndShow` makes: none when the touch-point lookup
      fails; otherwise `setupOverlay` at the touch point, and then the
      no-argument `showOverlay` only when `setupOverlay` returned normally. */
  function SetupRequests(lookup: TouchLookup, registered: seq<LegacyAction>, indicator: Option<Drawable>,
                         setup: Result<()>): (r: seq<OverlayRequest>)
    ensures !lookup.TouchPoint? ==> r == []
    ensures lookup.TouchPoint? && setup.Throws? ==> r == [SetupOverlayAt(lookup.x, lookup.y, registered, indicator)]
    ensures lookup.TouchPoint? && setup.Ok? ==> r == [SetupOverlayAt(lookup.x, lookup.y, registered, indicator), ShowOverlayNow]
  {
    match lookup
    case TouchPoint(x, y) =>
      [SetupOverlayAt(x, y, registered, indicator)] + (if setup.Ok? then [ShowOverlayNow] else [])
    case _ => []
  }

  /** What `setupAndShow` ends in: the NullPointerException of a missing
      lookup, a normal return on the two caught failures, the exception of
      `setupOverlay`, and otherwise what `showOverlay` gives. */
  function SetupOutcome(lookup: TouchLookup, setup: Result<()>, shown: Result<()>): (r: Result<()>)
    ensures lookup.MissingLookup? ==> r == Throws(NullPointer)
    ensures lookup.InvocationTargetFailure? || lookup.IllegalAccessFailure? ==> r == Ok(())
    ensures lookup.TouchPoint? ==> r == if setup.Throws? then setup else shown
  {
    match lookup
    case MissingLookup => Throws(NullPointer)
    case InvocationTargetFailure => Ok(())
    case IllegalAccessFailure => Ok(())
    case TouchPoint(_, _) => if setup.Throws? then setup else shown
  }

  /** The overlay is shown only after a touch point was found and the
      overlay was set up there without an exception: a failed lookup shows
      nothing, and a failed setup does not go on to show. */
  lemma ShowRequestedOnlyAfterSetup(lookup: TouchLookup, registered: seq<LegacyAction>, indicator: Option<Drawable>,
                                    setup: Result<()>)
    ensures ShowOverlayNow in SetupRequests(lookup, registered, indicator, setup) <==> lookup.TouchPoint? && setup.Ok?
    ensures lookup.TouchPoint? ==>
      SetupRequests(lookup, registered, indicator, setup)[0] == SetupOverlayAt(lookup.x, lookup.y, registered, indicator)
  {
    if lookup.TouchPoint? && setup.Throws? {
      assert SetupRequests(lookup, registered, indicator, setup) == [SetupOverlayAt(lookup.x, lookup.y, registered, indicator)];
    }
  }

  /** The drag listener's dispatch: DRAG_STARTED goes to `dragStarted`
      with the event and DRAG_ENDED to `dragEnded`; no other action is
      forwarded. */
  function Forwarded(e: DragEvent): (r: Option<OverlayRequest>)
    ensures r.Some? <==> e.action == DragStarted || e.action == DragEnded
    ensures e.action == DragStarted ==> r == Some(DragStartedWith(e))
    ensures e.action == DragEnded ==> r == Some(DragEndedFor)
  {
    match e.action
    case DragStarted => Some(DragStartedWith(e))
    case DragEnded => Some(DragEndedFor)
    case _ => None
  }

  /** `on(view, indicator)`: a root view that is missing or is not a
      `ViewGroup` is refused with IllegalArgumentException; a `ViewGroup` not
      attached to a window makes the constructor raise NullPointerException,
      which nothing catches; otherwise a new builder over that root with the
      indicator as given (null included), nothing registered and nothing
      requested of the overlay. */
  method On(root: RootView, indicator: Option<Drawable>, geometry: Geometry, indicatorWidth: int, indicatorHeight: int,
            sizes: seq<(int, int)>, labelVisible: bool)
    returns (r: Result<BubbleActions>)
    requires ValidGeometry(geometry) && |sizes| == MAX_ACTIONS
    ensures r.Throws? <==> !root.GroupRootView?
    ensures r == Throws(IllegalArgument) <==> root.NoRootView? || root.PlainRootView?
    ensures r == Throws(NullPointer) <==> root.DetachedGroupRootView?
    ensures r.Ok? ==> && fresh(r.value) && r.value.Valid()
                      && r.value.Registered() == [] && r.value.indicator == indicator && r.value.requests == []
  {
    if root.NoRootView? {
      return Throws(IllegalArgument);
    }
    if root.PlainRootView? {
      return Throws(IllegalArgument);
    }
    // The constructor's `viewRootImpl.getClass()` on a detached root.
    if root.DetachedGroupRootView? {
      return Throws(NullPointer);
    }
    var b := new BubbleActions(indicator, geometry, indicatorWidth, indicatorHeight, sizes, labelVisible);
    r := Ok(b);
  }

  /** `on(view)`: `on(view, indicatorRes)` with the library's indicator
      resource. */
  method OnDefault(root: RootView, geometry: Geometry, indicatorWidth: int, indicatorHeight: int,
                   sizes: seq<(int, int)>, labelVisible: bool)
    returns (r: Result<BubbleActions>)
    requires ValidGeometry(geometry) && |sizes| == MAX_ACTIONS
    ensures r.Throws? <==> !root.GroupRootView?
    ensures r == Throws(IllegalArgument) <==> root.NoRootView? || root.PlainRootView?
    ensures r == Throws(NullPointer) <==> root.DetachedGroupRootView?
    ensures r.Ok? ==> && fresh(r.value) && r.value.Valid()
                      && r.value.Registered() == [] && r.value.indicator == Some(DefaultIndicator)
  {
    r := On(root, Some(DefaultIndicator), geometry, indicatorWidth, indicatorHeight, sizes, labelVisible);
  }

  /** `on(view, indicatorRes)`: `on(view, indicator)` with the resource's
      drawable. */
  method OnResource(root: RootView, indicatorRes: nat, geometry: Geometry, indicatorWidth: int, indicatorHeight: int,
                    sizes: seq<(int, int)>, labelVisible: bool)
    returns (r: Result<BubbleActions>)
    requires ValidGeometry(geometry) && |sizes| == MAX_ACTIONS
    ensures r.Throws? <==> !root.GroupRootView?
    ensures r == Throws(IllegalArgument) <==> root.NoRootView? || root.PlainRootView?
    ensures r == Throws(NullPointer) <==> root.DetachedGroupRootView?
    ensures r.Ok? ==> && fresh(r.value) && r.value.Valid()
                      && r.value.Registered() == [] && r.value.indicator == Some(Image(indicatorRes))
  {
    r := On(root, Some(Image(indicatorRes)), geometry, indicatorWidth, indicatorHeight, sizes, labelVisible);
  }

  class BubbleActions {
    /** The overlay this builder shows, created with it. */
    const overlay: LegacyOverlay.BubbleActionOverlay
    /** `actions`: a fixed array of `MAX_ACTIONS` slots, filled from 0. */
    const registry: array<Option<LegacyAction>>
    /** `numActions`: how many slots are filled. */
    var numActions: nat
    /** The indicator drawable, as given to `on`. */
    var indicator: Option<Drawable>
    /** Whether the overlay has a parent (the root view). */
    var attached: bool
    /** Layout-change listeners registered by `show` and not yet removed. */
    var layoutListeners: nat
    /** `touchPoint`: the last point the lookup filled in. */
    var touchPoint: (int, int)
    /** The requests made of the overlay, oldest first. */
    var requests: seq<OverlayRequest>

    predicate Filled()
      reads this, registry
    {
      && registry.Length == MAX_ACTIONS
      && numActions <= MAX_ACTIONS
      && (forall i :: 0 <= i < numActions ==> registry[i].Some?)
    }

    ghost predicate Valid()
      reads this, registry, overlay.bubbles
    {
      && Filled()
      && overlay.Valid()
    }

    /** The registered actions, in the order they were added. */
    function Registered(): (r: seq<LegacyAction>)
      reads this, registry
      requires Filled()
      ensures |r| == numActions
    {
      Values(registry[..numActions])
    }

    /** The private constructor: the indicator as given, a fresh overlay
        whose drag listener is this builder's, an empty registry. */
    constructor (indicator: Option<Drawable>, geometry: Geometry, indicatorWidth: int, indicatorHeight: int,
                 sizes: seq<(int, int)>, labelVisible: bool)
      requires ValidGeometry(geometry) && |sizes| == MAX_ACTIONS
      ensures Valid()
      ensures fresh(overlay) && fresh(registry)
      ensures Registered() == [] && this.indicator == indicator
      ensures !attached && layoutListeners == 0 && requests == []
    {
      overlay := new LegacyOverlay.BubbleActionOverlay(geometry, indicatorWidth, indicatorHeight, sizes, labelVisible);
      registry := new Option<LegacyAction>[MAX_ACTIONS](_ => None);
      numActions := 0;
      this.indicator := indicator;
      attached := false;
      layoutListeners := 0;
      touchPoint := (0, 0);
      requests := [];
    }

    /** `withTypeface`: every bubble label takes the typeface. */
    method WithTypeface(t: Option<Typeface>)
      requires Valid()
      modifies overlay.bubbles
      ensures Valid()
      ensures forall s :: 0 <= s < MAX_ACTIONS ==> overlay.bubbles[s].Snap() == old(overlay.bubbles[s].Snap()).(typeface := t)
    {
      overlay.SetLabelTypeface(t);
    }

    /** `addAction(actionName, foreground, background, callback)`: the
        registry changes as `Added` says; a success writes slot `numActions`
        and no other, then counts it. */
    method AddAction(actionName: Option<CharSequence>, foreground: Option<Drawable>, background: Option<Drawable>,
                     callback: Option<Callback>)
      returns (r: Result<()>)
      requires Valid()
      modifies this`numActions, registry
      ensures Valid()
      ensures (r, Registered()) == Added(old(Registered()), actionName, foreground, background, callback)
      ensures r.Throws? ==> numActions == old(numActions) && registry[..] == old(registry[..])
      ensures r.Ok? ==>
        && numActions == old(numActions) + 1
        && registry[..] == old(registry[..])[old(numActions) :=
             Some(LegacyAction(actionName, foreground.value, background.value, callback.value))]
    {
      if numActions >= registry.Length {
        return Throws(IllegalState);
      }
      if foreground.None? {
        return Throws(IllegalArgument);
      }
      if background.None? {
        return Throws(IllegalArgument);
      }
      if callback.None? {
        return Throws(IllegalArgument);
      }
      ghost var before := registry[..numActions];
      var a := LegacyAction(actionName, foreground.value, background.value, callback.value);
      registry[numActions] := Some(a);
      numActions := numActions + 1;
      assert registry[..numActions] == before + [Some(a)];
      ValuesSnoc(before, a);
      r := Ok(());
    }

    /** `addAction(actionName, foregroundRes, backgroundRes, callback)`: the
        resources' drawables, then the same as `AddAction`. */
    method AddActionResources(actionName: Option<CharSequence>, foregroundRes: nat, backgroundRes: nat,
                              callback: Option<Callback>)
      returns (r: Result<()>)
      requires Valid()
      modifies this`numActions, registry
      ensures Valid()
      ensures (r, Registered()) == Added(old(Registered()), actionName, Some(Image(foregroundRes)), Some(Image(backgroundRes)), callback)
    {
      r := AddAction(actionName, Some(Image(foregroundRes)), Some(Image(backgroundRes)), callback);
    }

    /** `show()`, given whether the overlay is laid out yet and, for the case
        it is, what the touch-point lookup gives and what the two overlay
        operations return. The overlay is added to the root view if it is
        not there yet; then, laid out, `setupAndShow` runs at once, and not
        laid out, a layout-change listener is registered to run it later.
        There is no guard against showing twice. */
    method Show(laidOut: bool, lookup: TouchLookup, setup: Result<()>, shown: Result<()>) returns (r: Result<()>)
      requires Valid()
      modifies this`attached, this`layoutListeners, this`touchPoint, this`requests
      ensures Valid()
      ensures attached
      ensures !laidOut ==>
        r == Ok(()) && layoutListeners == old(layoutListeners) + 1 && requests == old(requests) && touchPoint == old(touchPoint)
      ensures laidOut ==>
        && layoutListeners == old(layoutListeners)
        && r == SetupOutcome(lookup, setup, shown)
        && requests == old(requests) + SetupRequests(lookup, Registered(), indicator, setup)
    {
      if !attached {
        attached := true;
      }
      if laidOut {
        r := SetupAndShow(lookup, setup, shown);
      } else {
        layoutListeners := layoutListeners + 1;
        r := Ok(());
      }
    }

    /** A layout change reaching a listener registered by `show`:
        `setupAndShow` runs first and the listener removes itself only when
        it returns normally, so an exception leaves the listener registered.
        With no listener registered, nothing happens. */
    method OnLayoutChange(lookup: TouchLookup, setup: Result<()>, shown: Result<()>) returns (r: Result<()>)
      requires Valid()
      modifies this`layoutListeners, this`touchPoint, this`requests
      ensures Valid()
      ensures old(layoutListeners) == 0 ==>
        r == Ok(()) && layoutListeners == 0 && requests == old(requests) && touchPoint == old(touchPoint)
      ensures old(layoutListeners) > 0 ==>
        && r == SetupOutcome(lookup, setup, shown)
        && requests == old(requests) + SetupRequests(lookup, Registered(), indicator, setup)
        && layoutListeners == old(layoutListeners) - (if r.Ok? then 1 else 0)
    {
      if layoutListeners == 0 {
        return Ok(());
      }
      r := SetupAndShow(lookup, setup, shown);
      if r.Throws? {
        return;
      }
      layoutListeners := layoutListeners - 1;
    }

    /** `setupAndShow()`: read the touch point, then request `setupOverlay`
        there and, if it returns normally, the no-argument `showOverlay`.
        The two caught failures of the lookup return early with nothing
        requested; a missing lookup raises NullPointerException. */
    method SetupAndShow(lookup: TouchLookup, setup: Result<()>, shown: Result<()>) returns (r: Result<()>)
      requires Filled()
      modifies this`touchPoint, this`requests
      ensures r == SetupOutcome(lookup, setup, shown)
      ensures requests == old(requests) + SetupRequests(lookup, Registered(), indicator, setup)
      ensures lookup.TouchPoint? ==> touchPoint == (lookup.x, lookup.y)
      ensures !lookup.TouchPoint? ==> touchPoint == old(touchPoint)
    {
      match lookup
      case MissingLookup =>
        return Throws(NullPointer);
      case InvocationTargetFailure =>
        return Ok(());
      case IllegalAccessFailure =>
        return Ok(());
      case TouchPoint(x, y) =>
        touchPoint := (x, y);
        requests := requests + [SetupOverlayAt(x, y, Registered(), indicator)];
        if setup.Throws? {
          return setup;
        }
        requests := requests + [ShowOverlayNow];
        r := shown;
    }

    /** `hideOverlay()`: the overlay leaves the root view. */
    method HideOverlay()
      modifies this`attached
      ensures !attached
    {
      attached := false;
    }

    /** The overlay's drag listener, given what `dragStarted` and
        `dragEnded` answer: DRAG_STARTED and DRAG_ENDED are forwarded and
        their answer returned; every other action answers false and requests
        nothing. */
    method OnOverlayDrag(e: DragEvent, startedAnswer: bool, endedAnswer: bool) returns (answer: bool)
      modifies this`requests
      ensures answer == match e.action
                          case DragStarted => startedAnswer
                          case DragEnded => endedAnswer
                          case _ => false
      ensures requests == old(requests) + (if Forwarded(e).Some? then [Forwarded(e).value] else [])
    {
      match e.action
      case DragStarted =>
        requests := requests + [DragStartedWith(e)];
        answer := startedAnswer;
      case DragEnded =>
        requests := requests + [DragEndedFor];
        answer := endedAnswer;
      case _ =>
        answer := false;
    }
  }
}
