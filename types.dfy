/** Values shared by both package generations of the BubbleActions widget. */
module Types {

  /** A Java reference that may be null. */
  datatype Option<+T> = None | Some(value: T)

  /** The present values of a filled prefix of an array of nullable
      references. */
  function Values<T>(slots: seq<Option<T>>): (r: seq<T>)
    requires forall i :: 0 <= i < |slots| ==> slots[i].Some?
    ensures |r| == |slots| && forall i :: 0 <= i < |slots| ==> Some(r[i]) == slots[i]
  {
    seq(|slots|, i requires 0 <= i < |slots| => slots[i].value)
  }

  /** Filling one more slot appends its value. */
  lemma ValuesSnoc<T>(slots: seq<Option<T>>, a: T)
    requires forall i :: 0 <= i < |slots| ==> slots[i].Some?
    ensures Values(slots + [Some(a)]) == Values(slots) + [a]
  {
    var l, r := Values(slots + [Some(a)]), Values(slots) + [a];
    assert |l| == |r|;
    forall i | 0 <= i < |l| ensures l[i] == r[i] {
      if i < |slots| {
        assert Some(l[i]) == (slots + [Some(a)])[i] == slots[i] == Some(Values(slots)[i]);
      }
    }
  }

  /** The unchecked exceptions the core throws or runs into. */
  datatype Exception = IllegalArgument | IllegalState | NullPointer | IndexOutOfBounds

  /** The outcome of a Java call: a normal return or a thrown exception. */
  datatype Result<+T> = Ok(value: T) | Throws(ex: Exception)

  /** A Java `CharSequence`: a `String`, or some other implementation (for
      instance a spanned string) whose `equals` never holds against a String. */
  datatype CharSequence = JavaString(chars: string) | OtherText(chars: string)

  /** The `DragEvent` action codes the listeners distinguish; `DragLocation`
      stands for every other code. */
  datatype DragAction = DragStarted | DragEnded | DragEntered | DragExited | Drop | DragLocation

  /** A drag event as the listeners see it: its action and the label of its
      clip description. */
  datatype DragEvent = DragEvent(action: DragAction, clipLabel: Option<CharSequence>)

  /** The root view `on(view)` finds: none, one that is not a `ViewGroup`,
      a `ViewGroup` not attached to a window (its `getViewRootImpl` answers
      null), or an attached `ViewGroup`. */
  datatype RootView = NoRootView | PlainRootView | DetachedGroupRootView | GroupRootView

  /** The reflective `getLastTouchPoint` call: the point it fills in, or the
      two checked exceptions the builders catch around it, or a lookup that
      was never found when the builder was made (a null `Method`). */
  datatype TouchLookup = TouchPoint(x: int, y: int) | InvocationTargetFailure | IllegalAccessFailure | MissingLookup

  /** A drawable, by identity; `DefaultIndicator` is the library's own
      indicator resource. */
  datatype Drawable = DefaultIndicator | Image(id: nat)

  /** A typeface, by identity. */
  datatype Typeface = Typeface(id: nat)

  /** An action callback, by identity: one the application supplied, or one
      built from a menu item that forwards the item id to a menu callback,
      which `fromMenu` accepts even when it is null. */
  datatype Callback = UserCallback(id: nat) | MenuForward(menuCallback: Option<nat>, itemId: int)

  /** What running a callback makes happen in the application. */
  datatype Invocation = ActionDone(callback: nat) | MenuItemDone(menuCallback: nat, itemId: int)

  /** Running a callback (`Callback.doAction`): a user callback reports
      itself; a menu-forwarding one reports its item id to its menu callback,
      and dereferencing a null menu callback raises NullPointerException. */
  function Run(c: Callback): (r: Result<Invocation>)
    ensures r.Throws? <==> c.MenuForward? && c.menuCallback.None?
    ensures r.Throws? ==> r.ex == NullPointer
    ensures c.MenuForward? && c.menuCallback.Some? ==> r == Ok(MenuItemDone(c.menuCallback.value, c.itemId))
    ensures c.UserCallback? ==> r == Ok(ActionDone(c.id))
  {
    match c
    case UserCallback(id) => Ok(ActionDone(id))
    case MenuForward(m, id) => if m.None? then Throws(NullPointer) else Ok(MenuItemDone(m.value, id))
  }

  /** An action of the current generation (`me.samthompson.bubbleactions.Action`):
      its label (which may be null), its bubble drawable and its callback. */
  datatype Action = Action(actionName: Option<CharSequence>, bubble: Drawable, callback: Callback)

  /** An action of the legacy generation (`BubbleActions.Action`): a label, a
      foreground and a background drawable, and a callback. */
  datatype LegacyAction = LegacyAction(actionName: Option<CharSequence>, foreground: Drawable, background: Drawable, callback: Callback)

  /** A menu item as `fromMenu` inspects it. */
  datatype MenuItem = MenuItem(hasSubMenu: bool, icon: Option<Drawable>, title: Option<CharSequence>, itemId: int)

  /** The animation duration, in milliseconds, used throughout. */
  const ANIMATION_DURATION: nat := 150

  /** One property animation of an animation set: the child it animates, the
      translation it targets (if any), the alpha it targets, whether it uses
      the overshoot interpolator, and its duration. */
  datatype Animation = Animation(child: nat, translateTo: Option<(real, real)>, alpha: real, overshoot: bool, duration: nat)
}
