/** `BubbleView` of the legacy generation: like the current one, plus an
    image background and its own animations in and out, whose end callbacks
    set and clear `animatedIn`. */
module LegacyBubble {
  import opened Types
  import opened Selection

  /** The end callback installed on the bubble's own view animator. Setting a
      listener replaces the previous one. */
  datatype EndListener = NoEndListener | MarkAnimatedIn | ResetOnEnd

  /** What a bubble's view animator was last told: the translation and
      alpha it animates to, whether with the overshoot interpolator, and its
      end listener. */
  datatype Motion = Motion(targetX: real, targetY: real, targetAlpha: real, overshoot: bool, onEnd: EndListener)

  /** The view animator `ViewCompat.animate(view)` returns: one per bubble,
      reconfigured by each animation. */
  class ViewAnimator {
    var targetX: real
    var targetY: real
    var targetAlpha: real
    var overshoot: bool
    var onEnd: EndListener

    function Snap(): Motion
      reads this
    {
      Motion(targetX, targetY, targetAlpha, overshoot, onEnd)
    }

    /** An animator that has not been told anything yet. */
    constructor ()
      ensures Snap() == Motion(0.0, 0.0, 1.0, false, NoEndListener)
    {
      targetX, targetY, targetAlpha, overshoot := 0.0, 0.0, 1.0, false;
      onEnd := NoEndListener;
    }

    /** Translation, alpha, interpolator and listener in one go: the chain of
        calls `animateIn` and `animateOut` make. */
    method Configure(m: Motion)
      modifies this
      ensures Snap() == m
    {
      targetX, targetY, targetAlpha, overshoot := m.targetX, m.targetY, m.targetAlpha, m.overshoot;
      onEnd := m.onEnd;
    }
  }

  /** Everything a legacy bubble holds apart from its animator, as one
      value. */
  datatype Snapshot = Snapshot(
    visible: bool,
    alpha: real,
    x: real,
    y: real,
    text: Option<CharSequence>,
    typeface: Option<Typeface>,
    image: Option<Drawable>,
    background: Option<Drawable>,
    callback: Option<Callback>,
    animatedIn: bool,
    face: Face,
    ran: seq<Invocation>)

  class BubbleView {
    var visible: bool
    var alpha: real
    /** The bubble's position (its translation: it sits at the overlay's
        origin). */
    var x: real
    var y: real
    var text: Option<CharSequence>
    var typeface: Option<Typeface>
    var image: Option<Drawable>
    var background: Option<Drawable>
    var callback: Option<Callback>
    /** Private to the bubble: set only by the end of `animateIn`, cleared
        only by the end of `animateOut`. */
    var animatedIn: bool
    var face: Face
    var ran: seq<Invocation>
    const width: int
    const height: int
    /** The bubble's view animator. */
    const animator: ViewAnimator

    function Snap(): Snapshot
      reads this
    {
      Snapshot(visible, alpha, x, y, text, typeface, image, background, callback, animatedIn, face, ran)
    }

    predicate Valid()
      reads this
    {
      Coherent(face)
    }

    /** A new bubble: not animated in, its image at the deselected scale,
        unselected, no animation listener yet. */
    constructor (width: int, height: int, labelVisible: bool)
      ensures Valid()
      ensures this.width == width && this.height == height
      ensures fresh(animator) && animator.Snap() == Motion(0.0, 0.0, 1.0, false, NoEndListener)
      ensures Snap() == Snapshot(true, 1.0, 0.0, 0.0, None, None, None, None, None, false,
                                 Face(false, DESELECTED_SCALE, labelVisible), [])
    {
      this.width := width;
      this.height := height;
      visible := true;
      alpha := 1.0;
      x := 0.0;
      y := 0.0;
      animator := new ViewAnimator();
      text := None;
      typeface := None;
      image := None;
      background := None;
      callback := None;
      animatedIn := false;
      face := Face(false, DESELECTED_SCALE, labelVisible);
      ran := [];
    }

    /** The overlay binding an action: label, foreground, background and
        callback. */
    method Bind(a: LegacyAction)
      modifies this
      ensures Snap() == old(Snap()).(text := a.actionName, image := Some(a.foreground),
                                     background := Some(a.background), callback := Some(a.callback))
    {
      text := a.actionName;
      image := Some(a.foreground);
      background := Some(a.background);
      callback := Some(a.callback);
    }

    method SetPosition(newX: real, newY: real)
      modifies this
      ensures Snap() == old(Snap()).(x := newX, y := newY)
    {
      x := newX;
      y := newY;
    }

    method SetVisible(v: bool)
      modifies this
      ensures Snap() == old(Snap()).(visible := v)
    {
      visible := v;
    }

    method SetAlpha(v: real)
      modifies this
      ensures Snap() == old(Snap()).(alpha := v)
    {
      alpha := v;
    }

    method SetTypeface(t: Option<Typeface>)
      modifies this
      ensures Snap() == old(Snap()).(typeface := t)
    {
      typeface := t;
    }

    /** `animateIn(endX, endY)`: visible at once, then the animator moves
        the bubble to the end point at full alpha with overshoot, and its end
        listener will mark the bubble animated in. `animatedIn` itself does
        not change yet. */
    method AnimateIn(endX: real, endY: real)
      requires Valid()
      modifies this, animator
      ensures Valid()
      ensures Snap() == old(Snap()).(visible := true)
      ensures animator.Snap() == Motion(endX, endY, 1.0, true, MarkAnimatedIn)
    {
      visible := true;
      animator.Configure(Motion(endX, endY, 1.0, true, MarkAnimatedIn));
    }

    /** `animateOut(startX, startY)`: the animator moves the bubble back to
        the start point at alpha 0 without an interpolator, and its end
        listener will reset the bubble. The bubble itself does not change
        yet. */
    method AnimateOut(startX: real, startY: real)
      requires Valid()
      modifies animator
      ensures animator.Snap() == Motion(startX, startY, 0.0, false, ResetOnEnd)
    {
      animator.Configure(Motion(startX, startY, 0.0, false, ResetOnEnd));
    }

    /** The end of the bubble's view animation: the bubble has reached the
        animator's targets, then the installed listener runs. After
        `animateIn` it sets `animatedIn`; after `animateOut` it hides the
        bubble, resets the face and clears `animatedIn`. The listener stays
        installed. */
    method OnAnimationEnd()
      requires Valid()
      modifies this
      ensures Valid()
      ensures Snap() == Ended(old(Snap()), animator.Snap())
    {
      x, y, alpha := animator.targetX, animator.targetY, animator.targetAlpha;
      match animator.onEnd
      case NoEndListener =>
      case MarkAnimatedIn =>
        animatedIn := true;
      case ResetOnEnd =>
        visible := false;
        face := RESET_FACE;
        animatedIn := false;
    }

    /** The image's drag listener, with the legacy answer to DRAG_STARTED. */
    method OnDrag(e: DragEvent) returns (answer: Result<bool>)
      requires Valid()
      modifies this
      ensures Valid()
      ensures var r := Respond(Legacy, old(face), old(animatedIn), old(callback), e);
        && answer == r.answer
        && Snap() == old(Snap()).(face := r.face, ran := old(ran) + (if r.ran.Some? then [r.ran.value] else []))
    {
      var r := Respond(Legacy, face, animatedIn, callback, e);
      RespondKeepsCoherent(Legacy, face, animatedIn, callback, e);
      face := r.face;
      answer := r.answer;
      if r.ran.Some? {
        ran := ran + [r.ran.value];
      }
    }
  }

  /** The bubble `b` once the animation `m` ends: at its targets, then
      changed by its listener. */
  function Ended(b: Snapshot, m: Motion): (r: Snapshot)
    ensures r.x == m.targetX && r.y == m.targetY && r.alpha == m.targetAlpha
    ensures r.animatedIn == match m.onEnd
                              case NoEndListener => b.animatedIn
                              case MarkAnimatedIn => true
                              case ResetOnEnd => false
    ensures m.onEnd == ResetOnEnd ==> !r.visible && r.face == RESET_FACE
    ensures m.onEnd != ResetOnEnd ==> r.visible == b.visible && r.face == b.face
    ensures r.(x := b.x, y := b.y, alpha := b.alpha, visible := b.visible, face := b.face, animatedIn := b.animatedIn) == b
  {
    var moved := b.(x := m.targetX, y := m.targetY, alpha := m.targetAlpha);
    match m.onEnd
    case NoEndListener => moved
    case MarkAnimatedIn => moved.(animatedIn := true)
    case ResetOnEnd => moved.(visible := false, face := RESET_FACE, animatedIn := false)
  }

  /** Animating in and then letting the animation end leaves the bubble
      visible at its end point, at full alpha and animated in; animating out
      and letting that end leaves it hidden at its start point, at alpha 0,
      reset and no longer animated in. Neither changes the bubble's label,
      drawables or callback. */
  lemma InThenEndThenOutThenEnd(b: Snapshot, startX: real, startY: real, endX: real, endY: real)
    ensures var shown := Ended(b.(visible := true), Motion(endX, endY, 1.0, true, MarkAnimatedIn));
      var hidden := Ended(shown, Motion(startX, startY, 0.0, false, ResetOnEnd));
      && shown.visible && shown.x == endX && shown.y == endY && shown.alpha == 1.0 && shown.animatedIn
      && shown.face == b.face
      && !hidden.visible && hidden.x == startX && hidden.y == startY && hidden.alpha == 0.0 && !hidden.animatedIn
      && hidden.face == RESET_FACE
      && (hidden.text, hidden.image, hidden.background, hidden.callback) == (b.text, b.image, b.background, b.callback)
  {
  }
}
