/** `BubbleView` of the current generation: one bubble of the overlay, with
    its label, its image, the callback bound to it and the drag listener of
    its image. */
module Bubble {
  import opened Types
  import opened Selection

  /** Everything a bubble holds, as one value. */
  datatype Snapshot = Snapshot(
    visible: bool,
    alpha: real,
    x: real,
    y: real,
    text: Option<CharSequence>,
    typeface: Option<Typeface>,
    image: Option<Drawable>,
    callback: Option<Callback>,
    animatedIn: bool,
    face: Face,
    ran: seq<Invocation>)

  class BubbleView {
    /** The bubble's own visibility and alpha, set by the overlay. */
    var visible: bool
    var alpha: real
    /** The bubble's position (`setX` / `setY`). */
    var x: real
    var y: real
    /** The label's text and typeface, the image's drawable. */
    var text: Option<CharSequence>
    var typeface: Option<Typeface>
    var image: Option<Drawable>
    /** The callback a drop runs; null until the overlay binds an action. */
    var callback: Option<Callback>
    /** Gates selection on DRAG_ENTERED and DRAG_EXITED. It is package
        visible; no code of this generation's overlay sets it. */
    var animatedIn: bool
    /** Selected flag, scale and label visibility. */
    var face: Face
    /** The callbacks run by drops, oldest first. */
    var ran: seq<Invocation>
    /** The laid-out size of the bubble. */
    const width: int
    const height: int

    /** The bubble's state as one value. */
    function Snap(): Snapshot
      reads this
    {
      Snapshot(visible, alpha, x, y, text, typeface, image, callback, animatedIn, face, ran)
    }

    /** The listener only ever produces coherent faces. */
    predicate Valid()
      reads this
    {
      Coherent(face)
    }

    /** A new bubble: not animated in, its image at the deselected scale and
        unselected. The label's initial visibility comes from the inflated
        layout and is a parameter. */
    constructor (width: int, height: int, labelVisible: bool)
      ensures Valid()
      ensures this.width == width && this.height == height
      ensures Snap() == Snapshot(true, 1.0, 0.0, 0.0, None, None, None, None, false,
                                 Face(false, DESELECTED_SCALE, labelVisible), [])
    {
      this.width := width;
      this.height := height;
      visible := true;
      alpha := 1.0;
      x := 0.0;
      y := 0.0;
      text := None;
      typeface := None;
      image := None;
      callback := None;
      animatedIn := false;
      face := Face(false, DESELECTED_SCALE, labelVisible);
      ran := [];
    }

    /** `resetChildren`: deselected scale, not selected, label hidden,
        whatever the face was, so a second call changes nothing. */
    method ResetChildren()
      modifies this
      ensures Valid()
      ensures Snap() == old(Snap()).(face := RESET_FACE)
    {
      face := RESET_FACE;
    }

    /** The overlay binding an action to this bubble: label, image, callback. */
    method Bind(a: Action)
      modifies this
      ensures Snap() == old(Snap()).(text := a.actionName, image := Some(a.bubble), callback := Some(a.callback))
    {
      text := a.actionName;
      image := Some(a.bubble);
      callback := Some(a.callback);
    }

    /** `setX` and `setY`. */
    method SetPosition(newX: real, newY: real)
      modifies this
      ensures Snap() == old(Snap()).(x := newX, y := newY)
    {
      x := newX;
      y := newY;
    }

    /** `setVisibility`. */
    method SetVisible(v: bool)
      modifies this
      ensures Snap() == old(Snap()).(visible := v)
    {
      visible := v;
    }

    /** `setAlpha`. */
    method SetAlpha(v: real)
      modifies this
      ensures Snap() == old(Snap()).(alpha := v)
    {
      alpha := v;
    }

    /** `textView.setTypeface`. */
    method SetTypeface(t: Option<Typeface>)
      modifies this
      ensures Snap() == old(Snap()).(typeface := t)
    {
      typeface := t;
    }

    /** The image's drag listener: the face, the answer and the callbacks run
        are those `Respond` gives for the current generation; nothing else
        changes. */
    method OnDrag(e: DragEvent) returns (answer: Result<bool>)
      requires Valid()
      modifies this
      ensures Valid()
      ensures var r := Respond(Current, old(face), old(animatedIn), old(callback), e);
        && answer == r.answer
        && Snap() == old(Snap()).(face := r.face, ran := old(ran) + (if r.ran.Some? then [r.ran.value] else []))
    {
      var r := Respond(Current, face, animatedIn, callback, e);
      RespondKeepsCoherent(Current, face, animatedIn, callback, e);
      face := r.face;
      answer := r.answer;
      if r.ran.Some? {
        ran := ran + [r.ran.value];
      }
    }
  }
}
