/** The drag listener of a bubble's image, identical in both package
    generations except for its answer to `ACTION_DRAG_STARTED`. A bubble's
    visible selection state is its `Face`; the listener's effect on it is a
    pure function of the face, the `animatedIn` gate, the bound callback and
    the event. The selection animations are represented by their targets. */
module Selection {
  import opened Types
  import DragUtils

  /** `DESELECTED_SCALE`: the bubble starts smaller than its space so that
      the selection animation does not clip (the source's float `0.85f`). */
  const DESELECTED_SCALE: real := 0.85

  /** `SELECTED_SCALE`. */
  const SELECTED_SCALE: real := 1.0

  /** The image's selected flag, its scale (X and Y always move together)
      and whether the label above the bubble is visible. */
  datatype Face = Face(selected: bool, scale: real, labelVisible: bool)

  /** The face `resetChildren` and the end of `animateOut` restore. */
  const RESET_FACE: Face := Face(false, DESELECTED_SCALE, false)

  /** A face the listener can produce: a selected image is at full scale with
      its label shown, an unselected one at the deselected scale. */
  predicate Coherent(f: Face)
  {
    if f.selected then f.scale == SELECTED_SCALE && f.labelVisible else f.scale == DESELECTED_SCALE
  }

  /** The two package generations, whose listeners differ on DRAG_STARTED. */
  datatype Generation = Current | Legacy

  /** What one drag event does to a bubble: the new face, the listener's
      answer (or the exception it raises) and the callback run, if any. */
  datatype Response = Response(face: Face, answer: Result<bool>, ran: Option<Invocation>)

  /** ACTION_DRAG_ENTERED: when animated in, select the image, grow it and
      show the label; otherwise change nothing. */
  function Enter(f: Face, animatedIn: bool): Face
  {
    if animatedIn then Face(true, SELECTED_SCALE, true) else f
  }

  /** ACTION_DRAG_EXITED: when animated in, deselect the image, shrink it and
      hide the label; otherwise change nothing. */
  function Exit(f: Face, animatedIn: bool): Face
  {
    if animatedIn then RESET_FACE else f
  }

  /** The listener `onDrag(v, event)` of a bubble's image. */
  function Respond(gen: Generation, f: Face, animatedIn: bool, callback: Option<Callback>, e: DragEvent): (r: Response)
    ensures e.action == DragEntered ==> r == Response(Enter(f, animatedIn), Ok(animatedIn), None)
    ensures e.action == DragExited ==> r == Response(Exit(f, animatedIn), Ok(animatedIn), None)
    ensures e.action != Drop ==> r.ran == None
    ensures e.action !in {DragEntered, DragExited} ==> r.face == f
  {
    match e.action
    case DragStarted =>
      var answer := if gen == Current then DragUtils.IsDragForMe(e.clipLabel) else true;
      Response(f, Ok(answer), None)
    case DragEnded => Response(f, Ok(true), None)
    case DragEntered => Response(Enter(f, animatedIn), Ok(animatedIn), None)
    case DragExited => Response(Exit(f, animatedIn), Ok(animatedIn), None)
    case Drop =>
      if callback.None? then Response(f, Throws(NullPointer), None)
      else
        var run := Run(callback.value);
        if run.Throws? then Response(f, Throws(run.ex), None)
        else Response(f, Ok(true), Some(run.value))
    case DragLocation => Response(f, Ok(false), None)
  }

  /** Every response keeps a coherent face coherent. */
  lemma RespondKeepsCoherent(gen: Generation, f: Face, animatedIn: bool, callback: Option<Callback>, e: DragEvent)
    requires Coherent(f)
    ensures Coherent(Respond(gen, f, animatedIn, callback, e).face)
  {
  }

  /** Until the bubble has animated in, no event changes its face: entering
      and exiting are gated, and every other event never touches it. */
  lemma NotAnimatedInFaceIsFrozen(gen: Generation, f: Face, callback: Option<Callback>, e: DragEvent)
    ensures Respond(gen, f, false, callback, e).face == f
  {
  }

  /** Entering twice is entering once, and so is exiting: the listener's
      selection changes are idempotent. */
  lemma EnterAndExitAreIdempotent(f: Face, animatedIn: bool)
    ensures Enter(Enter(f, animatedIn), animatedIn) == Enter(f, animatedIn)
    ensures Exit(Exit(f, animatedIn), animatedIn) == Exit(f, animatedIn)
  {
  }

  /** Whatever the face before, entering and then exiting an animated-in
      bubble leaves the reset face, and exiting and then entering leaves it
      selected. */
  lemma EnterThenExit(f: Face)
    ensures Exit(Enter(f, true), true) == RESET_FACE
    ensures Enter(Exit(f, true), true) == Face(true, SELECTED_SCALE, true)
  {
  }

  /** The answer to DRAG_STARTED: the current generation accepts only its own
      drag label, the legacy generation every drag; DRAG_ENDED is always
      accepted and the other actions refused. */
  lemma StartedAndEndedAnswers(gen: Generation, f: Face, animatedIn: bool, callback: Option<Callback>, e: DragEvent)
    ensures var r := Respond(gen, f, animatedIn, callback, e);
      && (e.action == DragStarted ==> r.answer == Ok(gen == Legacy || e.clipLabel == Some(JavaString(DragUtils.DRAG_LABEL))))
      && (e.action == DragEnded ==> r.answer == Ok(true))
      && (e.action == DragLocation ==> r.answer == Ok(false))
  {
  }

  /** A drop runs the bound callback exactly once and answers true, whether
      or not the bubble has animated in; with no callback bound, or with one
      that forwards to a null menu callback, it raises a NullPointerException
      and nothing is run. */
  lemma DropRunsTheCallback(gen: Generation, f: Face, animatedIn: bool, callback: Option<Callback>, clipLabel: Option<CharSequence>)
    ensures var r := Respond(gen, f, animatedIn, callback, DragEvent(Drop, clipLabel));
      && r.face == f
      && (callback.Some? && Run(callback.value).Ok? ==> r.answer == Ok(true) && r.ran == Some(Run(callback.value).value))
      && (callback.None? || Run(callback.value).Throws? ==> r.answer == Throws(NullPointer) && r.ran == None)
  {
  }
}
