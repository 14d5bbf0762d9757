/** The drag-label filter of the current package generation
    (`DragUtils.isDragForMe`). */
module DragUtils {
  import opened Types

  /** The label the library's own drag session carries. */
  const DRAG_LABEL: string := "me.samthompson.bubbleactions.BubbleActions"

  /** `DRAG_LABEL.equals(clipLabel)`: `String.equals` holds only for a non-null
      argument that is itself a String with the same characters. */
  function IsDragForMe(clipLabel: Option<CharSequence>): (r: bool)
    ensures r <==> clipLabel == Some(JavaString(DRAG_LABEL))
  {
    match clipLabel
    case None => false
    case Some(JavaString(s)) => s == DRAG_LABEL
    case Some(OtherText(_)) => false
  }

  /** A null label is refused with no exception: the constant is the
      receiver of `equals`. This is where the current generation differs
      from the legacy one, whose `label.equals(TAG)` raises
      NullPointerException (`LegacyOverlay.IsDragEventForOverlay`). */
  lemma NullLabelRefused()
    ensures !IsDragForMe(None)
  {
  }
}
