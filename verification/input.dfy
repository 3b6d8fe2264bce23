/**
 The input tracker: which half of the screen is held down.
 */
module InputTracker {

  /** The two steering flags. */
  datatype Input = Input(left: bool, right: bool)

  /** Nothing held: the state after a release and after a reset. */
  const Released: Input := Input(false, false)

  /** The tracker's invariant: the two flags are never both set. */
  predicate Exclusive(i: Input) {
    !(i.left && i.right)
  }

  /** The flags a press at horizontal offset touchX leaves: the half of the
      canvas that was pressed is held, and only that half. */
  function Press(touchX: real, canvasWidth: real): (r: Input)
    ensures r.left != r.right
    ensures r.left <==> touchX < canvasWidth / 2.0
    ensures r.right <==> touchX >= canvasWidth / 2.0
  {
    var onLeft := touchX < canvasWidth / 2.0;
    Input(left := onLeft, right := !onLeft)
  }
}
