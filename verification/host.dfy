/**
 The host environment of the game: the canvas it draws on and the numeric
 library it calls. Both are supplied by the browser, so the model receives
 them as parameters instead of reading globals.
 */
module Host {

  /** The canvas size in pixels, as measured by the most recent resize. */
  datatype Canvas = Canvas(width: real, height: real)

  /** The host's numeric library. The transcendental functions are kept
      uninterpreted: the model never states what they return. */
  datatype Numerics = Numerics(
    pi: real,
    cos: real -> real,
    sin: real -> real,
    atan2: (real, real) -> real,
    sqrt: real -> real)
  {
    /** The only fact the model relies on: pi is a positive constant. */
    predicate Valid() {
      pi > 0.0
    }
  }

  /** Math.abs on reals. */
  function Abs(x: real): (r: real)
    ensures r >= 0.0
    ensures r == x || r == -x
  {
    if x < 0.0 then -x else x
  }
}
