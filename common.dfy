/** Small shared vocabulary: an optional value. */
module Common {

  datatype Option<T> = None | Some(value: T)

  /** Absolute value on reals (Math.abs in the game code). */
  function Abs(v: real): (r: real)
    ensures r >= 0.0
    ensures r == v || r == -v
  {
    if v < 0.0 then -v else v
  }
}
