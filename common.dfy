/**
 * Values shared by the services and the controller: optional values (Ruby's
 * nil), results of operations that raise `ArgumentError`, and coordinates.
 */
module Common {

  /** A value that may be nil. */
  datatype Option<+T> = None | Some(value: T)

  /** The outcome of a constructor that raises `ArgumentError` with a message. */
  datatype Result<+R> = Success(value: R) | Failure(error: string)

  /**
   * A coordinate as a Ruby object: its numeric reading, and whether the object
   * is a `Float` (`is_a?(Float)`). A coordinate still held as a string, such as
   * the geocoder's `"42.6511674"`, has `isFloat == false`.
   */
  datatype Coord = Coord(reading: real, isFloat: bool)

  /** `lat.nil? || !lat.is_a?(Float)` negated: the value is present and a Float. */
  predicate IsFloat(c: Option<Coord>)
  {
    c.Some? && c.value.isFloat
  }

  /** Ruby's `nil.empty?`-guarded emptiness test: `s.nil? || s.empty?`. */
  predicate NilOrEmpty(s: Option<string>)
  {
    s.None? || s.value == ""
  }
}
