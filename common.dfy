/** Types shared by every part of the canvas engine. */
module Common {

  /** An unsigned 8-bit value: a command tag, an event tag, a button code. */
  newtype byte = x: int | 0 <= x < 256

  datatype Option<T> = None | Some(value: T)

  /** The outcome of an operation that can fail with an error of type E. */
  datatype Result<T, E> = Success(value: T) | Failure(error: E)

  /** A point or a vector of the plane. Coordinates are f32 in the program; here they are exact reals. */
  datatype Vec2 = Vec2(x: real, y: real)

  /** An RGBA colour; components are not clamped. */
  datatype Color = Color(r: real, g: real, b: real, a: real)

  /** The window size in pixels, as the windowing library reports it. */
  datatype Screen = Screen(w: real, h: real)
}
