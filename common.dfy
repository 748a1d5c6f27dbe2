/** Types shared by the pixel-processing components. */
module Common {

  /** A value that may be missing: a canvas or image reference that is not set yet. */
  datatype Option<T> = None | Some(value: T)

  /** One channel of an RGBA pixel as stored in a canvas image buffer. */
  type Byte = b: int | 0 <= b < 256

  /** The lesser and the greater of two integers (`Math.min`, `Math.max` on pixel values). */
  function Min(a: int, b: int): int { if a <= b then a else b }

  function Max(a: int, b: int): int { if a <= b then b else a }

  /** The same pair on exact reals (`Math.min`, `Math.max` on canvas coordinates). */
  function MinReal(a: real, b: real): real { if a <= b then a else b }

  function MaxReal(a: real, b: real): real { if a <= b then b else a }
}
