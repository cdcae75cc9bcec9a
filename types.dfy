/** Value types shared by the registration rules of the map generator's Lua API. */
module MapgenTypes {

  /** An unsigned 8-bit value (C++ `u8`). */
  newtype u8 = x: int | 0 <= x < 256

  /** The C++ conversion of an integer to `u8`: the value modulo 2^8. */
  function ToU8(x: int): (r: u8)
    ensures 0 <= x < 256 ==> r as int == x
    ensures (x - r as int) % 256 == 0
  {
    (x % 256) as u8
  }

  datatype Option<T> = None | Some(value: T) {
    /** The carried value, or `default` when absent (a field read with a default). */
    function GetOr(default: T): T {
      match this
      case Some(v) => v
      case None => default
    }
  }

  datatype Result<T, E> = Ok(value: T) | Err(error: E)

  /**
   * Parameters of a coherent-noise field. The floating-point members are kept
   * uninterpreted; the model only records whether a definition supplied them.
   */
  datatype NoiseParams = NoiseParams(
    offset: real, scale: real, spread: (real, real, real),
    seed: int, octaves: int, persist: real)

  /** Probability byte meaning "always place" (schematic cells and slices). */
  const PROB_ALWAYS: u8 := 0xFF

  /** Default lower and upper y bound of ores and decorations. */
  const Y_MIN_DEFAULT: int := -31000
  const Y_MAX_DEFAULT: int := 31000
}
