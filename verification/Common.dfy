/** Types and constants shared by every component of the model. */
module Common {

  newtype byte = x: int | 0 <= x < 256

  datatype Option<+T> = None | Some(value: T)

  /** The largest stream offset and message identifier (`protocol.MaxSequence`). */
  const MAX_SEQUENCE: nat := 0x3FFF_FFFF_FFFF_FFFF

  /** The largest value of a Go `uint64`. */
  const MAX_UINT64: nat := 0xFFFF_FFFF_FFFF_FFFF

  function Min(a: int, b: int): int { if a <= b then a else b }

  function Max(a: int, b: int): int { if a >= b then a else b }
}
