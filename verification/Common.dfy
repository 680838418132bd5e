/** Types shared by the models of the endpoint code. */
module Common {

  type Byte = x: int | 0 <= x < 0x100

  type Word = x: int | 0 <= x < 0x1_0000

  datatype Option<+T> = None | Some(value: T)

  /** One past the largest `size_t`. */
  const SIZE_MODULUS: nat := 0x1_0000_0000_0000_0000

  /** The queue limit that means "no limit" (the largest 32-bit value). */
  const QUEUE_SIZE_UNLIMITED: nat := 0xFFFF_FFFF

  function Min(a: int, b: int): int {
    if a < b then a else b
  }

  function Max(a: int, b: int): int {
    if a < b then b else a
  }
}
