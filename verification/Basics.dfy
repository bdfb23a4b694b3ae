/** Types that several components share. */
module Basics {

  /** The number of 32-bit words, and of addresses. */
  const WORD_LIMIT := 0x1_0000_0000

  datatype Option<T> = None | Some(value: T)

  newtype Byte = b: int | 0 <= b < 256
}
