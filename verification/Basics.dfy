/** Types and constants that several parts of the kernel share. */
module Basics {
  datatype Option<+T> = None | Some(value: T)

  type Byte = b: int | 0 <= b < 256

  type Pid = nat

  const WORDS: nat := 0x1_0000_0000_0000_0000  // number of values of a 64-bit word
}
