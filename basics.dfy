/** Small shared definitions: a value that may be absent (a C pointer that may
    be NULL), bytes, the range of C's `int`. */
module Basics {

  datatype Option<+T> = None | Some(value: T)

  /** C's `uint8_t`. */
  type Byte = x: int | 0 <= x < 256

  /** C's 32-bit `int`, the argument type of `%d`. */
  type Int32 = x: int | -0x8000_0000 <= x < 0x8000_0000

  /** `MIN()` of Zephyr's sys/util.h. */
  function Min(a: int, b: int): int
  {
    if a < b then a else b
  }
}
