/** Machine words, and the option type used for nullable pointers. */
module Words {
  const LIMIT: int := 0x1_0000_0000

  /** A C `uint32_t`. */
  type Word = x: int | 0 <= x < LIMIT

  /** 0xFFFFFFFF, the kernel's "no priority" and "no ceiling" value. */
  const MAX: Word := 0xFFFF_FFFF

  datatype Option<+T> = None | Some(value: T)

  /** `x++` on a `uint32_t`. */
  function Inc(x: Word): Word {
    if x == MAX then 0 else x + 1
  }

  /** `x--` on a `uint32_t`. */
  function Dec(x: Word): Word {
    if x == 0 then MAX else x - 1
  }

  function Min(a: Word, b: Word): Word {
    if a < b then a else b
  }
}
