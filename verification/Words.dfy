/** Machine words shared by every component: bytes, 32-bit unsigned arithmetic and
    byte orders. */
module Words {

  datatype Option<+T> = None | Some(value: T)

  type Byte = x: int | 0 <= x < 0x100

  const ULONG_RANGE: nat := 0x1_0000_0000

  /** Unsigned 32-bit wrap-around. */
  function U32(x: int): nat {
    x % ULONG_RANGE
  }
}
