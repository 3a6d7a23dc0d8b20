/** Fixed-width machine integers shared by both parts of the plugin. */
module Machine {

  /** 2^32, the number of values of a `uint32_t` or DWORD. */
  const Uint32Modulus := 0x1_0000_0000

  type Byte = b: int | 0 <= b < 256

  /** A `uint32_t` / DWORD value. */
  type Dword = x: int | 0 <= x < Uint32Modulus
}
