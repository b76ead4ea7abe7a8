/** The widths of C integers that matter. */
module MachineIntegers {
  const TWO_31: int := 0x8000_0000
  const TWO_32: int := 0x1_0000_0000

  // C conversions to `uint32_t`, and to `int` or `long` of 32 bits.
  function U32(x: int): int { x % TWO_32 }
  function S32(x: int): int { if U32(x) >= TWO_31 then U32(x) - TWO_32 else U32(x) }
}
