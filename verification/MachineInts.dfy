/** The widths of the source's integers. */
module MachineInts {
  type byte = b: int | 0 <= b < 256

  const I32_MAX := 0x7fff_ffff
  const U32_MAX := 0xffff_ffff
  const I64_MAX := 0x7fff_ffff_ffff_ffff
  const U64_MAX := 0xffff_ffff_ffff_ffff
  const TWO_32 := 0x1_0000_0000
  const TWO_64 := 0x1_0000_0000_0000_0000
}
