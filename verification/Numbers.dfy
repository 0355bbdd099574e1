/** Machine integers: their largest values, and addition that saturates. */
module Numbers {
  const U32_MAX := 0xFFFF_FFFF
  const U64_MAX := 0xFFFF_FFFF_FFFF_FFFF

  function SatAdd(a: nat, b: nat): nat {
    if a + b < U64_MAX then a + b else U64_MAX
  }
}
