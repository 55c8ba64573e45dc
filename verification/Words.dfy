/** The source's fixed-width unsigned integers, as ranges of natural numbers. */
module Words {
  const U32_LIMIT: nat := 0x1_0000_0000

  type u8 = x: nat | x < 0x100

  type u32 = x: nat | x < U32_LIMIT

  type Bytes = seq<u8>
}
