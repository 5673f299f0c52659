/** The unsigned machine words of the source, as ranges of natural numbers. */
module Words {

  const WORD: nat := 0x1_0000_0000  // 2^32
  const TWO_TO_THE_63: nat := 0x8000_0000_0000_0000
  const TWO_TO_THE_64: nat := 0x1_0000_0000_0000_0000

  type uint64 = x: nat | x < TWO_TO_THE_64
  type uint32 = x: nat | x < WORD
  type uint16 = x: nat | x < 0x1_0000
  type uint8 = x: nat | x < 0x100
}
