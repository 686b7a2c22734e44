/** The unsigned machine integers of the C headers, as numbers with a bound. */
module Integers {

  type uchar = n: nat | n < 0x100
  type uint16 = n: nat | n < 0x1_0000
  type uint32 = n: nat | n < 0x1_0000_0000
  type uint64 = n: nat | n < 0x1_0000_0000_0000_0000
}
