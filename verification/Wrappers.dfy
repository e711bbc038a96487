/** What all models share: the optional value, the bounds of 64-bit integers and the larger of two numbers. */
module Wrappers {

  datatype Option<+T> = None | Some(value: T)

  const TWO_64 := 0x1_0000_0000_0000_0000
  const MAX_UINT64 := 0xFFFF_FFFF_FFFF_FFFF

  type Uint64 = n: nat | n < TWO_64

  function Max(a: nat, b: nat): nat {
    if a < b then b else a
  }
}
