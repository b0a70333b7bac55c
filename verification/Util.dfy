/** Shared value types and the machine-integer bounds the source relies on. */
module Util {

  datatype Option<+T> = None | Some(value: T)

  const U8_MAX: nat := 0xff
  const U32_MAX: nat := 0xffff_ffff
  const U64_MAX: nat := 0xffff_ffff_ffff_ffff
  const U128_MAX: nat := 0xffff_ffff_ffff_ffff_ffff_ffff_ffff_ffff
  const I64_MAX: nat := 0x7fff_ffff_ffff_ffff
  const I64_MIN: int := -0x8000_0000_0000_0000

  type U16 = x: nat | x <= 0xffff
  type U32 = x: nat | x <= U32_MAX
  type U56 = x: nat | x <= 0xff_ffff_ffff_ffff
  type U64 = x: nat | x <= U64_MAX

  function Min(a: int, b: int): int {
    if a <= b then a else b
  }

  function Max(a: int, b: int): int {
    if a <= b then b else a
  }

  /** Unsigned addition that stops at `cap`. */
  function SatAdd(a: nat, b: nat, cap: nat): nat {
    Min(a + b, cap)
  }

  function OrZero(o: Option<nat>): nat {
    if o.Some? then o.value else 0
  }
}
