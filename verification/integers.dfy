/** Fixed-width unsigned integers of the runtime. Dafny integers are
    unbounded, so the widths are subset types and every `checked_add` of the
    source is an explicit comparison against the maximum. */
module Integers {

  const U64_MAX: int := 0xFFFF_FFFF_FFFF_FFFF
  const U128_MAX: int := 0xFFFF_FFFF_FFFF_FFFF_FFFF_FFFF_FFFF_FFFF

  type u64 = x: int | 0 <= x <= U64_MAX
  type u128 = x: int | 0 <= x <= U128_MAX
}
