/** Types the components share. */
module Common {
  datatype Option<+T> = None | Some(value: T)

  const U64_MAX: nat := 0xFFFF_FFFF_FFFF_FFFF

  type u64 = n: nat | n <= U64_MAX

  /** saturating_add(1) on u64. */
  function SatSucc(n: u64): u64 {
    if n == U64_MAX then U64_MAX else n + 1
  }

  type byte = n: nat | n < 256
}
