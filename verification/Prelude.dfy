/** Types shared by every component: protocol integers, optional values and the
    store's errors. Heights, generations and counters are `u64` in the program;
    here `u64` is the subset type of mathematical integers in that range, so every
    place where a value is stored as a `u64` carries an obligation that it fits. */
module Prelude {

  const U64_MAX: int := 0xFFFF_FFFF_FFFF_FFFF

  type u64 = n: int | 0 <= n <= U64_MAX

  newtype byte = n: int | 0 <= n < 256

  datatype Option<+T> = None | Some(value: T)

  /** Errors that store operations report. Payload texts are not modelled. */
  datatype StoreError = Invalid | NetworkIdentity | IncompleteScan | ConflictingHistory

  datatype Result<+T> = Ok(value: T) | Err(error: StoreError)

  /** `u64::saturating_add(n, 1)`. */
  function SaturatingSucc(n: u64): u64 {
    if n == U64_MAX then n else n + 1
  }

  /** `u64::checked_add(n, 1)`. */
  function CheckedSucc(n: u64): Option<u64> {
    if n == U64_MAX then None else Some(n + 1)
  }

  function Min(a: int, b: int): int {
    if a <= b then a else b
  }

  function Max(a: int, b: int): int {
    if a <= b then b else a
  }
}
