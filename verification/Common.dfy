/** Shared basics. */
module Common {
  datatype Option<+T> = None | Some(value: T)

  /** One more than the largest 64-bit unsigned integer. */
  const TWO64: nat := 0x1_0000_0000_0000_0000
}
