/** Small building blocks shared by the rest of the model: Swift's `Optional`
    and Swift's `Int` on a 64-bit Mac. */
module Common {

  /** Swift's `Optional<T>`: `nil` is `None`. */
  datatype Option<+T> = None | Some(value: T)

  const INT_MIN: int := -0x8000_0000_0000_0000
  const INT_MAX: int := 0x7FFF_FFFF_FFFF_FFFF

  /** True when `x` fits in a signed 64-bit integer (Swift `Int`, `Int64`). */
  predicate InInt64(x: int) {
    INT_MIN <= x <= INT_MAX
  }

  /** Swift's `Int` (64 bits on every Mac the app runs on), and `Int64`. */
  type Int = x: int | InInt64(x)
}
