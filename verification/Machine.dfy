/** Machine integers, instants and durations as the Go code uses them. */
module Machine {

  const MAX_INT64: int := 0x7FFF_FFFF_FFFF_FFFF
  const MIN_INT64: int := -0x8000_0000_0000_0000
  const MAX_UINT64: int := 0xFFFF_FFFF_FFFF_FFFF

  /** An unsigned 64-bit word. */
  type Word = x: int | 0 <= x <= MAX_UINT64

  datatype Option<+T> = None | Some(value: T)

  /** Checked addition: nothing is returned for a negative operand or a sum past int64. */
  function AddNonnegativeInt64(left: int, right: int): (sum: Option<int>)
    ensures sum.Some? <==> left >= 0 && right >= 0 && left + right <= MAX_INT64
    ensures sum.Some? ==> sum.value == left + right
  {
    if left < 0 || right < 0 || left > MAX_INT64 - right then None else Some(left + right)
  }

  /** Instants are nanoseconds since the Unix epoch; Go's zero time is the start of year 1. */
  type Time = int

  const SECOND: int := 1_000_000_000
  const ZERO_TIME: Time := -62_135_596_800 * SECOND

  /** Go's Time.Sub: a duration clamped to the int64 range. */
  function Sub(later: Time, earlier: Time): int {
    var elapsed := later - earlier;
    if elapsed > MAX_INT64 then MAX_INT64 else if elapsed < MIN_INT64 then MIN_INT64 else elapsed
  }
}
