/** Results, optional values, machine integers and instants shared by every module. */
module Base {
  datatype Option<+T> = None | Some(value: T)

  datatype Result<+T> = Ok(value: T) | Err(error: string)

  const TWO_63: int := 0x8000_0000_0000_0000
  const TWO_64: int := 0x1_0000_0000_0000_0000

  /** Go's int64: token counters, limits and durations. */
  type int64 = x: int | -0x8000_0000_0000_0000 <= x < 0x8000_0000_0000_0000

  /** The result of an int64 addition or multiplication in Go. */
  function Wrap64(x: int): (r: int64)
    ensures (r - x) % TWO_64 == 0
    ensures -TWO_63 <= x < TWO_63 ==> r == x
  {
    (x + TWO_63) % TWO_64 - TWO_63
  }

  /** The result of time.Time.Sub, which saturates instead of wrapping. */
  function Saturate64(x: int): (r: int64)
  {
    if x < -TWO_63 then -TWO_63 else if x >= TWO_63 then TWO_63 - 1 else x
  }

  /** An instant is a number of nanoseconds since 1970-01-01T00:00:00Z. */
  type Instant = int

  const SECOND: int := 1_000_000_000
  const MINUTE: int := 60 * SECOND
  const HOUR: int := 60 * MINUTE

  /** The zero value of time.Time: 0001-01-01T00:00:00Z. */
  const ZERO_TIME: Instant := -62_135_596_800 * SECOND

  /** The whole second an instant falls in (time.Time.Unix). */
  function UnixSecond(t: Instant): int { t / SECOND }

  function Max(a: int, b: int): int { if a < b then b else a }
}
