/** Go's fixed-width integers, where their width can show. Times and durations are
    whole nanoseconds, as in Go's `time` package; instant 0 is Go's zero `time.Time`. */
module Machine {

  const TWO64: int := 0x1_0000_0000_0000_0000
  const MAX_INT64: int := 0x7FFF_FFFF_FFFF_FFFF
  const MAX_INT32: int := 0x7FFF_FFFF

  type uint64 = n: int | 0 <= n < TWO64
  type int64 = n: int | -MAX_INT64 - 1 <= n <= MAX_INT64
  type int32 = n: int | -MAX_INT32 - 1 <= n <= MAX_INT32

  const SECOND: int := 1_000_000_000
  const MICROSECOND: int := 1_000

  /** Two's complement result of an int64 operation whose exact value is `n`. */
  function Wrap64(n: int): int64 {
    if -MAX_INT64 - 1 <= n <= MAX_INT64 then n
    else (n + MAX_INT64 + 1) % TWO64 - MAX_INT64 - 1
  }

  /** `int32(n)` of a count. */
  function Wrap32(n: nat): int32 {
    (n + MAX_INT32 + 1) % 0x1_0000_0000 - MAX_INT32 - 1
  }

  /** `time.Duration(s) * time.Second`. */
  function Seconds(s: int64): int64 {
    Wrap64(s * SECOND)
  }

  /** `metav1.Time` comes back from the API server with whole seconds... */
  function StoredTime(t: int): (r: int)
    ensures r <= t < r + SECOND && r % SECOND == 0
  {
    t - t % SECOND
  }

  /** ...and `metav1.MicroTime` with whole microseconds. */
  function StoredMicroTime(t: int): (r: int)
    ensures r <= t < r + MICROSECOND && r % MICROSECOND == 0
  {
    t - t % MICROSECOND
  }
}
