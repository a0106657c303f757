/**
 * The few Go primitives that msg/service.go relies on, over Dafny's unbounded
 * integers: fixed-width integer types, time.Time and time.Duration as counts of
 * nanoseconds, Time.Sub, and the float-to-integer conversion applied to
 * Duration.Seconds().
 */
module GoRuntime {

  const TwoTo32: int := 0x1_0000_0000
  const MinInt64: int := -0x8000_0000_0000_0000
  const MaxInt64: int := 0x7fff_ffff_ffff_ffff

  /** time.Second: one second as a Duration, which counts nanoseconds. */
  const Second: int := 1_000_000_000

  type uint16 = x: int | 0 <= x < 0x1_0000
  type uint32 = x: int | 0 <= x < 0x1_0000_0000

  /** time.Duration: a signed 64-bit count of nanoseconds. */
  type Duration = d: int | -0x8000_0000_0000_0000 <= d <= 0x7fff_ffff_ffff_ffff

  /** time.Time, as nanoseconds since a fixed epoch (Go's range is wider than int64). */
  type Instant = int

  /**
   * t.Sub(u): the duration from u to t. Go saturates it to the smallest or the
   * largest Duration when the difference does not fit in 64 bits.
   */
  function Sub(t: Instant, u: Instant): (d: Duration)
    ensures MinInt64 <= t - u <= MaxInt64 ==> d == t - u
    ensures t - u < MinInt64 ==> d == MinInt64
    ensures t - u > MaxInt64 ==> d == MaxInt64
    ensures d < 0 <==> t < u
    ensures t - u <= d <= 0 || 0 <= d <= t - u
  {
    if t - u < MinInt64 then MinInt64
    else if t - u > MaxInt64 then MaxInt64
    else t - u
  }

  /**
   * The whole seconds in d with the fraction discarded: the exact value of
   * d.Seconds() converted to an integer type, which truncates toward zero
   * (unlike Dafny's `/`, which rounds toward negative infinity). The float64
   * rounding of d.Seconds() itself is not modelled.
   */
  function TruncSeconds(d: int): (s: int)
    ensures 0 <= d ==> 0 <= s && s * Second <= d < (s + 1) * Second
    ensures d < 0 ==> s <= 0 && (s - 1) * Second < d <= s * Second
  {
    if d >= 0 then d / Second else -((-d) / Second)
  }

  /**
   * uint32(f) for a float64 f holding the whole number x, as the Go compiler
   * does it on amd64: convert to int64, then keep the low 32 bits. The Go
   * language leaves the result implementation-dependent when x does not fit
   * in a uint32.
   */
  function Uint32Amd64(x: int): (r: uint32)
    requires MinInt64 <= x <= MaxInt64
    ensures 0 <= x < TwoTo32 ==> r == x
    ensures -TwoTo32 <= x < 0 ==> r == x + TwoTo32
    ensures (x - r) % TwoTo32 == 0
  {
    x % TwoTo32
  }
}
