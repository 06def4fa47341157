/** Time as Go's `time` package sees it, reduced to integers: an instant is a
    count of nanoseconds since the Unix epoch and a duration is a signed count
    of nanoseconds, as `time.Duration` is. The current time is always passed
    in explicitly. */
module Clock {

  const Second: int := 1_000_000_000
  const Minute: int := 60 * Second
  const Hour: int := 60 * Minute

  /** `int(d.Seconds())`: whole seconds of a duration, truncated toward zero
      as Go's float-to-int conversion does. */
  function TruncSeconds(d: int): (s: int)
    ensures d >= 0 ==> 0 <= s && s * Second <= d < (s + 1) * Second
    ensures d < 0 ==> s <= 0 && (s - 1) * Second < d <= s * Second
  {
    if d >= 0 then d / Second else -((-d) / Second)
  }

  /** `t.Unix()`: seconds since the epoch, rounded toward minus infinity. */
  function UnixSeconds(t: int): (s: int)
    ensures s * Second <= t < (s + 1) * Second
  {
    t / Second
  }

  /** `time.Unix(sec, 0)`. */
  function FromUnix(sec: int): (t: int)
    ensures UnixSeconds(t) == sec
  {
    sec * Second
  }

  /** `t.After(u)`. */
  predicate After(t: int, u: int) {
    t > u
  }

  function Abs(d: int): nat {
    if d < 0 then -d else d
  }
}
