/** Time arithmetic of Python's `datetime`, on whole seconds. */
module Clock {
  /**
   * `timedelta(seconds = d).seconds`: a `timedelta` keeps whole days apart, so this is the
   * part of the duration within its last day (never negative).
   */
  function DaySeconds(d: int): (s: int)
    ensures 0 <= s < 86400
    ensures 0 <= d < 86400 ==> s == d
    ensures (d - s) % 86400 == 0
  {
    d % 86400
  }
}
