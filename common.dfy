/** Small shared vocabulary: calendar days as integers, an optional value, and
    the JavaScript idiom `parsed || fallback` applied to a parsed number. */
module Common {

  /** A calendar date with no time of day, as a count of days since 1970-01-01. */
  type Day = int

  datatype Option<+T> = None | Some(value: T)

  /** `parseInt(text) || fallback` (or `parseFloat`): the parsed number is `None`
      when parsing gave NaN. NaN and 0 are the two falsy numbers, so both fall back. */
  function OrElse(parsed: Option<int>, fallback: int): (r: int)
    ensures parsed.Some? && parsed.value != 0 ==> r == parsed.value
    ensures parsed.None? || parsed.value == 0 ==> r == fallback
    ensures fallback != 0 ==> r != 0
  {
    if parsed.Some? && parsed.value != 0 then parsed.value else fallback
  }
}
