/**
 Python's built-in `round(minutes / 60)` for an integer number of minutes:
 the nearest whole number of hours, ties to the even neighbour. For
 integers of moderate size the float quotient is exact at the tie points
 and at distance at least 1/60 from them elsewhere, so rounding the
 rational gives the same answer as rounding the float.
 */
module Rounding {

  function Abs(x: int): int
  {
    if x < 0 then -x else x
  }

  function RoundHours(minutes: int): (h: int)
    ensures 2 * Abs(minutes - 60 * h) <= 60
    ensures 2 * Abs(minutes - 60 * h) == 60 ==> h % 2 == 0
  {
    var q := minutes / 60;
    var rem := minutes % 60;
    if rem < 30 then q
    else if rem > 30 then q + 1
    else if q % 2 == 0 then q
    else q + 1
  }

  /** The two properties in RoundHours's contract pin the result down: they are the definition of rounding half to even. */
  lemma RoundHoursUnique(minutes: int, h: int)
    requires 2 * Abs(minutes - 60 * h) <= 60
    requires 2 * Abs(minutes - 60 * h) == 60 ==> h % 2 == 0
    ensures h == RoundHours(minutes)
  {
  }
}
