/** Values shared by every part of the model: optional values, results with an
    error side, and the "part of a whole as a percentage" computation that the
    hotel occupancy report and the bus dashboard both perform. */
module Common {

  datatype Option<+T> = None | Some(value: T)

  /** A computation that either yields a value or fails with an error the caller sees. */
  datatype Result<+T, +E> = Ok(value: T) | Err(error: E)

  function Min(a: real, b: real): (m: real)
    ensures m <= a && m <= b
    ensures m == a || m == b
  {
    if a <= b then a else b
  }

  /** `part / whole * 100` with true division, or 0 when `whole` is not positive
      (the guard against a zero denominator): for a positive whole, the
      percentage is the number that, taken of the whole, gives back the part. */
  function PercentOf(part: int, whole: int): (pct: real)
    ensures whole > 0 ==> pct * whole as real == 100.0 * part as real
    ensures whole <= 0 ==> pct == 0.0
  {
    if whole > 0 then
      var ratio := part as real / whole as real;
      assert ratio * whole as real == part as real;
      ratio * 100.0
    else 0.0
  }

  /** A share of non-negative counts, where the part never exceeds the whole, is a
      percentage between 0 and 100; an empty whole gives exactly 0. */
  lemma PercentOfBounds(part: int, whole: int)
    requires 0 <= part <= whole
    ensures 0.0 <= PercentOf(part, whole) <= 100.0
    ensures whole == 0 ==> PercentOf(part, whole) == 0.0
  {
    if whole > 0 {
      var ratio := part as real / whole as real;
      assert ratio * whole as real == part as real;
      assert ratio <= 1.0;
    }
  }
}
