/** Values and small functions shared by every component. */
module Common {

  datatype Option<+T> = None | Some(value: T)

  datatype Result<+T, +E> = Ok(value: T) | Err(error: E)

  /** Times and durations are in nanoseconds. */
  const SECOND := 1_000_000_000

  /** A half-open stretch of time. */
  datatype Period = Period(from: int, to: int)

  function Min(a: int, b: int): int {
    if a < b then a else b
  }

  function Max(a: int, b: int): int {
    if a < b then b else a
  }

  predicate IsDigit(c: char) {
    '0' <= c <= '9'
  }

  ghost predicate NoRepeats<T>(s: seq<T>) {
    forall i, j :: 0 <= i < j < |s| ==> s[i] != s[j]
  }
}
