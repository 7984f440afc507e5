/** Small vocabulary shared by every module. */
module Basics {

  /** A nullable column, or a query that returns at most one row. */
  datatype Option<+T> = None | Some(value: T)

  /** Microseconds since an arbitrary epoch: `models.utcnow()` and timedelta arithmetic. */
  type Time = int

  const SECOND: Time := 1_000_000
  const MINUTE: Time := 60 * SECOND
  const HOUR: Time := 60 * MINUTE
  const DAY: Time := 24 * HOUR

  predicate Ascii(s: string) { forall i | 0 <= i < |s| :: s[i] < 128 as char }
}
