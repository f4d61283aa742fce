/** Instants, durations and the optional values the tables hold. */
module Clock {

  /** Microseconds since an arbitrary epoch: the resolution of the database's timestamps. */
  type Time = int

  const SECOND: int := 1_000_000
  const MINUTE: int := 60 * SECOND
  const HOUR: int := 60 * MINUTE
  const DAY: int := 24 * HOUR

  datatype Option<+T> = None | Some(value: T)

  datatype Result<+T, +E> = Ok(value: T) | Err(error: E)
}
