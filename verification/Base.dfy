/** Small types every other module shares. */
module Base {

  type Byte = x: int | 0 <= x < 256

  datatype Option<+T> = None | Some(value: T)

  /** The source's `(value, error)` pairs; which error it was is never looked at by a caller. */
  datatype Result<+T> = Ok(value: T) | Rejected {
    predicate IsFailure() {
      Rejected?
    }

    function PropagateFailure<U>(): Result<U>
      requires Rejected?
    {
      Rejected
    }

    function Extract(): T
      requires Ok?
    {
      value
    }
  }

  /** Instants and durations, in nanoseconds; 0 is Go's zero `time.Time`. */
  type Time = int

  const SECOND: Time := 1_000_000_000
  const MINUTE: Time := 60 * SECOND
}
