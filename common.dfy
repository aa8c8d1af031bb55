/** Shared vocabulary: optional values, calls that may throw, and time units. */
module Common {

  /** A value that may be absent (`null`/`undefined` in the application). */
  datatype Option<+T> = None | Some(value: T)

  /** The outcome of a call that either returns a value or throws. */
  datatype Try<+T> = Ok(value: T) | Throws

  /** Time is a count of milliseconds, as `Date.now()` returns it. */
  type Millis = int

  const SecondMs: int := 1000
  const MinuteMs: int := 60 * SecondMs
  const DayMs: int := 24 * 60 * MinuteMs

  /** JavaScript truthiness of an optional string: absent and "" are falsy. */
  predicate Truthy(s: Option<string>)
  {
    s.Some? && s.value != ""
  }
}
