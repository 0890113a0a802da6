/** The types that all parts of the model share. */
module Basics {

  datatype Option<+T> = None | Some(value: T)

  newtype byte = x: int | 0 <= x < 256

  /** Clocks are nanoseconds. */
  const SECOND := 1_000_000_000

  /** time.Time.Unix: the whole second that t lies in. */
  function Unix(t: int): int { t / SECOND }
}
