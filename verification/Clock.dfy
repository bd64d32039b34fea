/** Instants are nanoseconds since 1970; token claims carry whole seconds. */
module Clock {
  const SECOND: int := 1_000_000_000

  function Unix(instant: int): int {
    instant / SECOND
  }
}
