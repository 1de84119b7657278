/** Shared vocabulary of the two in-process caches: an optional value and a
    time-stamped cache entry. */
module Common {

  /** Some(v) for a present value; None for an absent or unusable one. */
  datatype Option<+T> = None | Some(value: T)

  /** A cached value together with the clock reading (whole seconds) at which
      it was stored. */
  datatype Entry<T> = Entry(value: T, timestamp: int)

  /** An entry is served from its cache while fewer than `ttl` seconds have
      passed since it was stored. A clock that went backwards still counts as
      within the window, as in the source's `current_time - timestamp < TTL`. */
  predicate Live<T>(e: Entry<T>, now: int, ttl: int)
  {
    now - e.timestamp < ttl
  }
}
