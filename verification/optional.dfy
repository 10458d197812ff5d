/** Rust's `Option`: the optional colour fields and the result of a parse that can fail. */
module Optional {

  datatype Option<T> = None | Some(value: T)

  /** Rust's `Option::unwrap_or`: the carried value, or `fallback` when there is none. */
  function UnwrapOr<T>(o: Option<T>, fallback: T): (r: T)
    ensures o.Some? ==> r == o.value
    ensures o.None? ==> r == fallback
  {
    if o.Some? then o.value else fallback
  }
}
