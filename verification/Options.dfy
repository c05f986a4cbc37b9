// The optional value used wherever the Go code returns "value, ok" or NaN.
module Options {

  datatype Option<+T> = None | Some(value: T)

  /** The first value when it is present, the second one otherwise. */
  function OrElse<T>(first: Option<T>, second: Option<T>): Option<T> {
    if first.Some? then first else second
  }
}
