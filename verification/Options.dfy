/** A value or its absence. */
module Options {
  datatype Option<T> = None | Some(value: T)

  function Held<T>(x: Option<T>): seq<T> {
    if x.Some? then [x.value] else []
  }
}
