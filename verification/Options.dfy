/** A value that may be missing: Python's None beside a value. */
module Options {

  datatype Option<T> = None | Some(value: T)

  function OrElse<T>(o: Option<T>, d: T): T { if o.Some? then o.value else d }
}
