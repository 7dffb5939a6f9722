/** Optional values and the success/failure results the services return. */
module Options {

  /** A nullable value. */
  datatype Option<+T> = None | Some(value: T)

  /** The result of a service call: a value, or the domain error it throws. */
  datatype Result<+T, +E> = Ok(value: T) | Err(error: E)

  /** A patch field: absent (`undefined`, left alone) or set, possibly to null. */
  datatype Patch<+T> = Keep | Set(value: T) {
    function Or(current: T): T {
      match this
      case Keep => current
      case Set(v) => v
    }
  }
}
