/** The errors of calls, as the first of their checks that fails. */
module Refusals {
  import opened Options

  /** No refusal, or the error thrown; `Or` is the next check. */
  datatype Refusal<+E> = Passed | Refused(error: E) {
    function Or(next: Refusal<E>): Refusal<E> { if this.Refused? then this else next }
  }

  function When<E>(refuses: bool, error: E): Refusal<E> { if refuses then Refused(error) else Passed }

  function Of<T, E>(r: Result<T, E>): Refusal<E> {
    match r
    case Ok(_) => Passed
    case Err(e) => Refused(e)
  }

  function OfOption<E>(r: Option<E>): Refusal<E> {
    match r
    case None => Passed
    case Some(e) => Refused(e)
  }
}
