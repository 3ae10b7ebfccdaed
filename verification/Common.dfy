/** Small datatypes and the one notion of a sum that every ledger in this project uses. */
module Common {

  datatype Option<+T> = None | Some(value: T)

  /** The result of a service call: a value, or the error the source raises. */
  datatype Outcome<+T, +E> = Ok(value: T) | Err(error: E) {
    predicate IsFailure() {
      Err?
    }

    function PropagateFailure<U>(): Outcome<U, E>
      requires Err?
    {
      Err(error)
    }

    function Extract(): T
      requires Ok?
    {
      value
    }
  }

  /** A call did what its specification says: the specified new state on success, nothing on failure. */
  ghost predicate Did<S, E, R>(before: S, after: S, spec: Outcome<S, E>, r: Outcome<R, E>) {
    match spec
    case Ok(state) => r.Ok? && after == state
    case Err(error) => r == Err(error) && after == before
  }

  function Min(a: int, b: int): int { if a <= b then a else b }

  function Max(a: int, b: int): int { if a >= b then a else b }

  /** The figure in [0, top] nearest to a reported one. */
  predicate Nearest(reported: int, top: int, recorded: int) {
    && 0 <= recorded <= top
    && (0 <= reported <= top ==> recorded == reported)
    && (reported < 0 ==> recorded == 0)
    && (reported > top ==> recorded == top)
  }
}
