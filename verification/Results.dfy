// Outcomes shared by every contract model: a call either yields a value or one error.
module Results {

  datatype Option<+T> = None | Some(value: T)

  datatype Result<+T, +E> = Ok(value: T) | Err(error: E) {
    predicate IsFailure() { Err? }

    function PropagateFailure<U>(): Result<U, E>
      requires Err?
    {
      Err(error)
    }

    function Extract(): T
      requires Ok?
    {
      value
    }
  }

  // A guard: passes, or stops the call with an error.
  datatype Guard<+E> = Pass | Stop(error: E) {
    predicate IsFailure() { Stop? }

    function PropagateFailure<U>(): Result<U, E>
      requires Stop?
    {
      Err(error)
    }
  }

  function Need<E>(condition: bool, error: E): Guard<E> {
    if condition then Pass else Stop(error)
  }
}
