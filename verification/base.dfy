/** Failure-carrying results shared by every module of the translator model. */
module Base {

  datatype Option<+T> = None | Some(value: T)

  /** A value, or the error that the Python source raises instead. */
  datatype Result<+T, +E> = Ok(value: T) | Err(error: E) {
    predicate IsFailure() {
      Err?
    }

    function PropagateFailure<U>(): Result<U, E>
      requires Err?
    {
      Err(error)
    }

    function Extract(): T
      requires Ok?
    {
      value
    }
  }
}

/** The nine kinds of VM command, shared by the reader that classifies
    commands and the writer that emits code for them. */
module Commands {

  datatype CommandKind =
    | Arithmetic
    | Push
    | Pop
    | Label
    | Goto
    | If
    | Function
    | Return
    | Call
}
