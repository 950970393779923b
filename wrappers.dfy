/** Failure-compatible results for the operations of the outliner, and the
    errors that the Python program raises (or would prompt about) on the way. */
module Wrappers {

  datatype Option<+T> = None | Some(value: T)

  /** Why an operation could not produce a value. */
  datatype Error =
    /** roman_to_number met a symbol other than I, V, X once dots are removed */
    | KeyError(symbol: char)
    /** DOWN was computed at depth 5, so order[6] was written */
    | IndexError
    /** int() was applied to text that is not a decimal integer */
    | ValueError(text: string)
    /** the reply to the console prompt was none of the accepted words,
        so the prompt would be shown again */
    | NoAnswer(reply: string)

  datatype Result<+T> = Ok(value: T) | Err(error: Error) {

    predicate IsFailure() {
      Err?
    }

    function PropagateFailure<U>(): Result<U>
      requires Err?
    {
      Err(error)
    }

    function Extract(): T
      requires Ok?
    {
      value
    }
  }
}
