/** Optional values, results, and the exceptions the Python code raises. */
module Outcomes {

  datatype Option<+T> = None | Some(value: T)

  /** The Python exception kinds that the modelled functions can raise. */
  datatype PyError =
    | ValueError        // wrong number of cards, failed tuple unpacking, bad range name
    | KeyError          // a missing key in a lookup table (CARDS, RANK_STR_TO_NUM, ...)
    | IndexError        // indexing past the end of a string or popping from an empty list
    | TypeError         // iterating over None
    | AssertionError    // a failed `assert` statement
    | ConflictingCards  // the same card passed twice
    | TokeniserError    // an unexpected token or a malformed holecard name

  datatype Result<+T> = Ok(value: T) | Err(error: PyError) {
    predicate IsFailure() { Err? }

    function PropagateFailure<U>(): Result<U>
      requires Err?
    {
      Err(error)
    }

    function Extract(): T
      requires Ok?
    {
      value
    }
  }
}
