/** The exceptions the evaluator throws, as values, and the wrappers that carry them. */
module Failures {

  /** One constructor per kind of IllegalArgumentException the pipeline throws. */
  datatype Error =
    | UnbalancedParentheses   // "Kurung tidak seimbang"
    | MissingOperand          // a pop from an empty or too small value stack
    | InvalidFactorialOperand // "!" applied to a negative or non-integral value
    | InvalidFinalStack       // the value stack does not end with exactly one value

  datatype Result<T> = Ok(value: T) | Err(error: Error)

  datatype Option<T> = None | Some(value: T)
}
