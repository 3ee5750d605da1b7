/** Options, and results of operations that can raise. */
module Outcomes {

  datatype Option<+T> = None | Some(value: T)

  /** The exceptions and failed assertions that the modelled code can end in. */
  datatype Error =
    | AssertionError
    | KeyError
    | IndexError
    | ValueError
    | Misaligned      // a byte buffer viewed at an offset its element size does not divide
    | ShapeMismatch   // a view or a slice assignment between different sizes

  datatype Result<+T> = Ok(value: T) | Raise(error: Error)
}
