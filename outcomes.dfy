/** Option and Result values standing in for C#'s null and thrown exceptions. */
module Outcomes {

  datatype Option<+T> = None | Some(value: T)

  /** The .NET exceptions that the modelled code can raise. */
  datatype Error =
    | InvalidOperation    // Enumerable.Min of an empty list, List.RemoveAt on an empty deck
    | ArgumentOutOfRange  // List indexer past the end

  datatype Result<+T> = Ok(value: T) | Err(error: Error)
}
