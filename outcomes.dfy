/** Failure-carrying values: the source raises ValueError or produces NaN in a
    few places, and the model returns these instead. */
module Outcomes {

  /** An optional value; `None` stands for a NaN the source produces (the mean
      of an empty array). */
  datatype Option<+T> = None | Some(value: T)

  /** A value or an error; `Err` stands for an exception the source raises. */
  datatype Result<+T, +E> = Ok(value: T) | Err(error: E)
}
