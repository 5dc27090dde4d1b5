/** Outcomes shared by the model: a value that may be absent, and a value or
    the C++ exception that was thrown instead of it. */
module Wrappers {

  /** `None` stands for a file stream that did not open. */
  datatype Option<+T> = None | Some(value: T)

  /** The two exceptions the standard numeric conversions (std::stol,
      std::stoi, std::stof) throw: no digits at all, or a value outside the
      target type's range. */
  datatype Exception = InvalidArgument | OutOfRange

  /** A computed value, or the exception that escaped the accessor. */
  datatype Result<+T> = Ok(value: T) | Err(error: Exception)
}
