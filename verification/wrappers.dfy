/** Failure-carrying results for the create paths of the meta copy objects.
    Every Vulkan creation failure in the source throws a `DxvkError` carrying a
    fixed message; here that exception is the `Err` arm of `Result`. */
module Wrappers {

  /** The exception object thrown by a failed creation: just its message. */
  datatype Error = Error(message: string)

  datatype Option<+T> = None | Some(value: T)

  datatype Result<+T> = Ok(value: T) | Err(error: Error)
}
