/** Option and Result: the shapes of Rust's `Option<T>` and `Result<T, E>`
    used throughout the model. Errors carry the message text the source builds. */
module Wrappers {
  datatype Option<T> = None | Some(value: T)
  {
    function UnwrapOr(default: T): T
    {
      if Some? then value else default
    }
  }

  datatype Result<T> = Ok(value: T) | Err(error: string)
}
