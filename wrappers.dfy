/** Option and Result, as the Rust code uses them. */
module Wrappers {
  datatype Option<T> = None | Some(value: T)

  /** The error kinds of the crate's `PptxError` that the modelled core returns. */
  datatype PptxError =
    | NotFound(what: string)
    | InvalidOperation(message: string)
    | Generic(message: string)

  datatype Result<T> = Ok(value: T) | Err(error: PptxError)
}
