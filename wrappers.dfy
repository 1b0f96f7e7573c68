/** Option and Result datatypes shared by every module, and the kinds of
    failure the boundary layer can report to its caller. */
module Wrappers {

  datatype Option<+T> = None | Some(value: T)

  datatype Result<+T, +E> = Ok(value: T) | Err(error: E)

  /** How a failure reaches the JavaScript caller.
      - JsError: a value returned as `Err(JsValue)` from Rust, or an `Error` thrown by TypeScript;
      - Panic: a Rust `panic!`, `unwrap` or `expect`, which aborts the WebAssembly call;
      - TypeError: JavaScript's own failure when a method is called on `undefined`. */
  datatype Error = JsError(message: string) | Panic(message: string) | TypeError(message: string)
}
