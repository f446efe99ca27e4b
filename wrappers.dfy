/** Small result types shared by the engine and the glue models. */
module Wrappers {

  /** Rust's `Option<T>`. */
  datatype Option<+T> = None | Some(value: T)

  /** What a call that may end the program produces: a value, a Rust
      `panic!` with its message, or a process abort performed inside a
      foreign call (LLVM's `LLVMAbortProcessAction`). */
  datatype Outcome<+T> = Ok(value: T) | Panic(message: string) | Abort
}
