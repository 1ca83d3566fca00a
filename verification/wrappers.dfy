/**
 * Rust's `Option`, and the outcome of a call that may `panic!`
 * (`expect`, `unwrap`, an explicit `panic!`, an out-of-bounds index).
 */
module Wrappers {

  datatype Option<T> = None | Some(value: T)

  /** The value a call returns, or the panic that aborts the program instead. */
  datatype Outcome<T> = Done(value: T) | Panic(message: string)
}
