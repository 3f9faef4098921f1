/** Rust's `Option`, used for optional payloads and channel receives. */
module Wrappers {
  datatype Option<+T> = None | Some(value: T)
}
