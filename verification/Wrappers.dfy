/** The usual optional value: a TypeScript `T | null`, or a library call that may throw. */
module Wrappers {
  datatype Option<+T> = None | Some(value: T)
}
