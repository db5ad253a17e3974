/** An optional value, for the TypeScript `T | undefined` results of `find` and optional fields. */
module Wrappers {

  datatype Option<+T> = None | Some(value: T)
}
