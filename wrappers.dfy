/** A value that the C# code may leave null, or a computation that may not produce one. */
module Wrappers {

  datatype Option<+T> = None | Some(value: T)
}
