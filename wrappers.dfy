/** The nullable values of the source (a C# `string?`) as an option type. */
module Wrappers {

  datatype Option<+T> = None | Some(value: T)
}
