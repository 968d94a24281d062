// Optional values, used where the source returns std::optional or a nullable result.

module Wrappers {

  datatype Option<+T> = None | Some(value: T)
}
