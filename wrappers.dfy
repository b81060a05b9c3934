/** The Option type used for the component's nullable state (currentNumber) and for parse results. */
module Wrappers {
  datatype Option<T> = None | Some(value: T)
}
