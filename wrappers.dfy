/** The result of a call into the operating system that may fail: `None`
    stands for a command that could not be run or a query that raised. */
module Wrappers {

  datatype Option<+T> = None | Some(value: T)
}
