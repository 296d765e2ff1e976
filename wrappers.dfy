/** Absent-or-present values: a pandas cell that may hold NaN / NaT. */
module Wrappers {

  datatype Option<+T> = None | Some(value: T)
}
