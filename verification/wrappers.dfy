/** The optional value the calendar's lookups return in place of Python's None. */
module Wrappers {

  datatype Option<+T> = None | Some(value: T)

}
