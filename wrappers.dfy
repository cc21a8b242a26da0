/** The optional value used where retrieveHistory.py has a value or an uncaught fault. */
module Wrappers {

  datatype Option<+T> = None | Some(value: T)
}
