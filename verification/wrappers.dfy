/** The optional value used for every field that a scan may leave unset
    (Python's `None`). */
module Wrappers {

  datatype Option<+T> = None | Some(value: T)
}
