/** The optional value that stands for Python's `None` (a failed `re.search`,
    a batch without a serial number). */
module Wrappers {

  datatype Option<+T> = None | Some(value: T)

}
