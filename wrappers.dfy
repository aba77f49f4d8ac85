/** The present-or-absent result the store returns from lookups and updates. */
module Wrappers {

  datatype Option<+T> = None | Some(value: T)

}
