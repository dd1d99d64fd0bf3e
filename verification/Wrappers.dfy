/** A value that may be absent: what a call that can throw is modelled by when the reason does not
    matter. */
module Wrappers {
  datatype Option<+T> = None | Some(value: T)
}
