/** The optional value used for `Option<usize>` tab indices, the spacer outcome
    and tab-switch actions. */
module Wrappers {

  datatype Option<+T> = None | Some(value: T)
}
