/** The optional value used where the source signals absence with `-1`. */
module Wrappers {

  datatype Option<+T> = None | Some(value: T)
}
