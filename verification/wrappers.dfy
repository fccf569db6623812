/** An optional value: an unwritten store key, or a menu node that is not a
    project submenu. */
module Wrappers {

  datatype Option<T> = None | Some(value: T)
}
