/** Option, the value-or-nothing datatype used for Python's `None` defaults
    and for dictionary lookups. */
module Wrappers {

  datatype Option<+T> = None | Some(value: T)

}
