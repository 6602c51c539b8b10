/** Python's `None`-or-value, used for the optional fields of feed entries and entities. */
module Wrappers {

  datatype Option<+T> = None | Some(value: T)
}
