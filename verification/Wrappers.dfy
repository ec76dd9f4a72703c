/** Small value types shared by the models. */
module Wrappers {
  datatype Option<+T> = None | Some(value: T) {
    /** The zero or one elements of the option, in sequence form. */
    function ToSeq(): seq<T> {
      if Some? then [value] else []
    }
  }
}
