/** A value that may be absent: a date field that is empty or does not parse, a record
    timestamp that does not parse, a lookup that finds nothing. */
module Wrappers {

  datatype Option<+T> = None | Some(value: T)
}
