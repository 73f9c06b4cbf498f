/** A minimal Some/None datatype, used for Go's "value or panic" and "nil or error" results. */
module Optional {

  datatype Option<+T> = None | Some(value: T)

}
