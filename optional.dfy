/** A value that may be absent: Go's nil interface or nil pointer stands for None. */
module Optional {
  datatype Option<+T> = None | Some(value: T)
}
