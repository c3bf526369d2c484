/** The optional values shared by the other modules: Go's nil pointers, nil slices and nil errors. */
module Optional {
  datatype Option<+T> = None | Some(value: T)
}
