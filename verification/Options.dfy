/** The usual optional value, used where the driver has a pointer that may be NULL. */
module Options {
  datatype Option<+T> = None | Some(value: T)
}
