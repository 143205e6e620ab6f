/** The conventional optional value, used where the source has a pointer that may be null. */
module Optional {
  datatype Option<+T> = None | Some(value: T)
}
