/** The optional value used where the source returns a found flag or an error. */
module Optional {
  datatype Option<+T> = None | Some(value: T)
}
