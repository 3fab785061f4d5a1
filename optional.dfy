/** The optional value used for lookups and integer parsing. */
module Optional {
  datatype Option<+T> = None | Some(value: T)
}
