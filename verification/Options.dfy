/** The conventional optional value, standing for a property that may be undefined. */
module Options {
  datatype Option<+T> = None | Some(value: T)
}
