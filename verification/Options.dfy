/** The nullable values of the gateway: a missing key, an absent field, a null proof. */
module Options {
  datatype Option<+T> = None | Some(value: T)
}
