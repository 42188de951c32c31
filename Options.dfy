/** An optional value, used where the source has a nullable pointer or an absent result. */
module Options {

  datatype Option<+T> = None | Some(value: T)
}
