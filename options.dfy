/** The optional value used for "no loader" and "no image yet". */
module Options {

  datatype Option<+T> = None | Some(value: T)
}
