/** Option, the value-or-nothing the rest of the model returns. */
module Options {

  datatype Option<+T> = None | Some(value: T)
}
