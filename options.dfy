/** The optional value used throughout the model (Go's nil pointer / nil error). */
module Options {

  datatype Option<+T> = None | Some(value: T)

}
