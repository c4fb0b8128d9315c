/** An optional value: an error-free lookup, parse or load either yields a value or nothing. */
module Optional {

  datatype Option<+T> = None | Some(value: T)
}
