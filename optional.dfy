/** The usual optional value, used for absent request fields and for failed parses. */
module Optional {

  datatype Option<+T> = None | Some(value: T)
}
