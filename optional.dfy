/** A value that may be absent: an unset environment variable, a JSON field
    that is missing or of the wrong type, a body that did not parse. */
module Optional {

  datatype Option<+T> = None | Some(value: T)
}
