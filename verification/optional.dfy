/** A value that may be absent: java.util.Optional for the request context, "no match" for the pattern. */
module Optional {

  datatype Option<T> = None | Some(value: T)
}
