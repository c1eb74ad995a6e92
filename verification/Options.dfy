/** The one shared wrapper: a value that may be absent (null, undefined or SQL NULL). */
module Options {
  datatype Option<+T> = None | Some(value: T)
}
