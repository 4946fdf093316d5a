/** The optional value used for a file that may or may not be readable and
    for the nil-or-not frame cache. */
module Optional {
  datatype Option<+T> = None | Some(value: T)
}
