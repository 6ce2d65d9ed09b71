/** The optional value used for "no candidate found" and for a recognition page
    on which nothing was read. */
module Options {

  datatype Option<+T> = None | Some(value: T)
}
