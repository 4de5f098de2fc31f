/** The optional value used wherever the shell has "a value or nothing":
    a JavaScript `null` return, a state file that could not be read, an
    unset window position. */
module Options {

  datatype Option<+T> = None | Some(value: T)
}
