/** The optional value the other modules use where the program has no value,
    an "ok" flag or an error that carries nothing they need. */
module Wrappers {

  datatype Option<+T> = None | Some(value: T)
}
