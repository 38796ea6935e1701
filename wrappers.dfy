/** The optional value used where the game may have nothing: a save that is
    missing or fails to parse, an action id that names no action. */
module Wrappers {

  datatype Option<+T> = None | Some(value: T)
}
