/** The optional value used for the game's nullable fields and lookups. */
module Wrappers {

  datatype Option<+T> = None | Some(value: T)
}
