/** Small option type shared by the token model and the lexer. */
module Wrappers {

  datatype Option<+T> = None | Some(value: T)
}
