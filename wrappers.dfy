/** Small failure-carrying datatypes shared by the model. */
module Wrappers {

  datatype Option<T> = None | Some(value: T)

  /** The outcome of reading the game's live memory, or of a step that reads it:
      either the read threw (the structure was torn down or rewritten under us),
      or it produced a value. */
  datatype Read<T> = Threw | Got(value: T)
}
