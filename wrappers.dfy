/** The optional-value type used wherever the bot's Python code uses `None`. */
module Wrappers {
  datatype Option<+T> = None | Some(value: T)
}
