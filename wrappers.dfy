/** Optional values and parse outcomes, standing in for Swift's `Optional` and `throws`. */
module Wrappers {

  datatype Option<+T> = None | Some(value: T)

  /** The outcome of a throwing parser function: a value, or the one error
      kind the parser raises, which carries no detail. */
  datatype Result<+T> = Ok(value: T) | ParseError
}
