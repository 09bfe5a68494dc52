/** The optional-value wrapper used across the model. */
module Wrappers {

  /** Some value, or nothing. In the extractor, `None` stands for a call that never returns. */
  datatype Option<+T> = None | Some(value: T)
}
