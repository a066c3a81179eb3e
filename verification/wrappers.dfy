/** The absent-or-present value the price payload arrives in. */
module Wrappers {

  /** `None` stands for a fetch that failed (the fetcher returns nothing)
      or for a payload that is empty; `Some` carries the decoded payload. */
  datatype Option<+T> = None | Some(value: T)
}
