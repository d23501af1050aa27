/** The optional value used for fields that PHP's `isset` may find missing. */
module Wrappers {

  /** `None` stands for a key that is absent or whose value is null. */
  datatype Option<+T> = None | Some(value: T)
}
