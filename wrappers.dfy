/** The optional-value wrapper used for the record's optional fields. */
module Wrappers {

  /** `None` stands for a field that is `undefined` or `null` in the JSON record. */
  datatype Option<+T> = None | Some(value: T)
}
