/** The null-or-value shape of the JSON fields the script reads. */
module Wrappers {

  /** `None` stands for a JSON `null`. */
  datatype Option<+T> = None | Some(value: T)
}
