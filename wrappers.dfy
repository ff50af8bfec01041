/** Small value wrappers shared by the other modules. */
module Wrappers {

  /** An optional value: `None` stands for "nothing happened" (no write, no reading). */
  datatype Option<+T> = None | Some(value: T)
}
