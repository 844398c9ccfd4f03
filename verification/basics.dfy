/** What several modules need. */
module Basics {
  datatype Option<+T> = None | Some(value: T)

  /** A truth value as a number, for counting. */
  function One(b: bool): nat {
    if b then 1 else 0
  }
}
