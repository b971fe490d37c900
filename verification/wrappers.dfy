/** The optional-value datatype used for dictionary lookups (`dict.get`) and for the
    one runtime fault the relay can raise. */
module Wrappers {

  /** `None` stands for Python's `None`; `Some(v)` for a present value. */
  datatype Option<+T> = None | Some(value: T)
}
