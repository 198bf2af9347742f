/** The option and outcome datatypes shared by the scraper models. */
module Wrappers {

  /** Python's `None` versus a present value. */
  datatype Option<+T> = None | Some(value: T)

  /**
   * The result of evaluating a Python expression that may raise: either it
   * returned a value, or an exception left it (the model does not need the
   * exception's type, only that control did not come back normally).
   */
  datatype Outcome<+T> = Returned(value: T) | Raised
}
