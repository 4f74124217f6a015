/** Option and completion types shared by all modules of the model. */
module Wrappers {

  /** A value that may be `null`/`undefined` in the source. */
  datatype Option<+T> = None | Some(value: T) {
    function GetOr(default: T): T {
      match this
      case Some(v) => v
      case None => default
    }
  }

  /** How an awaited call or a block of straight-line code ended in the source:
      it returned a value, or it threw (a rejected promise included) with a message. */
  datatype Completion<+T> = Returned(value: T) | Threw(message: string)
}
