/** The option datatype shared by the modules; `None` stands for the source's `undefined` and `null`. */
module Wrappers {
  datatype Option<+T> = None | Some(value: T) {
    /** `this ?? default` */
    function GetOr(default: T): T {
      match this
      case None => default
      case Some(value) => value
    }
  }
}
