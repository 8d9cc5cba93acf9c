/** The optional value used for the editor's nullable fields and arguments. */
module Wrappers {

  /** `None` stands for an absent JavaScript value: `null` for the selection indices, `undefined`
      for an omitted argument or a missing field. */
  datatype Option<+T> = None | Some(value: T) {

    /** The value, or `default` when there is none. */
    function GetOr(default: T): T {
      match this
      case Some(v) => v
      case None => default
    }
  }
}
