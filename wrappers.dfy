/** A value that may be absent: JavaScript's `undefined`/`null`, a missing
    dictionary entry, or a request that produced no response. */
module Wrappers {

  datatype Option<+T> = None | Some(value: T)
  {
    function GetOr(default: T): T
    {
      match this
      case Some(v) => v
      case None => default
    }
  }
}
