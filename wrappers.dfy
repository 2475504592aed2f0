/** Optional values: JavaScript's `null` / `undefined` on the source side. */
module Wrappers {

  datatype Option<+T> = None | Some(value: T)
  {
    /** The value, or `default` when there is none (JavaScript's `a || b` on a present/absent value). */
    function GetOr(default: T): T
    {
      match this
      case Some(v) => v
      case None => default
    }
  }
}
