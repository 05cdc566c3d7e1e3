/** Optional values: JavaScript's `null`/`undefined` on one side, a present value on the other. */
module Wrappers {
  datatype Option<T> = None | Some(value: T)
  {
    /** `x ?? d`, and also `x || d` when the present value is never falsy. */
    function GetOr(default: T): (r: T)
      ensures this.Some? ==> r == value
      ensures this.None? ==> r == default
    {
      match this
      case None => default
      case Some(v) => v
    }
  }
}
