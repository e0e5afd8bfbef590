/** The optional-value datatype used for JavaScript's `null`/`undefined` results. */
module Wrappers {

  datatype Option<+T> = None | Some(value: T) {

    /** The value, or `default` when there is none (JavaScript's `x ?? default`). */
    function GetOr(default: T): T {
      match this
      case Some(v) => v
      case None => default
    }

    /** This value if there is one, else `other` (JavaScript's `x ?? y`
        between two values that may be missing). */
    function Or(other: Option<T>): (r: Option<T>)
      ensures r.Some? <==> this.Some? || other.Some?
      ensures this.Some? ==> r == this
    {
      if this.Some? then this else other
    }
  }
}
