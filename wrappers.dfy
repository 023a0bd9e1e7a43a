/** The optional value used throughout the model: a lookup that may find
    nothing, a nullable column, a query parameter that may be absent. */
module Wrappers {

  datatype Option<T> = None | Some(value: T)
  {
    function GetOr(default: T): T
    {
      if Some? then value else default
    }
  }
}
