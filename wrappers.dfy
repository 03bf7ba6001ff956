/** Optional values (Java/TypeScript `null`) and results with an error (a thrown exception). */
module Wrappers {
  datatype Option<+T> = None | Some(value: T)
  {
    function GetOr(default: T): T
    {
      match this
      case None => default
      case Some(v) => v
    }
  }

  datatype Result<+T, +E> = Ok(value: T) | Err(error: E)

  /** `xs ?? []`, `xs || []`: an absent collection reads as empty. */
  function OrEmpty<T>(xs: Option<seq<T>>): seq<T>
  {
    match xs
    case None => []
    case Some(s) => s
  }
}
