/** Failure-carrying values shared by the modules of this project. */
module Wrappers {

  datatype Option<+T> = None | Some(value: T)

  datatype Result<+T, +E> = Ok(value: T) | Err(error: E)

  /** What a traversal that has gathered some values makes of the result for the rest. */
  function Gathered<T, E>(gathered: seq<T>, rest: Result<seq<T>, E>): Result<seq<T>, E> {
    match rest
    case Err(e) => Err(e)
    case Ok(values) => Ok(gathered + values)
  }

  lemma GatheredNothing<T, E>(rest: Result<seq<T>, E>)
    ensures Gathered([], rest) == rest
  {
    if rest.Ok? {
      assert [] + rest.value == rest.value;
    }
  }
}
