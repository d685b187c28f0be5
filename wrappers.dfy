/** Failure-carrying datatypes shared by every module of the model. */
module Wrappers {

  datatype Option<+T> = None | Some(value: T) {
    function GetOr(default: T): T {
      match this
      case Some(v) => v
      case None => default
    }
  }

  datatype Result<+T, +E> = Ok(value: T) | Err(error: E)

  /** How an endpoint fails: a client error about the request (400), something
      missing (404), or anything else raised underneath, such as a store or type
      error (500). */
  datatype Error =
    | InvalidInput(reason: string)
    | NotFound(reason: string)
    | StoreFailure(reason: string)
}
