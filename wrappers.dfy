/** Optional values and success/failure results, the two ways the reporting
    engine signals "no value": a parser that returns `None`, and a public
    operation that returns `{'success': False, 'message': ...}`. */
module Wrappers {

  datatype Option<+T> = None | Some(value: T)

  /** The result dictionary every public operation returns: either a payload
      (`success: True, data: ...`) or a failure message (`success: False`). */
  datatype Result<+T> = Success(value: T) | Failure(message: string)
}
