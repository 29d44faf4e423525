/**
 * The two error kinds the QuickSight registry raises. Each carries the
 * service's error code and a human-readable message; the message text is
 * part of the observable contract.
 */
module Exceptions {

  datatype Error =
    | ResourceNotFound(message: string)
    | InvalidParameterValue(message: string)
  {
    /** The wire-level error code: one distinct code per error kind. */
    function Code(): (r: string)
      ensures r == "ResourceNotFoundException" <==> ResourceNotFound?
      ensures r == "InvalidParameterValueException" <==> InvalidParameterValue?
    {
      match this
      case ResourceNotFound(_) => "ResourceNotFoundException"
      case InvalidParameterValue(_) => "InvalidParameterValueException"
    }
  }

  /** The outcome of an operation that may raise one of the errors above. */
  datatype Result<+T> = Ok(value: T) | Err(error: Error)
}
