/** Optional values, outcomes and the exceptions the Joystick client raises. */
module Results {

  datatype Option<+T> = None | Some(value: T)
  {
    function GetOr(default: T): T
    {
      match this
      case Some(v) => v
      case None => default
    }
  }

  /** One constructor per exception class the core throws. */
  datatype Error =
      /** \InvalidArgumentException thrown by a ClientConfig setter. */
    | InvalidArgument(message: string)
      /**
       * Assert\LazyAssertionException: one entry per failed chain, in order:
       * the chain's property path, or, for a chain without one, the key its
       * failed keyIsset asked for.
       */
    | LazyAssertion(violations: seq<string>)
      /** Exceptions\NotJsonEncodable. */
    | NotJsonEncodable(message: string)
      /** Exceptions\Api\Http\BadRequest (status 400 to 499). */
    | BadRequest(message: string)
      /** Exceptions\Api\Http\ServerError (status 500 and above). */
    | ServerError(message: string)
      /** Exceptions\Api\Http\UnknownError (any other status but 200). */
    | UnknownError(message: string)
      /** Exceptions\Api\Exception: a 200 reply whose body is not JSON. */
    | ApiException(message: string)
      /** Exceptions\Api\MultipleContentApi: some content ids failed server-side. */
    | MultipleContentApi(message: string)
      /** A PHP assert() that does not hold (assertions enabled). */
    | AssertionFailure(message: string)

  /** The value a PHP call returns, or the exception it throws. */
  datatype Outcome<+T> = Ok(value: T) | Fail(error: Error)
}
