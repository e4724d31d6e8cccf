/** The values that cross the boundary of the cloud functions: arguments of a callable
    request, replies of the completion service, results of `JSON.parse`, and the typed
    errors (`HttpsError`) a callable function throws back to its client. */
module Outcomes {

  datatype Option<T> = None | Some(value: T)

  /** A property of caller-supplied or parsed data, as JavaScript sees it: absent
      (`undefined` or `null`), a string, or a value of another type together with its
      truthiness. */
  datatype Field = Missing | Str(value: string) | Other(truthy: bool)
  {
    /** JavaScript truthiness: `!field` is false. */
    predicate Truthy()
    {
      match this
      case Missing => false
      case Str(s) => s != ""
      case Other(t) => t
    }
  }

  /** One call to the completion service: the reply it produced, or the error it threw,
      with that error's `message`. */
  datatype Call<T> = Answered(body: T) | Failed(message: string)

  /** The outcome of `JSON.parse` on a reply: the parsed value, or a `SyntaxError`. */
  datatype Parse<T> = Parsed(value: T) | Malformed

  /** The error codes of `functions.https.HttpsError` that this code uses. */
  datatype ErrorCode = Unauthenticated | InvalidArgument | Internal

  datatype HttpsError = HttpsError(code: ErrorCode, message: string)

  /** What a callable function gives its client: a response object, or a thrown error. */
  datatype Result<T> = Ok(value: T) | Err(error: HttpsError)

  /** The message every callable function here uses for a missing caller identity. */
  const LoginRequired: string := "로그인이 필요합니다."
}
