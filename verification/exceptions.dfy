/** Values that JavaScript code throws, or that a rejected promise carries. */
module Exceptions {
  import opened Wrappers

  /**
   * An `Error` instance carries a message (always a string, possibly empty)
   * and, when an HTTP library created it, a `status` and/or `statusCode`
   * property (None stands for an absent, undefined property). Any other
   * thrown value is modelled by its `String(value)` rendering and by the
   * `message`, `status` and `statusCode` properties it may carry; a thrown
   * primitive carries none of them.
   */
  datatype Thrown =
    | ErrorInstance(message: string, status: Option<int>, statusCode: Option<int>)
    | NonError(display: string, messageProperty: Option<string>, status: Option<int>, statusCode: Option<int>)

  /** `value.message`, for either kind of thrown value. */
  function MessageOf(t: Thrown): (m: Option<string>)
    ensures t.ErrorInstance? ==> m == Some(t.message)
    ensures t.NonError? ==> m == t.messageProperty
  {
    match t
    case ErrorInstance(message, _, _) => Some(message)
    case NonError(_, property, _, _) => property
  }

  /** `new Error(message)`. */
  function Error(message: string): Thrown {
    ErrorInstance(message, None, None)
  }
}
