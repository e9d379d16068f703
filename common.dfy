/** Values shared by every part of the model: optional values, the failures the
    client raises (one constructor per distinct exception the C# code throws),
    and results that either carry a value or such a failure. */
module Common {

  /** A value that may be absent, standing for C#'s `null`. */
  datatype Option<+T> = None | Some(value: T)

  /** The exceptions of the client, by cause. */
  datatype Failure =
    | NotAuthenticated          // InvalidOperationException from EnsureLoggedIn
    | MonthOutOfRange           // ArgumentOutOfRangeException from ValidateMonth
    | NullArgument(name: string) // ArgumentNullException
    | NetworkFailure            // HttpRequestException raised by the transport itself
    | HttpStatus(status: int)   // HttpRequestException from EnsureSuccessStatusCode
    | EmptyAuthResponse         // "Empty auth response"
    | NullContent               // "Unexpected null content"
    | ItemNotFound(itemId: string) // "not found in either 2004 or 2207 API"
    | NullCalendarItem          // "Unexpected null calendar item content."
    | MalformedBody             // a JSON body of another shape than the target type
    | NotAString                // JsonElement.GetString on a value that is no string
    | BadFormat                 // FormatException from DateTime.Parse / TimeSpan.Parse

  /** The result of an operation that may throw. */
  datatype Result<+T> = Ok(value: T) | Err(error: Failure)

  /** The result of an operation that returns nothing but may throw. */
  datatype Outcome = Pass | Fail(error: Failure)
}
