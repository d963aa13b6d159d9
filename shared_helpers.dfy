/**
 * The helpers shared by client and server: the mapping of a failed request to the error shown
 * in the UI, the shape of a validation error, and a short random string built from chunks
 * that `Math.random().toString(36).substring(9)` supplies (an input here).
 */
module SharedHelpers {
  import opened Common
  import opened SharedTypes

  /** `flatten().fieldErrors`: the messages per field. */
  type FieldErrors = map<string, seq<string>>

  /** The JSON body of a failed response: an optional code and message, and any field errors. */
  datatype ErrorBody = ErrorBody(code: Option<string>, message: Option<string>, errors: FieldErrors)

  /** `RequestHelperError`: the status and body of a failed request. */
  datatype RequestHelperError = RequestHelperError(status: int, body: ErrorBody)

  /**
   * What the client's `request(...)` resolved with: `[null, data]` for an ok response, or
   * `[error, null]`. What the server answered is an input of every model that requests.
   */
  datatype RequestOutcome<T> = Succeeded(value: T) | Failed(error: RequestHelperError)

  /**
   * What `handleRequestError` returns: a validation error body, passed through as received,
   * or a `RequestError` that wraps the body.
   */
  datatype UiError =
    | ValidationError(received: ErrorBody)
    | RequestError(code: string, message: string, body: ErrorBody)
  {
    function Code(): string {
      if ValidationError? then OrDefault(received.code, "") else code
    }
  }

  function OrDefault(o: Option<string>, default: string): string {
    if o.Some? then o.value else default
  }

  const ValidationMessage := "Please check correctness of fields"
  const UnknownErrorMessage := "Unknown error"

  /** `handleValidationError`: the body the server sends for input that fails a schema. */
  function HandleValidationError(errors: FieldErrors): (b: ErrorBody)
    ensures b.code == Some(ValidationErrorCode) && b.message == Some(ValidationMessage)
    ensures b.errors == errors
  {
    ErrorBody(Some(ValidationErrorCode), Some(ValidationMessage), errors)
  }

  /**
   * `handleRequestError`: a 400 whose body has the validation code is passed through
   * unchanged; anything else becomes `SERVER_ERROR` for a 500 and `UNKNOWN_ERROR` for every
   * other status, with the body's message or "Unknown error", and the body attached.
   */
  function HandleRequestError(error: RequestHelperError): (r: UiError)
    ensures r.ValidationError? <==> error.status == 400 && error.body.code == Some(ValidationErrorCode)
    ensures r.ValidationError? ==> r.received == error.body
    ensures r.RequestError? ==> (r.code == ServerErrorCode <==> error.status == 500)
    ensures r.RequestError? ==> r.code in {ServerErrorCode, UnknownErrorCode}
    ensures r.RequestError? ==> r.body == error.body
    ensures r.RequestError? ==> r.message == if Truthy(error.body.message) then error.body.message.value else UnknownErrorMessage
  {
    if error.status == 400 && error.body.code == Some(ValidationErrorCode) then ValidationError(error.body)
    else
      RequestError(if error.status == 500 then ServerErrorCode else UnknownErrorCode,
                   if Truthy(error.body.message) then error.body.message.value else UnknownErrorMessage,
                   error.body)
  }

  /**
   * A server's validation error reaches the UI as it was sent: the client hands back the same
   * code, message and field errors.
   */
  lemma ValidationErrorRoundTrip(errors: FieldErrors)
    ensures HandleRequestError(RequestHelperError(400, HandleValidationError(errors))) == ValidationError(HandleValidationError(errors))
    ensures HandleRequestError(RequestHelperError(400, HandleValidationError(errors))).Code() == ValidationErrorCode
  {
  }

  /** The UI never sees a code outside the three it knows, and a 400 that is no validation error is unknown. */
  lemma HandledCodes(error: RequestHelperError)
    ensures HandleRequestError(error).Code() in {ValidationErrorCode, ServerErrorCode, UnknownErrorCode}
    ensures error.status == 400 && error.body.code != Some(ValidationErrorCode) ==>
              HandleRequestError(error).Code() == UnknownErrorCode
    ensures HandleRequestError(error).RequestError? ==> HandleRequestError(error).message != ""
  {
  }

  /** The chunks joined in order. */
  function Concat(chunks: seq<string>): string
    decreases |chunks|
  {
    if chunks == [] then "" else Concat(chunks[..|chunks| - 1]) + chunks[|chunks| - 1]
  }

  lemma {:induction false} ConcatAppend(a: seq<string>, b: seq<string>)
    ensures Concat(a + b) == Concat(a) + Concat(b)
    decreases |b|
  {
    if b == [] {
      assert a + b == a;
    } else {
      assert (a + b)[..|a + b| - 1] == a + b[..|b| - 1];
      ConcatAppend(a, b[..|b| - 1]);
    }
  }

  /** The default `length` of `getRandomStringSimple`. */
  const DefaultRandomStringLength := 5

  /**
   * `getRandomStringSimple(length)`: chunks are appended until there are at least `length`
   * characters, and the first `length` are returned. `chunks` is the sequence the random
   * source yields; together they must reach `length` characters, or the loop would not end.
   * A call without an argument uses `DefaultRandomStringLength`.
   */
  method GetRandomStringSimple(length: nat, chunks: seq<string>) returns (s: string)
    requires |Concat(chunks)| >= length
    ensures |s| == length
    ensures s == Concat(chunks)[..length]
  {
    var result := "";
    var i := 0;
    while |result| < length
      invariant 0 <= i <= |chunks|
      invariant result == Concat(chunks[..i])
      decreases |chunks| - i
    {
      ConcatAppend(chunks[..i], chunks[i..]);
      assert chunks[..i] + chunks[i..] == chunks;
      assert i < |chunks|;
      assert chunks[..i + 1][..i] == chunks[..i];
      result := result + chunks[i];
      i := i + 1;
    }
    ConcatAppend(chunks[..i], chunks[i..]);
    assert chunks[..i] + chunks[i..] == chunks;
    s := result[..length];
  }
}
