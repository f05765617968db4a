/** The generation endpoint as seen by the chat client: one blocking POST
    whose result is an abstract transport outcome, followed by the status
    check and the extraction of the `response` field of the JSON body.
 */
module Backend {

  /** The JSON payload of one request: target model, full prompt, and the
      flag that asks for a single, non-streamed answer. */
  datatype Request = Request(model: string, prompt: string, stream: bool)

  /** What the body of an HTTP answer turned out to contain. */
  datatype Body =
    | NotJson                 // the body does not decode as JSON
    | NotObject               // decodes to a list, string, number or null
    | NoResponseField         // decodes, but has no `response` entry
    | ResponseNotText         // `response` is present but is not a string
    | ResponseText(text: string)

  /** The outcome of the POST itself, as produced by the HTTP library. */
  datatype Transport =
    | Refused                 // nothing listens on the endpoint
    | ConnectTimedOut         // the connection could not be set up in time
    | ReadTimedOut            // connected, but no answer within the timeout
    | Answered(status: int, body: Body)

  /** The exceptions the request can raise, named after the Python classes. */
  datatype Raised =
    | ConnectionError
    | ConnectTimeout          // a subclass of ConnectionError in the HTTP library
    | ReadTimeout
    | HttpError(status: int)
    | JsonDecodeError
    | TypeError               // subscripting a decoded value that is not an object
    | KeyError
    | AttributeError

  datatype Result<T> = Success(value: T) | Failure(error: Raised)

  datatype Option<T> = None | Some(value: T)

  /** The HTTP library's status check raises for client (4xx) and server
      (5xx) errors only. */
  predicate IsErrorStatus(status: int) {
    400 <= status < 600
  }

  /** Whether `except ConnectionError` catches this failure. */
  predicate IsConnectionError(f: Raised) {
    f.ConnectionError? || f.ConnectTimeout?
  }

  /** The raw (unstripped) reply text, or the exception raised on the way:
      post, status check, JSON decoding, field lookup, then the call of
      `strip`, which fails on a non-string field. */
  function Deliver(t: Transport): (r: Result<string>)
    ensures r.Success? <==> t.Answered? && !IsErrorStatus(t.status) && t.body.ResponseText?
    ensures r.Success? ==> r.value == t.body.text
    ensures r.Failure? && IsConnectionError(r.error) <==> t.Refused? || t.ConnectTimedOut?
    ensures t.Answered? && IsErrorStatus(t.status) ==> r == Failure(HttpError(t.status))
  {
    match t
    case Refused => Failure(ConnectionError)
    case ConnectTimedOut => Failure(ConnectTimeout)
    case ReadTimedOut => Failure(ReadTimeout)
    case Answered(status, body) =>
      if IsErrorStatus(status) then Failure(HttpError(status))
      else
        match body
        case NotJson => Failure(JsonDecodeError)
        case NotObject => Failure(TypeError)
        case NoResponseField => Failure(KeyError)
        case ResponseNotText => Failure(AttributeError)
        case ResponseText(text) => Success(text)
  }
}
