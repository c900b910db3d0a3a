/**
 * The response envelope of the controllers
 * (backend/src/controllers/base.controller.ts). Writing to the response is
 * replaced by returning the status and the JSON envelope.
 */
module BaseController {
  import Wrappers

  /** The JSON envelope: `{success, data, message, error}`; None stands for undefined. */
  datatype Envelope<T> = Envelope(
    success: bool,
    data: Wrappers.Option<T>,
    message: Wrappers.Option<string>,
    error: Wrappers.Option<string>)

  /** What the controller hands to the response: a status code and the envelope. */
  datatype Reply<T> = Reply(status: int, body: Envelope<T>)

  /** JavaScript truthiness of an optional string: defined and not empty. */
  predicate Truthy(s: Wrappers.Option<string>) {
    s.Some? && s.value != ""
  }

  /** `sendResponse`: the status is used as given; `success` is the negation of the error's truthiness. */
  function SendResponse<T>(status: int, data: Wrappers.Option<T>, message: Wrappers.Option<string>,
                           error: Wrappers.Option<string>): (r: Reply<T>)
    ensures r.status == status
    ensures r.body.data == data && r.body.message == message && r.body.error == error
    ensures r.body.success <==> error == Wrappers.None || error == Wrappers.Some("")
  {
    Reply(status, Envelope(!Truthy(error), data, message, error))
  }

  /** `BaseController.success`: status 200 unless given, the data, and no error. */
  function Success<T>(data: T, message: Wrappers.Option<string> := Wrappers.None, status: int := 200): (r: Reply<T>)
    ensures r.status == status && r.body.success
    ensures r.body.data == Wrappers.Some(data) && r.body.message == message && r.body.error == Wrappers.None
  {
    SendResponse(status, Wrappers.Some(data), message, Wrappers.None)
  }

  /** `BaseController.error`: status 400 unless given, the error, and neither data nor message. */
  function Error<T>(error: string, status: int := 400): (r: Reply<T>)
    ensures r.status == status
    ensures r.body.data == Wrappers.None && r.body.message == Wrappers.None && r.body.error == Wrappers.Some(error)
    ensures r.body.success <==> error == ""
  {
    SendResponse(status, Wrappers.None, Wrappers.None, Wrappers.Some(error))
  }

  /** The defaults: 200 for success, 400 for an error; and an empty error message still reads as success. */
  lemma DefaultStatuses<T>(data: T, error: string)
    ensures Success(data).status == 200 && Success(data).body.success
    ensures Error<T>(error).status == 400
    ensures Error<T>("").body.success
  {
  }
}
