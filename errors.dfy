/** The error values the backend throws (`src/utils/AppError.js`) and the global
    error-handling middleware that turns any of them into an HTTP response
    (`src/middleware/errorHandler.js`). */
module Errors {
  import opened Wrappers

  /** A thrown JavaScript error, reduced to the fields the backend reads:
      its `name`, its `message`, the `statusCode` it may carry and whether it is
      an expected (operational) error. */
  datatype Error = Error(name: string, message: string, statusCode: Option<int>, isOperational: bool)

  /** `new AppError(message, statusCode)`: an `Error` subclass that leaves `name` as
      "Error" and always marks itself operational. */
  function AppError(message: string, statusCode: int): (e: Error)
    ensures e.isOperational
    ensures e.statusCode == Some(statusCode) && e.message == message
  {
    Error("Error", message, Some(statusCode), true)
  }

  const INTERNAL_MESSAGE: string := "Internal Server Error"

  /** The JSON body `{ success, message }` of an error response. */
  datatype Body = Body(success: bool, message: string)

  datatype Response = Response(status: int, body: Body)

  /** `errorHandler`: the status is `err.statusCode || 500` (a missing or zero code
      falls back to 500); the message is the error's own only when it is operational. */
  function ErrorHandler(err: Error): (r: Response)
    ensures r.status != 0
    ensures !r.body.success
    ensures r.body.message == err.message || r.body.message == INTERNAL_MESSAGE
    ensures !err.isOperational ==> r.body.message == INTERNAL_MESSAGE
    ensures err.isOperational ==> r.body.message == err.message
    ensures err.statusCode.Some? && err.statusCode.value != 0 ==> r.status == err.statusCode.value
    ensures err.statusCode.None? || err.statusCode == Some(0) ==> r.status == 500
  {
    var status := if err.statusCode.Some? && err.statusCode.value != 0 then err.statusCode.value else 500;
    var message := if err.isOperational then err.message else INTERNAL_MESSAGE;
    Response(status, Body(false, message))
  }

  /** Every AppError with a real status code reaches the client exactly as thrown. */
  lemma AppErrorPassesThrough(message: string, statusCode: int)
    requires statusCode != 0
    ensures ErrorHandler(AppError(message, statusCode)) == Response(statusCode, Body(false, message))
  {
  }

  /** An error that carries no status code (a crash, a database failure) is a 500 whose
      message reveals nothing. */
  lemma UnexpectedErrorIsOpaque(err: Error)
    requires err.statusCode.None? && !err.isOperational
    ensures ErrorHandler(err) == Response(500, Body(false, INTERNAL_MESSAGE))
  {
  }
}
