/**
 * The error-handling middleware and the fallback for unknown routes. A
 * ValidationError answers with its status, message and details; any other
 * operational ApiError answers with its status and message; anything else
 * answers 500 with a fixed message that reveals nothing about the error.
 */
module ErrorHandler {
  import opened Wrappers
  import Errors
  import ValidationMiddleware
  import Schema

  /** What reaches the handler: an ApiError of the taxonomy, or any other thrown value. */
  datatype Thrown = Api(error: Errors.ApiError) | Unexpected(description: string)

  /**
   * The status and JSON body sent. `details` is present only for a
   * ValidationError whose details are defined.
   */
  datatype Response = Response(status: int, success: bool, message: string, details: Option<seq<Errors.Detail>>)

  const InternalErrorMessage := "An internal error occurred. Please try again later."

  const NotFoundPrefix := "Not found - "

  /**
   * The checks run in order: ValidationError first, then operational ApiError,
   * then the rest. Every ApiError is operational, so the generic 500 answer is
   * reached only by errors that are not ApiErrors; the second ensures states
   * that each ApiError keeps its own status and message.
   */
  function Handle(t: Thrown): (r: Response)
    ensures !r.success
    ensures t.Api? ==> r.status == Errors.StatusCode(t.error) && r.message == Errors.Message(t.error)
    ensures t.Unexpected? ==> r.status == 500 && r.message == InternalErrorMessage
    ensures r.details.Some? <==> t.Api? && t.error.ValidationError? && t.error.details.Some?
    ensures r.details.Some? ==> r.details == t.error.details
  {
    match t
    case Api(e) =>
      if e.ValidationError? then
        Response(Errors.StatusCode(e), false, Errors.Message(e), e.details)
      else if Errors.IsOperational(e) then
        Response(Errors.StatusCode(e), false, Errors.Message(e), None)
      else
        Response(500, false, InternalErrorMessage, None)
    case Unexpected(_) =>
      Response(500, false, InternalErrorMessage, None)
  }

  /** Unexpected errors all get the same response, so nothing about them leaks. */
  lemma UnexpectedErrorsLookAlike(a: string, b: string)
    ensures Handle(Unexpected(a)) == Handle(Unexpected(b))
    ensures Handle(Unexpected(a)).status == 500
  {
  }

  /** The error `notFound` passes on for a request to `url`. */
  function NotFound(url: string): (e: Errors.ApiError)
    ensures Errors.StatusCode(e) == 404
    ensures var m := Errors.Message(e);
      |NotFoundPrefix| <= |m| && m[..|NotFoundPrefix|] == NotFoundPrefix && m[|NotFoundPrefix|..] == url
  {
    Errors.Plain(NotFoundPrefix + url, 404)
  }

  /** The unknown-route response is a 404 from which the requested URL can be read back. */
  lemma NotFoundNamesUrl(url: string)
    ensures var r := Handle(Api(NotFound(url)));
      && r.status == 404 && r.details.None?
      && |NotFoundPrefix| <= |r.message| && r.message[|NotFoundPrefix|..] == url
  {
  }

  /**
   * A request a validation middleware rejects is answered with 400, a
   * message that names the request part, and exactly one detail.
   */
  lemma RejectedRequestResponse(part: ValidationMiddleware.Part, schema: seq<Schema.Field>, input: Schema.Input,
                                builtIn: Schema.Violation -> string)
    requires !Schema.Accepts(schema, input)
    ensures var r := Handle(Api(ValidationMiddleware.Check(part, schema, input, builtIn).error));
      && r.status == 400
      && ValidationMiddleware.PartOf(r.message) == Some(part)
      && r.details.Some? && |r.details.value| == 1
  {
  }
}
