/** cmd/api/errors.go: the error taxonomy, each kind's status and message, the
    `{"error": …}` envelope, and the bare-500 fallback when writing it fails. */
module Errors {
  import opened Common
  import opened Http
  import opened Helpers

  const ServerErrorMessage := "the server encountered a problem and could not process your request"
  const NotFoundMessage := "the requested resource could not be found"

  function MethodNotAllowedMessage(verb: string): string
  {
    "the " + verb + " method is not supported for this resource"
  }

  /** The five failures the responder turns into a reply. */
  datatype Problem =
    | ServerError(err: Error)
    | NotFound
    | MethodNotAllowed
    | BadRequest(err: Error)
    | FailedValidation(errors: map<string, string>)

  function StatusOf(p: Problem): int
  {
    match p
    case ServerError(_) => 500
    case NotFound => 404
    case MethodNotAllowed => 405
    case BadRequest(_) => 400
    case FailedValidation(_) => 422
  }

  /** The payload under "error": fixed texts for 500 and 404, the request's
      method for 405, the error's own text for 400, the whole map for 422. */
  function MessageOf(p: Problem, r: Request): Value
  {
    match p
    case ServerError(_) => Message(ServerErrorMessage)
    case NotFound => Message(NotFoundMessage)
    case MethodNotAllowed => Message(MethodNotAllowedMessage(r.verb))
    case BadRequest(e) => Message(e.text)
    case FailedValidation(errors) => FieldErrors(errors)
  }

  /** `Envelope{"error": message}`: one key, "error", holding the message. */
  function ErrorEnvelope(message: Value): (env: Envelope)
    ensures env.Keys == {"error"} && env["error"] == message
  {
    map["error" := message]
  }

  /** What one request's handling has produced so far: the response writer's
      state and the application log. */
  datatype Exchange = Exchange(writer: Writer, log: seq<LogEntry>)

  /** logError: one record with the error text, the method and the URI. */
  function LogErrorSpec(log: seq<LogEntry>, r: Request, err: Error): seq<LogEntry>
  {
    log + [LogEntry(err.text, r.verb, r.uri)]
  }

  /** errorResponse: write the error envelope; if writeJSON fails, log that
      failure and write a bare 500. */
  function ErrorResponseSpec(x: Exchange, marshal: Marshaller, r: Request, status: int, message: Value): Exchange
    requires ValidStatus(status)
  {
    var o := WriteJsonSpec(x.writer, status, ErrorEnvelope(message), map[], marshal);
    if o.err.Some? then Exchange(StatusWritten(o.writer, 500), LogErrorSpec(x.log, r, o.err.value))
    else Exchange(o.writer, x.log)
  }

  /** The effect of the responder for each kind of failure; a server error is
      logged before the reply is written. */
  function RespondSpec(x: Exchange, marshal: Marshaller, r: Request, p: Problem): Exchange
  {
    var x' := if p.ServerError? then x.(log := LogErrorSpec(x.log, r, p.err)) else x;
    ErrorResponseSpec(x', marshal, r, StatusOf(p), MessageOf(p, r))
  }

  /** The taxonomy: 4xx exactly for client input problems, 500 for the server's
      own, and no two kinds share a status, so a client can branch on the
      status alone. */
  lemma StatusTaxonomy(p: Problem, q: Problem)
    ensures 400 <= StatusOf(p) < 500 <==> !p.ServerError?
    ensures StatusOf(p) == 500 <==> p.ServerError?
    ensures StatusOf(p) == StatusOf(q) ==>
      && p.ServerError? == q.ServerError? && p.NotFound? == q.NotFound?
      && p.MethodNotAllowed? == q.MethodNotAllowed? && p.BadRequest? == q.BadRequest?
      && p.FailedValidation? == q.FailedValidation?
  {
  }

  /** 405 names the rejected method, 400 carries exactly the error's text, and
      422 carries the validator's map unchanged. */
  lemma MessagesCarryTheirCause(r: Request, e: Error, errors: map<string, string>)
    ensures var m := MessageOf(MethodNotAllowed, r).text;
      |m| >= 4 + |r.verb| && m[4..4 + |r.verb|] == r.verb
    ensures MessageOf(BadRequest(e), r) == Message(e.text)
    ensures MessageOf(FailedValidation(errors), r) == FieldErrors(errors)
  {
  }

  /** A 500 reply never depends on the error that caused it: its text goes to
      the log only, never into the response. */
  lemma ServerErrorHidesCause(x: Exchange, marshal: Marshaller, r: Request, e1: Error, e2: Error)
    ensures RespondSpec(x, marshal, r, ServerError(e1)).writer == RespondSpec(x, marshal, r, ServerError(e2)).writer
  {
  }

  /** The log grows by the cause of a server error (first), then by the
      writeJSON error if the envelope could not be written, and by nothing
      else: no failure goes unreported. */
  lemma RespondLog(x: Exchange, marshal: Marshaller, r: Request, p: Problem)
    ensures var env := ErrorEnvelope(MessageOf(p, r));
      var cause := if p.ServerError? then [LogEntry(p.err.text, r.verb, r.uri)] else [];
      var fallback := if marshal(env).Failure? then [LogEntry(marshal(env).error.text, r.verb, r.uri)] else [];
      RespondSpec(x, marshal, r, p).log == x.log + cause + fallback
  {
  }

  /** On a response nothing has been written to yet: when the envelope can be
      marshalled the reply is the kind's status with the JSON envelope and
      the JSON content type; when it cannot, the reply is a bare 500 with no
      headers and an empty body. */
  lemma RespondOnFreshWriter(log: seq<LogEntry>, marshal: Marshaller, r: Request, p: Problem)
    ensures var env := ErrorEnvelope(MessageOf(p, r));
      var w := RespondSpec(Exchange(Fresh, log), marshal, r, p).writer;
      && (marshal(env).Success? ==>
            && w.status == Some(StatusOf(p))
            && w.wireHeader == map[ContentType := [JsonMediaType]]
            && w.body == marshal(env).value + [Newline])
      && (marshal(env).Failure? ==> w == Writer(map[], Some(500), map[], []))
  {
    var env := ErrorEnvelope(MessageOf(p, r));
    if marshal(env).Success? {
      assert (map[] + map[])[ContentType := [JsonMediaType]] == map[ContentType := [JsonMediaType]];
    }
  }

  // ---------------------------------------------------------------------
  // The responder's methods, on the live writer and logger
  // ---------------------------------------------------------------------

  method LogError(logger: Logger, r: Request, err: Error)
    modifies logger
    ensures logger.entries == LogErrorSpec(old(logger.entries), r, err)
  {
    logger.Error(err.text, r.verb, r.uri);
  }

  method ErrorResponse(w: ResponseWriter, logger: Logger, marshal: Marshaller, r: Request, status: int, message: Value)
    requires ValidStatus(status)
    modifies w, logger
    ensures Exchange(w.State(), logger.entries)
         == ErrorResponseSpec(Exchange(old(w.State()), old(logger.entries)), marshal, r, status, message)
  {
    var env := ErrorEnvelope(message);
    var err := WriteJson(w, status, env, map[], marshal);
    if err.Some? {
      LogError(logger, r, err.value);
      w.WriteHeader(500);
    }
  }

  method ServerErrorResponse(w: ResponseWriter, logger: Logger, marshal: Marshaller, r: Request, err: Error)
    modifies w, logger
    ensures Exchange(w.State(), logger.entries)
         == RespondSpec(Exchange(old(w.State()), old(logger.entries)), marshal, r, ServerError(err))
  {
    LogError(logger, r, err);
    ErrorResponse(w, logger, marshal, r, 500, Message(ServerErrorMessage));
  }

  method NotFoundResponse(w: ResponseWriter, logger: Logger, marshal: Marshaller, r: Request)
    modifies w, logger
    ensures Exchange(w.State(), logger.entries)
         == RespondSpec(Exchange(old(w.State()), old(logger.entries)), marshal, r, NotFound)
  {
    ErrorResponse(w, logger, marshal, r, 404, Message(NotFoundMessage));
  }

  method MethodNotAllowedResponse(w: ResponseWriter, logger: Logger, marshal: Marshaller, r: Request)
    modifies w, logger
    ensures Exchange(w.State(), logger.entries)
         == RespondSpec(Exchange(old(w.State()), old(logger.entries)), marshal, r, MethodNotAllowed)
  {
    ErrorResponse(w, logger, marshal, r, 405, Message(MethodNotAllowedMessage(r.verb)));
  }

  method BadRequestResponse(w: ResponseWriter, logger: Logger, marshal: Marshaller, r: Request, err: Error)
    modifies w, logger
    ensures Exchange(w.State(), logger.entries)
         == RespondSpec(Exchange(old(w.State()), old(logger.entries)), marshal, r, BadRequest(err))
  {
    ErrorResponse(w, logger, marshal, r, 400, Message(err.text));
  }

  method FailedValidationResponse(w: ResponseWriter, logger: Logger, marshal: Marshaller, r: Request,
                                  errors: map<string, string>)
    modifies w, logger
    ensures Exchange(w.State(), logger.entries)
         == RespondSpec(Exchange(old(w.State()), old(logger.entries)), marshal, r, FailedValidation(errors))
  {
    ErrorResponse(w, logger, marshal, r, 422, FieldErrors(errors));
  }
}
