/** cmd/api/movies.go: the create and show handlers, as the sequence of
    responder calls each makes for every outcome of its collaborators. */
module Handlers {
  import opened Common
  import opened Data
  import opened Http
  import opened Helpers
  import opened Errors

  /** The anonymous `input` struct createMovieHandler decodes the body into;
      `genres` is None when the body leaves the slice nil. */
  datatype MovieInput = MovieInput(title: string, year: Int32, runtime: Runtime, genres: Option<seq<string>>)

  /** What readJSON produced: the decoded input, or the error it reports. */
  type Decoded = Result<MovieInput, Error>

  /** data.ValidateMovie: given the errors a validator already holds and a
      movie, the errors it holds afterwards. Its checks are not modelled. */
  type Validation = (map<string, string>, Movie) -> map<string, string>

  /** The bytes of `fmt.Fprintf(w, "%+v\n", input)`; the text is not modelled. */
  type Dump = MovieInput -> seq<byte>

  /** The validator of one request: a field-to-message map. */
  class Validator {
    var errors: map<string, string>

    /** validator.New() */
    constructor ()
      ensures errors == map[]
    {
      errors := map[];
    }

    /** v.Valid(): no error recorded. */
    predicate Valid()
      reads this
    {
      |errors| == 0
    }

    /** data.ValidateMovie(v, movie) */
    method ValidateMovie(validate: Validation, movie: Movie)
      modifies this
      ensures errors == validate(old(errors), movie)
    {
      errors := validate(errors, movie);
    }
  }

  /** The client-supplied fields of a movie. */
  function ClientInput(m: Movie): MovieInput
  {
    MovieInput(m.title, m.year, m.runtime, m.genres)
  }

  /** The movie built for validation: every input field copied, the
      server-assigned id, creation time and version left at zero. */
  function NewMovie(input: MovieInput): (m: Movie)
    ensures ClientInput(m) == input
    ensures m.id == 0 && m.createdAt == 0 && m.version == 0
  {
    Movie(0, 0, input.title, input.year, input.runtime, input.genres, 0)
  }

  /** createMovieHandler: a decode failure is a 400; otherwise the new movie
      is validated on a fresh validator, errors are a 422, and a valid input
      is dumped as plain text. */
  function CreateSpec(x: Exchange, marshal: Marshaller, r: Request, decoded: Decoded,
                      validate: Validation, dump: Dump): Exchange
  {
    match decoded
    case Failure(e) => RespondSpec(x, marshal, r, BadRequest(e))
    case Success(input) =>
      var errors := validate(map[], NewMovie(input));
      if |errors| != 0 then RespondSpec(x, marshal, r, FailedValidation(errors))
      else x.(writer := BodyWritten(x.writer, dump(input)))
  }

  /** The movie showMovieHandler serves for an id. */
  function Fixture(id: Int64, now: int): (m: Movie)
    ensures m.id == id && m.version == 1 && m.createdAt == now
    ensures m.title == "Casablanca" && m.year == 0 && m.runtime == Runtime(102)
    ensures m.genres == Some(["drama", "romance", "war"])
  {
    Movie(id, now, "Casablanca", 0, Runtime(102), Some(["drama", "romance", "war"]), 1)
  }

  /** `Envelope{"movie": movie}`: the encoder sees the movie only through the
      object its struct tags make of it. */
  function MovieEnvelope(m: Movie): (env: Envelope)
    ensures env.Keys == {"movie"} && env["movie"] == MovieValue(Fields(m))
  {
    map["movie" := MovieValue(Fields(m))]
  }

  /** showMovieHandler: an unusable id is a 404; otherwise the fixture movie
      is written with 200, and a writeJSON failure becomes a server error. */
  function ShowSpec(x: Exchange, marshal: Marshaller, r: Request, now: int): Exchange
  {
    var p := ReadIdParam(r);
    if p.err.Some? then RespondSpec(x, marshal, r, NotFound)
    else
      var o := WriteJsonSpec(x.writer, 200, MovieEnvelope(Fixture(p.id, now)), map[], marshal);
      if o.err.Some? then RespondSpec(x.(writer := o.writer), marshal, r, ServerError(o.err.value))
      else x.(writer := o.writer)
  }

  // ---------------------------------------------------------------------
  // Properties of the two flows
  // ---------------------------------------------------------------------

  /** A body that does not decode gets the 400 reply and nothing else:
      neither the validator nor the success write is consulted. */
  lemma CreateDecodeFailure(x: Exchange, marshal: Marshaller, r: Request, e: Error,
                            validate: Validation, validate': Validation, dump: Dump, dump': Dump)
    ensures CreateSpec(x, marshal, r, Failure(e), validate, dump) == RespondSpec(x, marshal, r, BadRequest(e))
    ensures CreateSpec(x, marshal, r, Failure(e), validate, dump) == CreateSpec(x, marshal, r, Failure(e), validate', dump')
  {
  }

  /** Input that fails validation gets the 422 reply carrying exactly the
      validator's errors, and the success write is skipped. */
  lemma CreateValidationFailure(x: Exchange, marshal: Marshaller, r: Request, input: MovieInput,
                                validate: Validation, dump: Dump, dump': Dump)
    requires |validate(map[], NewMovie(input))| != 0
    ensures CreateSpec(x, marshal, r, Success(input), validate, dump)
         == RespondSpec(x, marshal, r, FailedValidation(validate(map[], NewMovie(input))))
    ensures CreateSpec(x, marshal, r, Success(input), validate, dump)
         == CreateSpec(x, marshal, r, Success(input), validate, dump')
  {
  }

  /** Valid input on a fresh response: an implicit 200 and the plain-text dump
      of the input as the whole body, with no JSON content type and no log. */
  lemma CreateSuccess(log: seq<LogEntry>, marshal: Marshaller, r: Request, input: MovieInput,
                      validate: Validation, dump: Dump)
    requires |validate(map[], NewMovie(input))| == 0
    ensures CreateSpec(Exchange(Fresh, log), marshal, r, Success(input), validate, dump)
         == Exchange(Writer(map[], Some(200), map[], dump(input)), log)
  {
  }

  /** The status a create request ends with on a fresh response whose error
      envelope can be marshalled: 400, 422 or 200, one per outcome. */
  lemma CreateStatus(log: seq<LogEntry>, marshal: Marshaller, r: Request, decoded: Decoded,
                     validate: Validation, dump: Dump)
    requires forall p: Problem :: marshal(ErrorEnvelope(MessageOf(p, r))).Success?
    ensures CreateSpec(Exchange(Fresh, log), marshal, r, decoded, validate, dump).writer.status
         == Some(if decoded.Failure? then 400
                 else if |validate(map[], NewMovie(decoded.value))| != 0 then 422
                 else 200)
  {
    match decoded
    case Failure(e) =>
      RespondOnFreshWriter(log, marshal, r, BadRequest(e));
    case Success(input) =>
      var errors := validate(map[], NewMovie(input));
      if |errors| != 0 {
        RespondOnFreshWriter(log, marshal, r, FailedValidation(errors));
      }
  }

  /** An unusable id is answered as not found (404), never as a bad request. */
  lemma ShowInvalidId(log: seq<LogEntry>, marshal: Marshaller, r: Request, now: int)
    requires ReadIdParam(r).err.Some?
    requires marshal(ErrorEnvelope(Message(NotFoundMessage))).Success?
    ensures ShowSpec(Exchange(Fresh, log), marshal, r, now) == RespondSpec(Exchange(Fresh, log), marshal, r, NotFound)
    ensures ShowSpec(Exchange(Fresh, log), marshal, r, now).writer.status == Some(404)
  {
    RespondOnFreshWriter(log, marshal, r, NotFound);
  }

  /** A usable id on a fresh response: 200, the JSON content type, and the
      marshalled single-key movie envelope (whose movie has the parsed id and
      version 1) plus a newline as the body; nothing is logged. */
  lemma ShowSuccess(log: seq<LogEntry>, marshal: Marshaller, r: Request, now: int)
    requires ReadIdParam(r).err.None?
    requires marshal(MovieEnvelope(Fixture(ReadIdParam(r).id, now))).Success?
    ensures var js := marshal(MovieEnvelope(Fixture(ReadIdParam(r).id, now))).value;
      ShowSpec(Exchange(Fresh, log), marshal, r, now)
      == Exchange(Writer(map[ContentType := [JsonMediaType]], Some(200), map[ContentType := [JsonMediaType]],
                         js + [Newline]), log)
  {
    assert (map[] + map[])[ContentType := [JsonMediaType]] == map[ContentType := [JsonMediaType]];
  }

  /** A write failure in show becomes the server-error reply: its cause is
      logged first, and the response is a 500 (with the generic message when
      that envelope can be marshalled). */
  lemma ShowWriteFailure(log: seq<LogEntry>, marshal: Marshaller, r: Request, now: int)
    requires ReadIdParam(r).err.None?
    requires marshal(MovieEnvelope(Fixture(ReadIdParam(r).id, now))).Failure?
    ensures var e := marshal(MovieEnvelope(Fixture(ReadIdParam(r).id, now))).error;
      && ShowSpec(Exchange(Fresh, log), marshal, r, now) == RespondSpec(Exchange(Fresh, log), marshal, r, ServerError(e))
      && ShowSpec(Exchange(Fresh, log), marshal, r, now).writer.status == Some(500)
      && ShowSpec(Exchange(Fresh, log), marshal, r, now).log[..|log| + 1] == log + [LogEntry(e.text, r.verb, r.uri)]
  {
    var e := marshal(MovieEnvelope(Fixture(ReadIdParam(r).id, now))).error;
    RespondOnFreshWriter(log, marshal, r, ServerError(e));
    RespondLog(Exchange(Fresh, log), marshal, r, ServerError(e));
  }

  /** The clock does not reach the response: whatever `time.Now()` returns,
      show leaves the same writer and the same log, because the creation time
      is never serialised. */
  lemma ShowIgnoresClock(x: Exchange, marshal: Marshaller, r: Request, t: int, t': int)
    ensures ShowSpec(x, marshal, r, t) == ShowSpec(x, marshal, r, t')
  {
    var p := ReadIdParam(r);
    if p.err.None? {
      CreatedAtNeverEmitted(Fixture(p.id, t), t');
      assert Fixture(p.id, t).(createdAt := t') == Fixture(p.id, t');
      assert MovieEnvelope(Fixture(p.id, t)) == MovieEnvelope(Fixture(p.id, t'));
    }
  }

  /** The served movie carries no year, so its object has the keys id, title,
      runtime, genres and version, in that order. */
  lemma FixtureKeys(id: Int64, now: int)
    ensures Keys(Fields(Fixture(id, now))) == [IdKey, TitleKey, RuntimeKey, GenresKey, VersionKey]
  {
    EmittedKeys(Fixture(id, now));
  }

  // ---------------------------------------------------------------------
  // The handlers
  // ---------------------------------------------------------------------

  method CreateMovieHandler(w: ResponseWriter, logger: Logger, marshal: Marshaller, r: Request,
                            decoded: Decoded, validate: Validation, dump: Dump)
    modifies w, logger
    ensures Exchange(w.State(), logger.entries)
         == CreateSpec(Exchange(old(w.State()), old(logger.entries)), marshal, r, decoded, validate, dump)
  {
    if decoded.Failure? {
      BadRequestResponse(w, logger, marshal, r, decoded.error);
      return;
    }
    var input := decoded.value;
    var movie := NewMovie(input);
    var v := new Validator();
    v.ValidateMovie(validate, movie);
    if !v.Valid() {
      FailedValidationResponse(w, logger, marshal, r, v.errors);
      return;
    }
    w.Write(dump(input));
  }

  method ShowMovieHandler(w: ResponseWriter, logger: Logger, marshal: Marshaller, r: Request, now: int)
    modifies w, logger
    ensures Exchange(w.State(), logger.entries)
         == ShowSpec(Exchange(old(w.State()), old(logger.entries)), marshal, r, now)
  {
    var p := ReadIdParam(r);
    if p.err.Some? {
      NotFoundResponse(w, logger, marshal, r);
      return;
    }
    var movie := Fixture(p.id, now);
    var err := WriteJson(w, 200, MovieEnvelope(movie), map[], marshal);
    if err.Some? {
      ServerErrorResponse(w, logger, marshal, r, err.value);
    }
  }
}
