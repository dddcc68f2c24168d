# Greenlight response layer, modelled in Dafny

This project models the response protocol of the Greenlight movie API's first
endpoints:

- the JSON envelope writer `writeJSON`;
- the `id` route-parameter parser `readIDParam`;
- the error responder, with its five failure kinds and its bare-500 fallback;
- the decision flow of the create and show handlers;
- the JSON object that the `Movie` struct tags produce.

The HTTP response writer and the application logger are modelled as mutable
state (`Http.ResponseWriter`, `Http.Logger`). Each imperative Go function
becomes a Dafny method over that state. Its postcondition ties the new state to
a pure specification function: `WriteJsonSpec`, `ErrorResponseSpec`,
`RespondSpec`, `CreateSpec`, `ShowSpec`. The lemmas then prove what the source
promises about those functions.

Modules, one per source file:

- `Common`: `Option`, `Result`, Go's `error` as `Error(text)`, and `byte`.
- `Data` (internal/data/movies.go): `Movie`; `Fields`, the key/value pairs the
  struct tags emit; and lemmas on key presence, order and the hidden timestamp.
- `Http`: the part of net/http and log/slog the handlers use. The writer state
  holds the header map, the status once written, and the headers as sent with
  the status. Go ignores header changes made after the status is written; the
  model records this, and that is how "headers before status" is stated. The
  state also holds the body. The logger is the sequence of error records.
- `Helpers` (cmd/api/helpers.go): `Envelope`, `strconv.ParseInt(s, 10, 64)`
  written out digit by digit, `ReadIdParam`, and `WriteJsonSpec` with the
  method `WriteJson`.
- `Errors` (cmd/api/errors.go): `Problem`, which is the failure taxonomy; the
  status and message of each kind; the error envelope; and the responder's
  methods.
- `Handlers` (cmd/api/movies.go): the two handlers, their specification
  functions and the lemmas about each path.

Collaborators outside these four source files are parameters:

- `json.MarshalIndent` is a `Marshaller`. It returns either the bytes or an
  error.
- `readJSON` is the `Decoded` outcome.
- `data.ValidateMovie` is a `Validation`. Given the errors a validator already
  holds and a movie, it returns the errors the validator holds afterwards.
- the `%+v` dump is a `Dump`.
- `time.Now()` is the `now` argument.

In these details the code does something a reader might not expect, and the model follows the code:

- The caller's headers are merged first. Then `Content-Type` is forced, so a
  caller-supplied content type is overridden.
- `genres` is omitted only for a nil slice (`omitzero`). An empty slice is
  still emitted.
- A valid create request gets a plain-text `%+v` dump with an implicit 200, not
  a JSON envelope.
- The movie served by show has no year, so its object has no `year` key.

## Model

| member | source | states |
|---|---|---|
| Data.Name | internal/data/movies.go:9-15 | Defines the wire name each struct tag spells: "id", "title", "year", "runtime", "genres", "version". |
| Data.ValueOf | internal/data/movies.go:9-15 | Defines the value each tagged key carries: the struct field of the same name. |
| Data.Emitted | internal/data/movies.go:12-14 | Defines the `omitzero` rule: `year` and `runtime` are dropped when zero, `genres` when nil. Every other key is always emitted. |
| Data.Fields | internal/data/movies.go:8-16 | The object's keys strictly follow the struct's declaration order, so no key appears twice. |
| Data.FieldValues | internal/data/movies.go:9-15 | `id`, `title` and `version` are always present with the struct's values. `year` and `runtime` are present exactly when non-zero. `genres` is present exactly when the slice is not nil. |
| Data.Encode | internal/data/movies.go:9-15 | The encoder emits only fields that are not omitted, and only keys it was given. |
| Data.EncodeOrdered | internal/data/movies.go:9-15 | Walking keys in declaration order yields pairs in declaration order. |
| Data.PresentOrdered | internal/data/movies.go:12-14 | Dropping omitted fields keeps the remaining keys in declaration order. |
| Data.LookupEncode | internal/data/movies.go:12-14 | A key is found in the encoded object exactly when it is walked and its field is not omitted. It then carries that field's value. |
| Data.WireNames | internal/data/movies.go:9-15 | Wire names are the six tagged names. None is `created_at`, and distinct keys have distinct names. |
| Data.CreatedAtNeverEmitted | internal/data/movies.go:10 | Two movies that differ only in their creation time encode identically. |
| Data.EmittedKeys | internal/data/movies.go:9-15 | The key list is id, title, year if non-zero, runtime if non-zero, genres if non-nil, version. |
| Http.WritesAreFinal | cmd/api/errors.go:28 | Once a status is written, a later WriteHeader changes nothing. A body write keeps the written status, or commits 200 if none was written. It appends exactly its bytes, unless the status in force is 204 or 304, which take no body. |
| Http.AssignHeader | cmd/api/helpers.go:33 | Defines `w.Header()[key] = value` on the writer's state: the values under one key are replaced. |
| Http.SetHeader | cmd/api/helpers.go:36 | Defines `w.Header().Set(key, value)` on the writer's state: the key then holds exactly the one value. |
| Http.StatusWritten | cmd/api/helpers.go:37 | Defines WriteHeader on the writer's state: the first status wins, and the headers are recorded as sent with it. |
| Http.BodyWritten | cmd/api/helpers.go:38 | Defines Write on the writer's state: commit 200 if no status was written, then append the bytes unless the status is 204 or 304. |
| Http.ResponseWriter.AssignHeaderValues | cmd/api/helpers.go:33 | `w.Header()[key] = value` replaces the values under that one key. |
| Http.ResponseWriter.SetHeaderValue | cmd/api/helpers.go:36 | `Header().Set` makes the key hold exactly the one value. |
| Http.ResponseWriter.WriteHeader | cmd/api/helpers.go:37 | The first call fixes the status and records the headers sent with it. Later calls are ignored. |
| Http.ResponseWriter.Write | cmd/api/helpers.go:38 | Write commits status 200 if none was written, then appends the bytes to the body. Under status 204 or 304 the body is left unchanged. |
| Http.Logger.constructor | cmd/api/main.go:56 | The logger starts with no records. |
| Http.Logger.Error | cmd/api/errors.go:16 | Logging an error appends one record: message, method and URI. |
| Helpers.ParseInt64 | cmd/api/helpers.go:17 | Defines strconv.ParseInt(s, 10, 64): an optional sign, one or more decimal digits, and a value within the int64 range. Anything else is an error. |
| Helpers.ReadIdParam | cmd/api/helpers.go:14-23 | A success always has id at least 1. Every failure is id 0 with the fixed "invalid id parameter" error. |
| Helpers.DecimalDigits | cmd/api/helpers.go:17 | The shortest decimal spelling of n is a non-empty digit string, worth n, with no leading zero unless n is 0. |
| Helpers.LeadingZerosIgnored | cmd/api/helpers.go:17 | Leading zeros do not change the value ParseInt reads. |
| Helpers.CanonicalDigits | cmd/api/helpers.go:17 | A digit string without a leading zero is the shortest spelling of its value. |
| Helpers.ReadIdParamAccepts | cmd/api/helpers.go:17-22 | Every id in 1..2^63-1 is accepted and returned. This includes spellings with a leading '+' or leading zeros. |
| Helpers.ReadIdParamAccepted | cmd/api/helpers.go:17-22 | Anything accepted is an optional '+', then zeros, then the shortest spelling of the returned id. It never starts with '-'. |
| Helpers.ReadIdParamRejects | cmd/api/helpers.go:17-20 | "0", "-3", "abc", "", "+" and "1_0" are all rejected with the fixed error. |
| Helpers.ReadIdParamRejectsOverflow | cmd/api/helpers.go:17-20 | A digit string worth more than 2^63-1 is rejected, with or without a leading "+" or "-". |
| Helpers.WriteJsonSpec | cmd/api/helpers.go:25-41 | Defines writeJSON's effect: marshal, or stop with the error; merge the caller's headers; force the JSON content type; write the status; write the bytes and a newline. |
| Helpers.WriteJsonFailure | cmd/api/helpers.go:27-30 | If marshalling fails, that error is returned and headers, status and body are all unchanged. |
| Helpers.WriteJsonSuccess | cmd/api/helpers.go:31-40 | On success no error is returned. The body grows by exactly the marshalled bytes plus one newline, or not at all under status 204 or 304. Caller headers replace existing values, other keys keep theirs, and Content-Type is application/json even if the caller supplied another. |
| Helpers.WriteJsonOrder | cmd/api/helpers.go:36-38 | On a writer with no status yet, the caller's status is written, not the 200 of a bare Write. The headers sent are the final ones. On a writer whose status is already written, status and sent headers stay as they were. |
| Helpers.WriteJson | cmd/api/helpers.go:25-41 | The method, with its header-merging loop, leaves exactly the state and result of the writeJSON specification. |
| Errors.StatusOf | cmd/api/errors.go:32-59 | Defines each kind's status: 500, 404, 405, 400 and 422. |
| Errors.MessageOf | cmd/api/errors.go:35-58 | Defines each kind's payload: fixed texts for 500 and 404, the method for 405, the error text for 400, and the map for 422. |
| Errors.LogErrorSpec | cmd/api/errors.go:10-17 | Defines logError: the log gains one record of the error text, the request method and the request URI. |
| Errors.ErrorResponseSpec | cmd/api/errors.go:19-30 | Defines errorResponse: writeJSON with the error envelope and no headers. On failure, log the error and write status 500. |
| Errors.RespondSpec | cmd/api/errors.go:32-59 | Defines each responder: a server error is logged first; then errorResponse runs with the kind's status and payload. |
| Errors.ErrorEnvelope | cmd/api/errors.go:20 | An error envelope has exactly one key, "error", holding the message. |
| Errors.StatusTaxonomy | cmd/api/errors.go:32-59 | Status is 4xx exactly for client problems and 500 exactly for server errors. No two kinds share a status. |
| Errors.MessagesCarryTheirCause | cmd/api/errors.go:48-59 | 405 embeds the request method. 400 is exactly the error text. 422 is the validator's map unchanged. |
| Errors.ServerErrorHidesCause | cmd/api/errors.go:32-37 | A server-error response does not depend on the error that caused it. |
| Errors.RespondLog | cmd/api/errors.go:10-37 | The log grows in order: the cause of a server error, then the writeJSON error if the envelope fails. Nothing else is added. |
| Errors.RespondOnFreshWriter | cmd/api/errors.go:19-59 | On a fresh writer, a marshallable envelope gives the kind's status, the JSON content type, and envelope bytes plus a newline. Otherwise the reply is a bare 500 with no headers and an empty body. |
| Errors.LogError | cmd/api/errors.go:10-17 | logError appends one record with the error text, the request method and the request URI. |
| Errors.ErrorResponse | cmd/api/errors.go:19-30 | Writes the error envelope. If that fails, it logs the failure and writes status 500. |
| Errors.ServerErrorResponse | cmd/api/errors.go:32-37 | Logs the cause, then responds 500 with the fixed generic message. |
| Errors.NotFoundResponse | cmd/api/errors.go:41-44 | Responds 404 with "the requested resource could not be found". |
| Errors.MethodNotAllowedResponse | cmd/api/errors.go:48-51 | Responds 405 with a message naming the request's method. |
| Errors.BadRequestResponse | cmd/api/errors.go:53-55 | Responds 400 with the error's text. |
| Errors.FailedValidationResponse | cmd/api/errors.go:57-59 | Responds 422 with the field-to-message map. |
| Handlers.Validator.constructor | cmd/api/movies.go:35 | Each request gets a new validator holding no errors. |
| Handlers.Validator.Valid | cmd/api/movies.go:39 | `v.Valid()` holds exactly when the validator has recorded no error. |
| Handlers.Validator.ValidateMovie | cmd/api/movies.go:39 | Validation replaces the validator's errors with what ValidateMovie records, starting from those it held. |
| Handlers.NewMovie | cmd/api/movies.go:27-32 | The movie built for validation carries exactly the input's title, year, runtime and genres. Its id, creation time and version are zero. |
| Handlers.Fixture | cmd/api/movies.go:54-61 | The served movie has the parsed id, version 1, the current time, and the fixed title, runtime and genres. It has no year. |
| Handlers.MovieEnvelope | cmd/api/movies.go:63 | The success envelope has exactly one key, "movie". It holds the object the movie's struct tags produce, so the encoder never sees `CreatedAt`. |
| Handlers.CreateSpec | cmd/api/movies.go:12-45 | Defines create: a decode failure is a 400. Otherwise a fresh validator checks the new movie; errors give a 422, and valid input is dumped as plain text. |
| Handlers.ShowSpec | cmd/api/movies.go:48-68 | Defines show: an unusable id is a 404. Otherwise the fixture is written with 200, and a writeJSON failure becomes a server error. |
| Handlers.ShowIgnoresClock | cmd/api/movies.go:56 | The writer and log that show leaves do not depend on `time.Now()`, because the creation time is never serialised. |
| Handlers.CreateDecodeFailure | cmd/api/movies.go:20-24 | A decode failure gives the 400 reply and stops. The result is the same whatever the validator or dump would do. |
| Handlers.CreateValidationFailure | cmd/api/movies.go:39-42 | Failed validation gives the 422 reply with exactly the validator's errors. The success write is skipped. |
| Handlers.CreateSuccess | cmd/api/movies.go:44 | Valid input on a fresh writer gives an implicit 200. The body is the plain-text dump only, with no JSON content type and no log entry. |
| Handlers.CreateStatus | cmd/api/movies.go:20-44 | On a fresh writer, when the error envelope can be marshalled, create ends with exactly one status: 400 on a decode failure, 422 on failed validation, 200 otherwise. |
| Handlers.ShowInvalidId | cmd/api/movies.go:49-53 | An unusable id gets the not-found reply, status 404, not 400. |
| Handlers.ShowSuccess | cmd/api/movies.go:54-63 | A usable id on a fresh writer gives 200 and the JSON content type. The body is the marshalled movie envelope plus a newline. Nothing is logged. |
| Handlers.ShowWriteFailure | cmd/api/movies.go:63-66 | A write failure in show becomes the server-error reply. Its cause is logged first and the status is 500. |
| Handlers.FixtureKeys | cmd/api/movies.go:54-61 | The served movie's object has the keys id, title, runtime, genres, version, in that order. |
| Handlers.CreateMovieHandler | cmd/api/movies.go:12-45 | The handler leaves the writer and log exactly as the create flow prescribes for every collaborator outcome. |
| Handlers.ShowMovieHandler | cmd/api/movies.go:48-68 | The handler leaves the writer and log exactly as the show flow prescribes. |

## Left out

- JSON text: `json.MarshalIndent` with tab indentation is an abstract `Marshaller`, which may fail. Formatting is not modelled. The movie's object is modelled as `Data.Fields`, a sequence of key/value pairs.
- The `Runtime` type and its `" mins"` codec are not part of this model. Only Runtime's zero value (0 minutes) is used, because it decides whether `runtime` is emitted.
- The validator's checks: `internal/validator` and `data.ValidateMovie` are not part of this model. Validation is an abstract function of the errors already held and the movie. `Valid()` is taken to mean that no error is recorded.
- `readJSON` is not part of this model. Its outcome is a parameter, and it is assumed not to write to the response.
- The `%+v` dump of the input is an abstract sequence of bytes.
- Library plumbing is left out:
  - `httprouter` parameter extraction: the `id` parameter is a field of the request, "" when absent.
  - `RequestURI()` is a string field.
  - `time.Now()` is a parameter.
  - slog's record formatting: a record is message, method and URI.
  - Go's canonicalisation of header names: keys are kept as given.
- Http.ResponseWriter.Write: the `ErrBodyNotAllowed` error returned under status 204 or 304 is not modelled; only the dropped body is. Go's content sniffing is not modelled. When no Content-Type is set, Go's Write sets one; the model leaves the header map alone.
- Http.ResponseWriter.WriteHeader: 1xx informational codes are treated like final statuses. The "superfluous WriteHeader" message Go prints to the server log is not modelled.
- The count and error returned by `w.Write` are ignored by the source, and network write failures are not modelled.
- Concurrency across requests is not modelled: each request has its own writer, validator and envelope.
- cmd/api/main.go is not modelled: flags, the PostgreSQL pool, server setup and exit.
