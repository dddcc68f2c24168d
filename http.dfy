/** The parts of net/http and log/slog the handlers touch: a request as the
    handlers read it, a response writer as mutable state, and an error logger. */
module Http {
  import opened Common

  /** http.Header: each key holds a list of values. Keys are kept as given;
      Go's canonicalisation of header names is not modelled. */
  type Header = map<string, seq<string>>

  /** What a handler reads from *http.Request: the method (`verb`), RequestURI() and
      the `id` route parameter ("" when the route has none). */
  datatype Request = Request(verb: string, uri: string, idParam: string)

  /** The observable state of a response writer: the mutable header map, the
      status once written, the headers as they were when the status was
      written (Go sends them with the status line and ignores later changes),
      and the body written so far. */
  datatype Writer = Writer(header: Header, status: Option<int>, wireHeader: Header, body: seq<byte>)

  /** A writer on which nothing has been done yet. */
  const Fresh := Writer(map[], None, map[], [])

  /** WriteHeader panics on a code outside 100..999. */
  predicate ValidStatus(code: int)
  {
    100 <= code <= 999
  }

  /** `w.Header()[key] = values`: replaces the values under one key. */
  function AssignHeader(w: Writer, key: string, values: seq<string>): Writer
  {
    w.(header := w.header[key := values])
  }

  /** `w.Header().Set(key, value)`: the key then holds the one value. */
  function SetHeader(w: Writer, key: string, value: string): Writer
  {
    AssignHeader(w, key, [value])
  }

  /** `w.WriteHeader(code)`: the first call fixes the status and the headers
      sent; a later call changes nothing. */
  function StatusWritten(w: Writer, code: int): Writer
    requires ValidStatus(code)
  {
    if w.status.None? then w.(status := Some(code), wireHeader := w.header) else w
  }

  /** Go's bodyAllowedForStatus, for the final statuses this core writes:
      204 No Content and 304 Not Modified take no body. (Go also refuses a body
      under 1xx codes such as 101, which this core never writes.) */
  predicate BodyAllowed(code: int)
  {
    code != 204 && code != 304
  }

  /** `w.Write(bytes)`: writes status 200 first if no status was written, then
      appends the bytes to the body, unless the status forbids a body (Go then
      returns ErrBodyNotAllowed and writes nothing). */
  function BodyWritten(w: Writer, bytes: seq<byte>): Writer
  {
    var w' := StatusWritten(w, 200);
    if BodyAllowed(w'.status.value) then w'.(body := w'.body + bytes) else w'
  }

  /** A write never takes back what is written: the status, once there, stays,
      and the body only grows. */
  lemma WritesAreFinal(w: Writer, code: int, bytes: seq<byte>)
    requires ValidStatus(code)
    ensures w.status.Some? ==> StatusWritten(w, code) == w
    ensures w.status.Some? ==> BodyWritten(w, bytes).status == w.status
    ensures w.status.None? ==> BodyWritten(w, bytes).status == Some(200)
    ensures var s := BodyWritten(w, bytes).status.value;
      BodyWritten(w, bytes).body == w.body + (if s == 204 || s == 304 then [] else bytes)
  {
    assert w.body + [] == w.body;
  }

  /** The response writer of one request. */
  class ResponseWriter {
    var header: Header
    var status: Option<int>
    var wireHeader: Header
    var body: seq<byte>

    function State(): Writer
      reads this
    {
      Writer(header, status, wireHeader, body)
    }

    constructor ()
      ensures State() == Fresh
    {
      header, status, wireHeader, body := map[], None, map[], [];
    }

    /** `w.Header()[key] = values` */
    method AssignHeaderValues(key: string, values: seq<string>)
      modifies this
      ensures State() == AssignHeader(old(State()), key, values)
    {
      header := header[key := values];
    }

    /** `w.Header().Set(key, value)` */
    method SetHeaderValue(key: string, value: string)
      modifies this
      ensures State() == SetHeader(old(State()), key, value)
    {
      header := header[key := [value]];
    }

    /** `w.WriteHeader(code)` */
    method WriteHeader(code: int)
      requires ValidStatus(code)
      modifies this
      ensures State() == StatusWritten(old(State()), code)
    {
      if status.None? {
        status := Some(code);
        wireHeader := header;
      }
    }

    /** `w.Write(bytes)`; the count and error it returns are ignored by every
        caller here. */
    method Write(bytes: seq<byte>)
      modifies this
      ensures State() == BodyWritten(old(State()), bytes)
    {
      WriteHeader(200);
      if BodyAllowed(status.value) {
        body := body + bytes;
      }
    }
  }

  /** One record of `logger.Error(message, "method", verb, "uri", uri)`. */
  datatype LogEntry = LogEntry(message: string, verb: string, uri: string)

  /** The application's *slog.Logger, seen as the sequence of error records it
      has emitted. */
  class Logger {
    var entries: seq<LogEntry>

    constructor ()
      ensures entries == []
    {
      entries := [];
    }

    method Error(message: string, verb: string, uri: string)
      modifies this
      ensures entries == old(entries) + [LogEntry(message, verb, uri)]
    {
      entries := entries + [LogEntry(message, verb, uri)];
    }
  }
}
