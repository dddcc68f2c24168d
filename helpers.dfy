/** cmd/api/helpers.go: the response envelope, the `id` route parameter parser
    and the JSON envelope writer. */
module Helpers {
  import opened Common
  import opened Data
  import opened Http

  /** The values an envelope carries in this core: a message, the validator's
      field-to-message map, or a movie as the key/value pairs its struct tags
      make of it. */
  datatype Value =
    | Message(text: string)
    | FieldErrors(errors: map<string, string>)
    | MovieValue(fields: seq<Field>)

  /** `Envelope map[string]any` */
  type Envelope = map<string, Value>

  /** json.MarshalIndent(data, "", "\t"): the encoder is not modelled; it either
      yields the bytes of the JSON text or fails with an error. */
  type Marshaller = Envelope -> Result<seq<byte>, Error>

  const Newline: byte := 10
  const ContentType := "Content-Type"
  const JsonMediaType := "application/json"

  // ---------------------------------------------------------------------
  // Decimal integers, as strconv.ParseInt(s, 10, 64) reads them
  // ---------------------------------------------------------------------


  predicate IsDigit(c: char)
  {
    '0' <= c <= '9'
  }

  predicate AllDigits(s: string)
  {
    forall i :: 0 <= i < |s| ==> IsDigit(s[i])
  }

  /** The value of a string of decimal digits, most significant first. */
  function DigitsValue(s: string): nat
    requires AllDigits(s)
  {
    if |s| == 0 then 0
    else DigitsValue(s[..|s| - 1]) * 10 + (s[|s| - 1] as int - '0' as int)
  }

  /** strconv.ParseInt(s, 10, 64): an optional sign, then one or more decimal
      digits (no underscores in base 10), whose value must fit in an int64;
      anything else is an error. */
  function ParseInt64(s: string): Option<Int64>
  {
    if |s| == 0 then None
    else
      var digits := Unsigned(s);
      if |digits| == 0 || !AllDigits(digits) then None
      else
        var v: int := if s[0] == '-' then -(DigitsValue(digits) as int) else DigitsValue(digits);
        if MinInt64 <= v <= MaxInt64 then Some(v) else None
  }

  /** s without its sign character, if it has one. */
  function Unsigned(s: string): string
  {
    if |s| > 0 && (s[0] == '+' || s[0] == '-') then s[1..] else s
  }

  const InvalidId := Error("invalid id parameter")

  /** What readIDParam returns: the id, and an error that is set exactly when
      the id is unusable (the id is then 0). */
  datatype IdParam = IdParam(id: Int64, err: Option<Error>)

  /** readIDParam: the `id` parameter as a base-10 int64 of at least 1, or the
      fixed "invalid id parameter" error with id 0. */
  function ReadIdParam(r: Request): (p: IdParam)
    ensures p.err.None? ==> 1 <= p.id
    ensures p.err.Some? ==> p == IdParam(0, Some(InvalidId))
  {
    var parsed := ParseInt64(r.idParam);
    if parsed.None? || parsed.value < 1 then IdParam(0, Some(InvalidId))
    else IdParam(parsed.value, None)
  }

  // The canonical decimal spelling, used to characterise what ReadIdParam accepts.

  function DigitChar(d: nat): char
    requires d < 10
  {
    ('0' as int + d) as char
  }

  /** The shortest decimal spelling of n. */
  function Decimal(n: nat): string
  {
    if n < 10 then [DigitChar(n)] else Decimal(n / 10) + [DigitChar(n % 10)]
  }

  function Zeros(k: nat): string
  {
    if k == 0 then "" else "0" + Zeros(k - 1)
  }

  /** The ways to spell a positive id that ParseInt accepts: an optional '+',
      any number of leading zeros, then the shortest decimal form. */
  function Spelling(plus: bool, zeros: nat, n: nat): string
  {
    (if plus then "+" else "") + (Zeros(zeros) + Decimal(n))
  }

  /** How many '0' characters s starts with. */
  function LeadingZeros(s: string): nat
  {
    if |s| > 0 && s[0] == '0' then 1 + LeadingZeros(s[1..]) else 0
  }

  lemma {:induction false} DecimalDigits(n: nat)
    ensures |Decimal(n)| > 0 && AllDigits(Decimal(n))
    ensures DigitsValue(Decimal(n)) == n
    ensures n > 0 ==> Decimal(n)[0] != '0'
  {
    if n >= 10 {
      DecimalDigits(n / 10);
      var s := Decimal(n);
      assert s[..|s| - 1] == Decimal(n / 10);
    }
  }

  lemma {:induction false} ZerosAreDigits(k: nat)
    ensures |Zeros(k)| == k && AllDigits(Zeros(k)) && DigitsValue(Zeros(k)) == 0
  {
    if k > 0 {
      ZerosAreDigits(k - 1);
      ZerosAppend(k - 1);
      var z := Zeros(k);
      assert z[..k - 1] == Zeros(k - 1);
    }
  }

  /** Zeros(k + 1) is Zeros(k) with one more '0' at the end. */
  lemma {:induction false} ZerosAppend(k: nat)
    ensures Zeros(k + 1) == Zeros(k) + "0"
  {
    if k > 0 {
      ZerosAppend(k - 1);
    }
  }

  /** Leading zeros do not change the value of a digit string. */
  lemma {:induction false} LeadingZerosIgnored(k: nat, t: string)
    requires AllDigits(t)
    ensures AllDigits(Zeros(k) + t)
    ensures DigitsValue(Zeros(k) + t) == DigitsValue(t)
  {
    ZerosAreDigits(k);
    var s := Zeros(k) + t;
    if |t| == 0 {
      assert s == Zeros(k);
    } else {
      LeadingZerosIgnored(k, t[..|t| - 1]);
      assert s[..|s| - 1] == Zeros(k) + t[..|t| - 1];
    }
  }

  /** A digit string without a leading zero has a positive value. */
  lemma {:induction false} NoLeadingZeroPositive(t: string)
    requires |t| > 0 && AllDigits(t) && t[0] != '0'
    ensures DigitsValue(t) >= 1
    ensures |t| > 1 ==> DigitsValue(t) >= 10
  {
    if |t| > 1 {
      var p := t[..|t| - 1];
      NoLeadingZeroPositive(p);
    }
  }

  /** A digit string without a leading zero is the shortest spelling of its value. */
  lemma {:induction false} CanonicalDigits(t: string)
    requires |t| > 0 && AllDigits(t) && t[0] != '0'
    ensures Decimal(DigitsValue(t)) == t
  {
    var v := DigitsValue(t);
    var d := t[|t| - 1] as int - '0' as int;
    if |t| == 1 {
      assert t[..0] == "";
      assert DigitsValue(t[..0]) == 0;
      assert v == d;
      assert Decimal(v) == [DigitChar(d)];
    } else {
      var p := t[..|t| - 1];
      NoLeadingZeroPositive(p);
      CanonicalDigits(p);
      assert v == DigitsValue(p) * 10 + d;
      assert v / 10 == DigitsValue(p) && v % 10 == d;
      assert Decimal(v) == Decimal(DigitsValue(p)) + [DigitChar(d)];
      assert t == p + [t[|t| - 1]];
    }
  }

  /** Every digit string is its leading zeros followed by the rest. */
  lemma {:induction false} SplitLeadingZeros(s: string)
    ensures LeadingZeros(s) <= |s|
    ensures s == Zeros(LeadingZeros(s)) + s[LeadingZeros(s)..]
    ensures LeadingZeros(s) < |s| ==> s[LeadingZeros(s)] != '0'
  {
    if |s| > 0 && s[0] == '0' {
      var t := s[1..];
      var k := LeadingZeros(t);
      SplitLeadingZeros(t);
      assert LeadingZeros(s) == k + 1;
      assert Zeros(k + 1) == "0" + Zeros(k);
      assert s[k + 1..] == t[k..];
      assert s == "0" + t;
    }
  }

  /** Every spelling of an id in 1..MaxInt64 is accepted and yields that id. */
  lemma ReadIdParamAccepts(verb: string, uri: string, plus: bool, zeros: nat, n: nat)
    requires 1 <= n <= MaxInt64
    ensures ReadIdParam(Request(verb, uri, Spelling(plus, zeros, n))) == IdParam(n, None)
  {
    var digits := Zeros(zeros) + Decimal(n);
    DigitsOfSpelling(zeros, n);
    var s := Spelling(plus, zeros, n);
    SignOfSpelling(plus, digits);
    AcceptedDigits(Request(verb, uri, s));
  }

  lemma DigitsOfSpelling(zeros: nat, n: nat)
    requires 1 <= n
    ensures var digits := Zeros(zeros) + Decimal(n);
      |digits| > 0 && AllDigits(digits) && DigitsValue(digits) == n && IsDigit(digits[0])
  {
    DecimalDigits(n);
    LeadingZerosIgnored(zeros, Decimal(n));
  }

  lemma SignOfSpelling(plus: bool, digits: string)
    requires |digits| > 0 && IsDigit(digits[0])
    ensures var s := (if plus then "+" else "") + digits;
      Unsigned(s) == digits && s[0] != '-'
  {
    if plus {
      assert ("+" + digits)[1..] == digits;
    } else {
      assert "" + digits == digits;
    }
  }

  /** A parameter whose unsigned part is a digit string worth 1..MaxInt64 and
      that does not start with '-' is accepted with that value. */
  lemma AcceptedDigits(r: Request)
    requires |r.idParam| > 0 && r.idParam[0] != '-'
    requires var digits := Unsigned(r.idParam);
      |digits| > 0 && AllDigits(digits) && 1 <= DigitsValue(digits) <= MaxInt64
    ensures ReadIdParam(r) == IdParam(DigitsValue(Unsigned(r.idParam)), None)
  {
  }

  /** A digit string with a positive value is its leading zeros followed by
      the shortest spelling of that value. */
  lemma DigitsSpelling(digits: string)
    requires AllDigits(digits) && DigitsValue(digits) >= 1
    ensures digits == Zeros(LeadingZeros(digits)) + Decimal(DigitsValue(digits))
  {
    var k := LeadingZeros(digits);
    SplitLeadingZeros(digits);
    var rest := digits[k..];
    assert AllDigits(rest) by {
      forall i | 0 <= i < |rest| ensures IsDigit(rest[i]) { assert rest[i] == digits[k + i]; }
    }
    LeadingZerosIgnored(k, rest);
    assert DigitsValue(rest) >= 1;
    assert k < |digits|;
    CanonicalDigits(rest);
  }

  /** Conversely, whatever ReadIdParam accepts is one of those spellings of the
      id it returns; in particular it never starts with '-'. */
  lemma ReadIdParamAccepted(r: Request)
    requires ReadIdParam(r).err.None?
    ensures |r.idParam| > 0 && r.idParam[0] != '-'
    ensures r.idParam == Spelling(r.idParam[0] == '+', LeadingZeros(Unsigned(r.idParam)), ReadIdParam(r).id)
  {
    var s := r.idParam;
    var id := ReadIdParam(r).id;
    var digits := Unsigned(s);
    assert ParseInt64(s) == Some(id);
    assert |s| > 0 && AllDigits(digits);
    assert s[0] != '-';
    assert id == DigitsValue(digits);
    DigitsSpelling(digits);
    if s[0] == '+' {
      assert s == "+" + digits;
    } else {
      assert s == digits;
    }
  }

  /** The inputs the handlers must turn into 404: zero, negatives, words and
      the empty parameter. */
  lemma ReadIdParamRejects(verb: string, uri: string)
    ensures ReadIdParam(Request(verb, uri, "0")).err == Some(InvalidId)
    ensures ReadIdParam(Request(verb, uri, "-3")).err == Some(InvalidId)
    ensures ReadIdParam(Request(verb, uri, "abc")).err == Some(InvalidId)
    ensures ReadIdParam(Request(verb, uri, "")).err == Some(InvalidId)
    ensures ReadIdParam(Request(verb, uri, "+")).err == Some(InvalidId)
    ensures ReadIdParam(Request(verb, uri, "1_0")).err == Some(InvalidId)
  {
    assert !IsDigit('a');
    assert !IsDigit('_');
    assert DigitsValue("0") == 0 by { assert "0"[..0] == ""; }
    assert DigitsValue("3") == 3 by { assert "3"[..0] == ""; }
    assert "-3"[1..] == "3";
  }

  /** A digit string worth more than MaxInt64 is rejected, however it is signed:
      ParseInt's range error for '+' or no sign, and for '-' either that error
      or a negative id. */
  lemma ReadIdParamRejectsOverflow(r: Request)
    requires var digits := Unsigned(r.idParam);
      |digits| > 0 && AllDigits(digits) && DigitsValue(digits) > MaxInt64
    ensures ReadIdParam(r).err == Some(InvalidId)
  {
  }

  // ---------------------------------------------------------------------
  // writeJSON
  // ---------------------------------------------------------------------

  /** What writeJSON returns, and the writer it leaves. */
  datatype Written = Written(err: Option<Error>, writer: Writer)

  /** writeJSON(w, status, data, headers): marshal first and stop with the
      error if that fails; otherwise merge the caller's headers, force the JSON
      content type, write the status, then the bytes and one newline. */
  function WriteJsonSpec(w: Writer, status: int, data: Envelope, headers: Header, marshal: Marshaller): Written
    requires ValidStatus(status)
  {
    match marshal(data)
    case Failure(e) => Written(Some(e), w)
    case Success(js) =>
      var merged := w.(header := w.header + headers);
      var typed := SetHeader(merged, ContentType, JsonMediaType);
      Written(None, BodyWritten(StatusWritten(typed, status), js + [Newline]))
  }

  /** A marshalling failure is returned as it is and the writer is untouched. */
  lemma WriteJsonFailure(w: Writer, status: int, data: Envelope, headers: Header, marshal: Marshaller)
    requires ValidStatus(status) && marshal(data).Failure?
    ensures WriteJsonSpec(w, status, data, headers, marshal) == Written(Some(marshal(data).error), w)
  {
  }

  /** On success: no error; the body grows by exactly the marshalled bytes and
      one newline, unless the status in force is 204 or 304, which take no
      body; the caller's headers replace existing values under their
      keys, other keys are unchanged, and Content-Type is application/json
      whatever the caller supplied. */
  lemma WriteJsonSuccess(w: Writer, status: int, data: Envelope, headers: Header, marshal: Marshaller)
    requires ValidStatus(status) && marshal(data).Success?
    ensures var o := WriteJsonSpec(w, status, data, headers, marshal);
      var s := o.writer.status.value;
      && o.err == None
      && o.writer.body == w.body + (if s == 204 || s == 304 then [] else marshal(data).value + [Newline])
      && o.writer.header.Keys == w.header.Keys + headers.Keys + {ContentType}
      && o.writer.header[ContentType] == [JsonMediaType]
      && (forall k :: k in headers && k != ContentType ==> o.writer.header[k] == headers[k])
      && (forall k :: k in w.header && k !in headers && k != ContentType ==> o.writer.header[k] == w.header[k])
  {
    assert w.body + [] == w.body;
  }

  /** The order of the steps: on a writer with no status yet, the status sent is
      the caller's (not the 200 a bare Write would send), and the headers sent
      with it are the final ones, content type included. On a writer whose
      status was already written, status and sent headers stay as they were. */
  lemma WriteJsonOrder(w: Writer, status: int, data: Envelope, headers: Header, marshal: Marshaller)
    requires ValidStatus(status) && marshal(data).Success?
    ensures var o := WriteJsonSpec(w, status, data, headers, marshal);
      && (w.status.None? ==> o.writer.status == Some(status) && o.writer.wireHeader == o.writer.header)
      && (w.status.Some? ==> o.writer.status == w.status && o.writer.wireHeader == w.wireHeader)
  {
  }

  /** writeJSON on a response writer. The loop mirrors `for key, value := range
      headers`; the order Go visits the keys in is left open. */
  method WriteJson(w: ResponseWriter, status: int, data: Envelope, headers: Header, marshal: Marshaller)
    returns (err: Option<Error>)
    requires ValidStatus(status)
    modifies w
    ensures Written(err, w.State()) == WriteJsonSpec(old(w.State()), status, data, headers, marshal)
  {
    var js := marshal(data);
    if js.Failure? {
      return Some(js.error);
    }
    var out := js.value + [Newline];
    var pending := headers.Keys;
    while pending != {}
      invariant pending <= headers.Keys
      invariant w.State() == old(w.State()).(header := old(w.header) + (headers - pending))
      decreases pending
    {
      var key :| key in pending;
      w.AssignHeaderValues(key, headers[key]);
      pending := pending - {key};
      assert w.header == old(w.header) + (headers - pending);
    }
    assert headers - pending == headers;
    w.SetHeaderValue(ContentType, JsonMediaType);
    w.WriteHeader(status);
    w.Write(out);
    return None;
  }
}
